/** Solvers and the list of request ids assigned to each. */
module Solvers {

  datatype SolverRole = Breakdown | Matchmaking | Validation

  /** `s` without its first occurrence of `x` (unchanged when `x` does not occur). */
  function RemoveFirst<T(==)>(s: seq<T>, x: T): seq<T>
  {
    if s == [] then []
    else if s[0] == x then s[1..]
    else [s[0]] + RemoveFirst(s[1..], x)
  }

  /** The position of the first occurrence of `x` in `s`. */
  function FirstIndex<T(==)>(s: seq<T>, x: T): (i: nat)
    requires x in s
    ensures i < |s| && s[i] == x && x !in s[..i]
  {
    if s[0] == x then 0
    else
      var i := 1 + FirstIndex(s[1..], x);
      assert s[..i] == [s[0]] + s[1..][..i - 1];
      i
  }

  /** Removing an element that occurs cuts out exactly its first occurrence. */
  lemma {:induction false} RemoveFirstCutsFirstOccurrence<T>(s: seq<T>, x: T)
    requires x in s
    ensures RemoveFirst(s, x) == s[..FirstIndex(s, x)] + s[FirstIndex(s, x) + 1..]
  {
    if s[0] != x {
      RemoveFirstCutsFirstOccurrence(s[1..], x);
      var i := FirstIndex(s[1..], x);
      assert s[..i + 1] == [s[0]] + s[1..][..i];
      assert s[i + 2..] == s[1..][i + 1..];
    }
  }

  /** Removing an element that occurs takes exactly one copy of it out of the multiset. */
  lemma RemoveFirstMultiset<T>(s: seq<T>, x: T)
    requires x in s
    ensures multiset(RemoveFirst(s, x)) == multiset(s) - multiset{x}
  {
    RemoveFirstCutsFirstOccurrence(s, x);
    var i := FirstIndex(s, x);
    assert s == s[..i] + [x] + s[i + 1..];
  }

  /** The outcome of removing several ids in turn: whether every removal succeeded, and the
      list as it stands when the removals stopped. */
  datatype Removal<T> = Removal(ok: bool, rest: seq<T>)

  /** Removes the first occurrence of each of `ids` in turn, stopping (with `ok` false) at
      the first id that is no longer present; the removals done before it stay done. */
  function RemoveEach<T(==)>(s: seq<T>, ids: seq<T>): Removal<T>
    decreases ids
  {
    if ids == [] then Removal(true, s)
    else if ids[0] !in s then Removal(false, s)
    else RemoveEach(RemoveFirst(s, ids[0]), ids[1..])
  }

  /** Removing `ids` succeeds exactly when the list holds at least as many copies of each
      id as `ids` names, and then it takes exactly those copies out. */
  lemma {:induction false} RemoveEachMultiset<T>(s: seq<T>, ids: seq<T>)
    ensures RemoveEach(s, ids).ok <==> multiset(ids) <= multiset(s)
    ensures RemoveEach(s, ids).ok ==> multiset(RemoveEach(s, ids).rest) == multiset(s) - multiset(ids)
    decreases ids
  {
    if ids != [] {
      var x := ids[0];
      assert ids == [x] + ids[1..];
      assert multiset(ids) == multiset{x} + multiset(ids[1..]);
      if x in s {
        RemoveFirstMultiset(s, x);
        RemoveEachMultiset(RemoveFirst(s, x), ids[1..]);
      } else {
        assert multiset(ids)[x] > multiset(s)[x];
      }
    }
  }

  /** Appending ids and then removing the same ids always succeeds and gives back the
      original requests, possibly in another order. */
  lemma AddThenRemove<T>(s: seq<T>, ids: seq<T>)
    ensures RemoveEach(s + ids, ids).ok
    ensures multiset(RemoveEach(s + ids, ids).rest) == multiset(s)
  {
    RemoveEachMultiset(s + ids, ids);
  }

  /** A solver node: its roles, the sub-economies it serves and the requests assigned to it. */
  class Solver {
    const id: string
    const roles: seq<SolverRole>
    const economies: seq<string>
    var requests: seq<string>

    constructor (id: string, roles: seq<SolverRole>, economies: seq<string>)
      ensures this.id == id && this.roles == roles && this.economies == economies
      ensures requests == []
    {
      this.id := id;
      this.roles := roles;
      this.economies := economies;
      requests := [];
    }

    /** Appends the given request ids, in order. */
    method AddRequests(ids: seq<string>)
      modifies this
      ensures requests == old(requests) + ids
    {
      for i := 0 to |ids|
        invariant requests == old(requests) + ids[..i]
      {
        requests := requests + [ids[i]];
        assert ids[..i + 1] == ids[..i] + [ids[i]];
      }
      assert ids[..|ids|] == ids;
    }

    /** Removes the first occurrence of each given id in turn; fails at the first id that
        is not assigned, keeping the removals already made. */
    method RemoveRequests(ids: seq<string>) returns (ok: bool)
      modifies this
      ensures Removal(ok, requests) == RemoveEach(old(requests), ids)
    {
      for i := 0 to |ids|
        invariant RemoveEach(old(requests), ids) == RemoveEach(requests, ids[i..])
      {
        assert ids[i..][1..] == ids[i + 1..];
        if ids[i] !in requests {
          return false;
        }
        requests := RemoveFirst(requests, ids[i]);
      }
      ok := true;
    }
  }
}
