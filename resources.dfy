/** The resource catalog: complex resources that may depend on atomic ones,
    named from one shared counter as "resource_<n>". */
module Resources {

  datatype ResourceKind = Complex | Atomic

  /** A resource; `dependencies` maps each atomic resource id it depends on to itself. */
  datatype Resource = Resource(id: string, kind: ResourceKind, dependencies: map<string, string>)

  /** The character of a decimal digit. */
  function DigitChar(d: nat): (c: char)
    requires d < 10
    ensures '0' <= c <= '9'
  {
    (48 + d) as char
  }

  /** Decimal representation of a natural number, as Python's `str` writes it. */
  function DecimalString(n: nat): (s: string)
    ensures 1 <= |s|
    ensures n < 10 <==> |s| == 1
    decreases n
  {
    if n < 10 then [DigitChar(n)] else DecimalString(n / 10) + [DigitChar(n % 10)]
  }

  /** Different numbers have different decimal representations. */
  lemma {:induction false} DecimalStringInjective(a: nat, b: nat)
    requires DecimalString(a) == DecimalString(b)
    ensures a == b
    decreases a
  {
    var sa, sb := DecimalString(a), DecimalString(b);
    if 10 <= a {
      assert 10 <= b;
      assert sa[..|sa| - 1] == DecimalString(a / 10);
      assert sb[..|sb| - 1] == DecimalString(b / 10);
      DecimalStringInjective(a / 10, b / 10);
      assert DigitChar(a % 10) == sa[|sa| - 1] == sb[|sb| - 1] == DigitChar(b % 10);
    } else {
      assert sa[0] == sb[0];
    }
  }

  const NamePrefix: string := "resource_"

  /** The identifier the catalog builder gives to the resource numbered `n`. */
  function ResourceName(n: nat): string
  {
    NamePrefix + DecimalString(n)
  }

  /** Different numbers give different resource identifiers. */
  lemma ResourceNameInjective(a: nat, b: nat)
    requires ResourceName(a) == ResourceName(b)
    ensures a == b
  {
    assert DecimalString(a) == ResourceName(a)[|NamePrefix|..];
    assert DecimalString(b) == ResourceName(b)[|NamePrefix|..];
    DecimalStringInjective(a, b);
  }

  /** The identifiers of the first `n` resources. */
  function ResourceIds(n: nat): set<string>
  {
    set i | 0 <= i < n :: ResourceName(i)
  }

  /** Counting one more resource adds exactly one new identifier. */
  lemma ResourceIdsNext(n: nat)
    ensures ResourceIds(n + 1) == ResourceIds(n) + {ResourceName(n)}
    ensures ResourceName(n) !in ResourceIds(n)
  {
    if ResourceName(n) in ResourceIds(n) {
      var i :| 0 <= i < n && ResourceName(i) == ResourceName(n);
      ResourceNameInjective(i, n);
    }
  }

  /** The first `n` resource identifiers are `n` distinct strings. */
  lemma {:induction false} ResourceIdsCount(n: nat)
    ensures |ResourceIds(n)| == n
  {
    if n > 0 {
      ResourceIdsCount(n - 1);
      ResourceIdsNext(n - 1);
    }
  }

  /** The identifiers of the atomic resources `complexCount + j` whose flip `row[j]`, `j < upTo`,
      came up true. */
  function DependencyIds(complexCount: nat, row: seq<bool>, upTo: nat): set<string>
    requires upTo <= |row|
  {
    set j | 0 <= j < upTo && row[j] :: ResourceName(complexCount + j)
  }

  /** The dependency map a complex resource gets from the first `upTo` flips of its row. */
  function DependencyMap(complexCount: nat, row: seq<bool>, upTo: nat): (deps: map<string, string>)
    requires upTo <= |row|
  {
    map d | d in DependencyIds(complexCount, row, upTo) :: d
  }

  /** One more flip of a row adds its atomic resource to the dependency map exactly when it came up true. */
  lemma DependencyMapNext(complexCount: nat, row: seq<bool>, j: nat)
    requires j < |row|
    ensures var child := ResourceName(complexCount + j);
      DependencyMap(complexCount, row, j + 1) ==
        if row[j] then DependencyMap(complexCount, row, j)[child := child]
        else DependencyMap(complexCount, row, j)
  {
    var child := ResourceName(complexCount + j);
    assert DependencyIds(complexCount, row, j + 1) ==
      DependencyIds(complexCount, row, j) + (if row[j] then {child} else {});
  }

  /** After the whole row, atomic resource `complexCount + j` is a dependency exactly when flip `row[j]` came up true. */
  lemma DependencyIdsMember(complexCount: nat, row: seq<bool>, j: nat)
    requires j < |row|
    ensures ResourceName(complexCount + j) in DependencyIds(complexCount, row, |row|) <==> row[j]
  {
    if ResourceName(complexCount + j) in DependencyIds(complexCount, row, |row|) {
      var j' :| 0 <= j' < |row| && row[j'] && ResourceName(complexCount + j') == ResourceName(complexCount + j);
      ResourceNameInjective(complexCount + j', complexCount + j);
    }
  }

  /** The kind the builder gives to the resource numbered `m`. */
  function KindOf(complexCount: nat, m: nat): ResourceKind
  {
    if m < complexCount then Complex else Atomic
  }

  /** The builder's state after numbering the first `n` resources. */
  ghost predicate Numbered(resources: map<string, Resource>, complexCount: nat, n: nat)
  {
    && resources.Keys == ResourceIds(n)
    && forall m :: 0 <= m < n ==>
         resources[ResourceName(m)] == Resource(ResourceName(m), KindOf(complexCount, m), map[])
  }

  /** Adding resource `n`, with the kind its number gives it and no dependencies, numbers one more resource. */
  lemma NumberedNext(resources: map<string, Resource>, complexCount: nat, n: nat)
    requires Numbered(resources, complexCount, n)
    ensures Numbered(resources[ResourceName(n) := Resource(ResourceName(n), KindOf(complexCount, n), map[])],
                     complexCount, n + 1)
  {
    ResourceIdsNext(n);
    forall m | 0 <= m < n ensures ResourceName(m) != ResourceName(n) {
      if ResourceName(m) == ResourceName(n) { ResourceNameInjective(m, n); }
    }
  }

  /** The dependencies of resource `m` once every flip of the rows before row `i`, and the
      first `j` flips of row `i`, have been applied. */
  function DependenciesSoFar(complexCount: nat, atomicCount: nat, flips: seq<seq<bool>>,
                             i: nat, j: nat, m: nat): map<string, string>
    requires |flips| == complexCount
    requires forall r :: 0 <= r < complexCount ==> |flips[r]| == atomicCount
    requires i <= complexCount && j <= atomicCount && (0 < j ==> i < complexCount)
  {
    if m < i then DependencyMap(complexCount, flips[m], atomicCount)
    else if m == i && 0 < j then DependencyMap(complexCount, flips[i], j)
    else map[]
  }

  /** The builder's state while it applies the coin flips. */
  ghost predicate Linked(resources: map<string, Resource>, complexCount: nat, atomicCount: nat,
                         flips: seq<seq<bool>>, i: nat, j: nat)
    requires |flips| == complexCount
    requires forall r :: 0 <= r < complexCount ==> |flips[r]| == atomicCount
    requires i <= complexCount && j <= atomicCount && (0 < j ==> i < complexCount)
  {
    && resources.Keys == ResourceIds(complexCount + atomicCount)
    && forall m :: 0 <= m < complexCount + atomicCount ==>
         resources[ResourceName(m)] ==
           Resource(ResourceName(m), KindOf(complexCount, m),
                    DependenciesSoFar(complexCount, atomicCount, flips, i, j, m))
  }

  /** Applying flip `flips[i][j]` to the state before it gives the state after it. */
  lemma LinkedNext(resources: map<string, Resource>, complexCount: nat, atomicCount: nat,
                   flips: seq<seq<bool>>, i: nat, j: nat, next: map<string, Resource>)
    requires |flips| == complexCount
    requires forall r :: 0 <= r < complexCount ==> |flips[r]| == atomicCount
    requires i < complexCount && j < atomicCount
    requires Linked(resources, complexCount, atomicCount, flips, i, j)
    requires var parent, child := ResourceName(i), ResourceName(complexCount + j);
      next == if flips[i][j]
              then resources[parent := resources[parent].(dependencies := resources[parent].dependencies[child := child])]
              else resources
    ensures Linked(next, complexCount, atomicCount, flips, i, j + 1)
  {
    assert ResourceName(i) in ResourceIds(complexCount + atomicCount);
    forall m | 0 <= m < complexCount + atomicCount
      ensures next[ResourceName(m)] ==
        Resource(ResourceName(m), KindOf(complexCount, m),
                 DependenciesSoFar(complexCount, atomicCount, flips, i, j + 1, m))
    {
      if m == i {
        LinkedNextParent(resources, complexCount, atomicCount, flips, i, j, next);
      } else {
        LinkedNextOther(resources, complexCount, atomicCount, flips, i, j, next, m);
      }
    }
  }

  /** The flip `flips[i][j]` leaves complex resource `i` with the dependencies of the first `j + 1` flips of its row. */
  lemma LinkedNextParent(resources: map<string, Resource>, complexCount: nat, atomicCount: nat,
                         flips: seq<seq<bool>>, i: nat, j: nat, next: map<string, Resource>)
    requires |flips| == complexCount
    requires forall r :: 0 <= r < complexCount ==> |flips[r]| == atomicCount
    requires i < complexCount && j < atomicCount
    requires Linked(resources, complexCount, atomicCount, flips, i, j)
    requires var parent, child := ResourceName(i), ResourceName(complexCount + j);
      next == if flips[i][j]
              then resources[parent := resources[parent].(dependencies := resources[parent].dependencies[child := child])]
              else resources
    ensures next[ResourceName(i)] ==
      Resource(ResourceName(i), Complex, DependencyMap(complexCount, flips[i], j + 1))
  {
    assert DependencyMap(complexCount, flips[i], 0) == map[];
    assert resources[ResourceName(i)] ==
      Resource(ResourceName(i), Complex, DependencyMap(complexCount, flips[i], j));
    DependencyMapNext(complexCount, flips[i], j);
  }

  /** The flip `flips[i][j]` leaves every resource other than complex resource `i` as it was. */
  lemma LinkedNextOther(resources: map<string, Resource>, complexCount: nat, atomicCount: nat,
                        flips: seq<seq<bool>>, i: nat, j: nat, next: map<string, Resource>, m: nat)
    requires |flips| == complexCount
    requires forall r :: 0 <= r < complexCount ==> |flips[r]| == atomicCount
    requires i < complexCount && j < atomicCount
    requires Linked(resources, complexCount, atomicCount, flips, i, j)
    requires var parent, child := ResourceName(i), ResourceName(complexCount + j);
      next == if flips[i][j]
              then resources[parent := resources[parent].(dependencies := resources[parent].dependencies[child := child])]
              else resources
    requires m < complexCount + atomicCount && m != i
    ensures next[ResourceName(m)] ==
      Resource(ResourceName(m), KindOf(complexCount, m),
               DependenciesSoFar(complexCount, atomicCount, flips, i, j + 1, m))
  {
    if ResourceName(m) == ResourceName(i) { ResourceNameInjective(m, i); }
    assert next[ResourceName(m)] == resources[ResourceName(m)];
  }

  /** Finishing row `i` is the same state as starting row `i + 1`. */
  lemma LinkedRowDone(resources: map<string, Resource>, complexCount: nat, atomicCount: nat,
                      flips: seq<seq<bool>>, i: nat)
    requires |flips| == complexCount
    requires forall r :: 0 <= r < complexCount ==> |flips[r]| == atomicCount
    requires i < complexCount
    requires Linked(resources, complexCount, atomicCount, flips, i, atomicCount)
    ensures Linked(resources, complexCount, atomicCount, flips, i + 1, 0)
  {
    assert DependencyMap(complexCount, flips[i], 0) == map[];
    forall m | 0 <= m < complexCount + atomicCount
      ensures DependenciesSoFar(complexCount, atomicCount, flips, i, atomicCount, m) ==
              DependenciesSoFar(complexCount, atomicCount, flips, i + 1, 0, m)
    {
    }
  }

  /** Builds the catalog: `complexCount` complex resources, then `atomicCount` atomic ones,
      all numbered by one counter; `flips[i][j]` is the coin flip that decides whether
      complex resource `i` depends on atomic resource `complexCount + j`. */
  method InitResources(complexCount: nat, atomicCount: nat, flips: seq<seq<bool>>)
    returns (resources: map<string, Resource>)
    requires |flips| == complexCount
    requires forall i :: 0 <= i < complexCount ==> |flips[i]| == atomicCount
    ensures resources.Keys == ResourceIds(complexCount + atomicCount)
    ensures |resources| == complexCount + atomicCount
    ensures forall i :: 0 <= i < complexCount + atomicCount ==>
      resources[ResourceName(i)].id == ResourceName(i) &&
      (resources[ResourceName(i)].kind == Complex <==> i < complexCount)
    ensures forall i :: complexCount <= i < complexCount + atomicCount ==>
      resources[ResourceName(i)].dependencies == map[]
    ensures forall i, j :: 0 <= i < complexCount && 0 <= j < atomicCount ==>
      (ResourceName(complexCount + j) in resources[ResourceName(i)].dependencies <==> flips[i][j])
    ensures forall r, d :: r in resources && d in resources[r].dependencies ==>
      resources[r].dependencies[d] == d && resources[r].kind == Complex &&
      d in resources && resources[d].kind == Atomic
  {
    resources := NumberResources(complexCount, atomicCount);
    NumberedLinked(resources, complexCount, atomicCount, flips);

    resources := LinkAll(resources, complexCount, atomicCount, flips);

    CatalogKinds(complexCount, atomicCount, flips, resources);
    CatalogFlips(complexCount, atomicCount, flips, resources);
    CatalogEdges(complexCount, atomicCount, flips, resources);
  }

  /** Creates `complexCount` complex resources and then `atomicCount` atomic ones, all
      without dependencies, numbered by one counter. */
  method NumberResources(complexCount: nat, atomicCount: nat) returns (resources: map<string, Resource>)
    ensures Numbered(resources, complexCount, complexCount + atomicCount)
  {
    resources := map[];
    var counter := 0;

    // complex resources first
    for i := 0 to complexCount
      invariant counter == i
      invariant Numbered(resources, complexCount, counter)
    {
      NumberedNext(resources, complexCount, counter);
      resources := resources[ResourceName(counter) := Resource(ResourceName(counter), Complex, map[])];
      counter := counter + 1;
    }

    // then atomic resources, continuing the same counter
    for i := 0 to atomicCount
      invariant counter == complexCount + i
      invariant Numbered(resources, complexCount, counter)
    {
      NumberedNext(resources, complexCount, counter);
      resources := resources[ResourceName(counter) := Resource(ResourceName(counter), Atomic, map[])];
      counter := counter + 1;
    }

  }

  /** Flips one coin per (complex, atomic) pair, row by row, linking the pairs that come up true. */
  method LinkAll(resources: map<string, Resource>, complexCount: nat, atomicCount: nat,
                 flips: seq<seq<bool>>) returns (linked: map<string, Resource>)
    requires |flips| == complexCount
    requires forall r :: 0 <= r < complexCount ==> |flips[r]| == atomicCount
    requires Linked(resources, complexCount, atomicCount, flips, 0, 0)
    ensures Linked(linked, complexCount, atomicCount, flips, complexCount, 0)
  {
    linked := resources;
    for i := 0 to complexCount
      invariant Linked(linked, complexCount, atomicCount, flips, i, 0)
    {
      linked := LinkRow(linked, complexCount, atomicCount, flips, i);
    }
  }

  /** The numbered catalog is the linking state before any flip. */
  lemma NumberedLinked(resources: map<string, Resource>, complexCount: nat, atomicCount: nat,
                       flips: seq<seq<bool>>)
    requires |flips| == complexCount
    requires forall r :: 0 <= r < complexCount ==> |flips[r]| == atomicCount
    requires Numbered(resources, complexCount, complexCount + atomicCount)
    ensures Linked(resources, complexCount, atomicCount, flips, 0, 0)
  {
  }

  /** The coin flips of complex resource `i`: each flip that comes up true adds the
      corresponding atomic resource to its dependencies. */
  method LinkRow(resources: map<string, Resource>, complexCount: nat, atomicCount: nat,
                 flips: seq<seq<bool>>, i: nat) returns (linked: map<string, Resource>)
    requires |flips| == complexCount
    requires forall r :: 0 <= r < complexCount ==> |flips[r]| == atomicCount
    requires i < complexCount
    requires Linked(resources, complexCount, atomicCount, flips, i, 0)
    ensures Linked(linked, complexCount, atomicCount, flips, i + 1, 0)
  {
    linked := resources;
    for j := 0 to atomicCount
      invariant Linked(linked, complexCount, atomicCount, flips, i, j)
    {
      ghost var before := linked;
      var parent, child := ResourceName(i), ResourceName(complexCount + j);
      if flips[i][j] {
        linked := linked[parent := linked[parent].(dependencies := linked[parent].dependencies[child := child])];
      }
      LinkedNext(before, complexCount, atomicCount, flips, i, j, linked);
    }
    LinkedRowDone(linked, complexCount, atomicCount, flips, i);
  }

  /** The finished catalog has `complexCount + atomicCount` entries, each under its own id;
      the first `complexCount` are complex, the rest atomic and without dependencies. */
  lemma CatalogKinds(complexCount: nat, atomicCount: nat, flips: seq<seq<bool>>, resources: map<string, Resource>)
    requires |flips| == complexCount
    requires forall i :: 0 <= i < complexCount ==> |flips[i]| == atomicCount
    requires Linked(resources, complexCount, atomicCount, flips, complexCount, 0)
    ensures |resources| == complexCount + atomicCount
    ensures forall i :: 0 <= i < complexCount + atomicCount ==>
      resources[ResourceName(i)].id == ResourceName(i) &&
      (resources[ResourceName(i)].kind == Complex <==> i < complexCount)
    ensures forall i :: complexCount <= i < complexCount + atomicCount ==>
      resources[ResourceName(i)].dependencies == map[]
  {
    ResourceIdsCount(complexCount + atomicCount);
    assert |resources| == |resources.Keys|;
  }

  /** In the finished catalog, complex resource `i` depends on atomic resource
      `complexCount + j` exactly when flip `flips[i][j]` came up true. */
  lemma CatalogFlips(complexCount: nat, atomicCount: nat, flips: seq<seq<bool>>, resources: map<string, Resource>)
    requires |flips| == complexCount
    requires forall i :: 0 <= i < complexCount ==> |flips[i]| == atomicCount
    requires Linked(resources, complexCount, atomicCount, flips, complexCount, 0)
    ensures forall i, j :: 0 <= i < complexCount && 0 <= j < atomicCount ==>
      (ResourceName(complexCount + j) in resources[ResourceName(i)].dependencies <==> flips[i][j])
  {
    forall i, j | 0 <= i < complexCount && 0 <= j < atomicCount
      ensures ResourceName(complexCount + j) in resources[ResourceName(i)].dependencies <==> flips[i][j]
    {
      DependencyIdsMember(complexCount, flips[i], j);
    }
  }

  /** In the finished catalog every dependency edge goes from a complex resource to an atomic
      resource of the catalog, and each dependency id maps to itself. */
  lemma CatalogEdges(complexCount: nat, atomicCount: nat, flips: seq<seq<bool>>, resources: map<string, Resource>)
    requires |flips| == complexCount
    requires forall i :: 0 <= i < complexCount ==> |flips[i]| == atomicCount
    requires Linked(resources, complexCount, atomicCount, flips, complexCount, 0)
    ensures forall r, d :: r in resources && d in resources[r].dependencies ==>
      resources[r].dependencies[d] == d && resources[r].kind == Complex &&
      d in resources && resources[d].kind == Atomic
  {
    var total := complexCount + atomicCount;
    forall r, d | r in resources && d in resources[r].dependencies
      ensures resources[r].dependencies[d] == d && resources[r].kind == Complex &&
        d in resources && resources[d].kind == Atomic
    {
      var m :| 0 <= m < total && r == ResourceName(m);
      var j :| 0 <= j < atomicCount && flips[m][j] && d == ResourceName(complexCount + j);
    }
  }
}
