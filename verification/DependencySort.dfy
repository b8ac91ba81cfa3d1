// sort_depends() and resolve_depends(): a recursive discovery of the dependency
// graph, and a topological sort of it by priority.
module DependencySort {
  import opened Tokens

  type Item = Str

  /** The dependency lists, by item: what its variables hold. Finitely many are not empty. */
  type Graph = map<Item, seq<Item>>

  function Deps(g: Graph, x: Item): seq<Item> { if x in g then g[x] else [] }

  // ----- walks in the graph -----------------------------------------------------------

  /** A walk along dependencies. */
  predicate Walk(g: Graph, w: seq<Item>) {
    |w| > 0 && forall i | 0 <= i < |w| - 1 :: w[i + 1] in Deps(g, w[i])
  }

  ghost predicate Reaches(g: Graph, x: Item, y: Item) {
    exists w :: Walk(g, w) && w[0] == x && w[|w| - 1] == y
  }

  /** Something in `from` reaches `x`. */
  ghost predicate Reachable(g: Graph, from: seq<Item>, x: Item) {
    exists y | y in from :: Reaches(g, y, x)
  }

  /** A walk that comes back to where it has been. */
  ghost predicate Loops(g: Graph, x: Item, w: seq<Item>, i: nat, j: nat) {
    Walk(g, w) && w[0] == x && i < j < |w| && w[i] == w[j]
  }

  ghost predicate ReachesCycle(g: Graph, x: Item) {
    exists w, i: nat, j: nat :: Loops(g, x, w, i, j)
  }

  lemma {:induction false} ReachesSelf(g: Graph, x: Item)
    ensures Reaches(g, x, x)
  {
    assert Walk(g, [x]) && [x][0] == x;
  }

  lemma {:induction false} ReachesThrough(g: Graph, x: Item, y: Item, z: Item)
    requires y in Deps(g, x) && Reaches(g, y, z)
    ensures Reaches(g, x, z)
  {
    var w :| Walk(g, w) && w[0] == y && w[|w| - 1] == z;
    var v := [x] + w;
    assert Walk(g, v) && v[0] == x && v[|v| - 1] == z;
  }

  /** A set closed under dependencies holds every walk that starts in it. */
  lemma {:induction false} ClosedHolds(g: Graph, k: set<Item>, w: seq<Item>)
    requires forall x | x in k :: SetOf(Deps(g, x)) <= k
    requires Walk(g, w) && w[0] in k
    ensures w[|w| - 1] in k
    decreases |w|
  {
    if |w| > 1 {
      assert w[1] in Deps(g, w[0]) && w[1] in SetOf(Deps(g, w[0]));
      ClosedHolds(g, k, w[1..]);
    }
  }

  // ----- the set of items that are ready, by priority -------------------------------------

  /** A QMultiMap of items by priority; of items with the same priority the newest comes first. */
  type Ready = seq<(int, Item)>

  function Insert(r: Ready, p: int, x: Item): Ready {
    if r == [] || r[0].0 >= p then [(p, x)] + r else [r[0]] + Insert(r[1..], p, x)
  }

  function Items(r: Ready): seq<Item> { if r == [] then [] else [r[0].1] + Items(r[1..]) }

  predicate ByPriority(r: Ready, priority: Item -> int) {
    && (forall i | 0 <= i < |r| :: r[i].0 == priority(r[i].1))
    && (forall i, j | 0 <= i < j < |r| :: r[i].0 <= r[j].0)
  }

  lemma {:induction false} InsertItems(r: Ready, p: int, x: Item)
    ensures multiset(Items(Insert(r, p, x))) == multiset(Items(r)) + multiset{x}
  {
    if r == [] || r[0].0 >= p {
      assert ([(p, x)] + r)[1..] == r;
    } else {
      InsertItems(r[1..], p, x);
      var t := Insert(r[1..], p, x);
      assert ([r[0]] + t)[1..] == t;
    }
  }

  lemma {:induction false} InsertMembers(r: Ready, p: int, x: Item)
    ensures forall e | e in Insert(r, p, x) :: e in r || e == (p, x)
  {
    if r != [] && r[0].0 < p {
      InsertMembers(r[1..], p, x);
    }
  }

  lemma {:induction false} InsertSorted(r: Ready, x: Item, priority: Item -> int)
    requires ByPriority(r, priority)
    ensures ByPriority(Insert(r, priority(x), x), priority)
  {
    var r1 := Insert(r, priority(x), x);
    if r != [] && r[0].0 < priority(x) {
      InsertSorted(r[1..], x, priority);
      InsertMembers(r[1..], priority(x), x);
      var t := Insert(r[1..], priority(x), x);
      assert r1 == [r[0]] + t;
      forall j | 0 < j < |r1| ensures r1[0].0 <= r1[j].0 {
        assert r1[j] == t[j - 1] && t[j - 1] in t;
      }
    }
  }

  // ----- discovery ---------------------------------------------------------------------------

  /** The lists of dependees hold each known item once for each time it names `x`, and `item` once for each time
      `x` is among the first dependencies `done` of it. */
  ghost predicate DependeesOf(g: Graph, known: set<Item>, dependees: Graph, item: Item, done: seq<Item>) {
    forall x, i :: DependeeCount(g, known, dependees, item, done, x, i)
  }

  predicate DependeeCount(g: Graph, known: set<Item>, dependees: Graph, item: Item, done: seq<Item>, x: Item, i: Item) {
    Count(dependees, x, i) == (if i in known then Count(g, i, x) else 0) + (if i == item then multiset(done)[x] else 0)
  }

  /** How often `y` is in the list of `x`. */
  function Count(g: Graph, x: Item, y: Item): nat { multiset(Deps(g, x))[y] }

  lemma {:induction false} NothingDone(g: Graph, known: set<Item>, dependees: Graph, a: Item, b: Item)
    requires DependeesOf(g, known, dependees, a, [])
    ensures DependeesOf(g, known, dependees, b, [])
  {
    forall x, i ensures DependeeCount(g, known, dependees, b, [], x, i) {
      assert DependeeCount(g, known, dependees, a, [], x, i);
    }
  }

  lemma {:induction false} AddDependee(g: Graph, known: set<Item>, dependees: Graph, item: Item, done: seq<Item>,
                                       dep: Item)
    requires DependeesOf(g, known, dependees, item, done)
    ensures DependeesOf(g, known, dependees[dep := Deps(dependees, dep) + [item]], item, done + [dep])
  {
    var after := dependees[dep := Deps(dependees, dep) + [item]];
    forall x, i ensures DependeeCount(g, known, after, item, done + [dep], x, i) {
      assert DependeeCount(g, known, dependees, item, done, x, i);
      assert multiset(done + [dep]) == multiset(done) + multiset{dep};
      assert multiset(Deps(dependees, dep) + [item]) == multiset(Deps(dependees, dep)) + multiset{item};
    }
  }

  lemma {:induction false} AllDependees(g: Graph, known: set<Item>, dependees: Graph, item: Item)
    requires DependeesOf(g, known, dependees, item, Deps(g, item)) && item !in known
    ensures DependeesOf(g, known + {item}, dependees, [], [])
  {
    forall x, i ensures DependeeCount(g, known + {item}, dependees, [], [], x, i) {
      assert DependeeCount(g, known, dependees, item, Deps(g, item), x, i);
    }
  }

  /** The tables are filled for the items in `dependencies`. */
  ghost predicate Discovered(g: Graph, priority: Item -> int, dependencies: map<Item, set<Item>>, dependees: Graph,
                             rootSet: Ready) {
    && (forall k | k in dependencies :: dependencies[k] == SetOf(Deps(g, k)))
    && DependeesOf(g, dependencies.Keys, dependees, [], [])
    && ByPriority(rootSet, priority)
    && (forall x :: multiset(Items(rootSet))[x] == if x in dependencies && Deps(g, x) == [] then 1 else 0)
  }

  /** The items known now but not `before`: reachable, and so are the ones they depend on. */
  ghost predicate Explored(g: Graph, deps: seq<Item>, before: set<Item>, now: set<Item>) {
    forall k | k in now && k !in before :: SetOf(Deps(g, k)) <= now && Reachable(g, deps, k)
  }

  lemma {:induction false} ExploreItem(g: Graph, deps: seq<Item>, item: Item, before: set<Item>, mid: set<Item>,
                                       now: set<Item>)
    requires Explored(g, deps, before, mid) && item in deps
    requires Explored(g, Deps(g, item), mid + {item}, now) && mid + {item} + SetOf(Deps(g, item)) <= now
    ensures Explored(g, deps, before, now)
  {
    ReachesSelf(g, item);
    forall k | k in now && k !in before ensures SetOf(Deps(g, k)) <= now && Reachable(g, deps, k) {
      if k !in mid && k != item {
        Through(g, deps, item, k);
      }
    }
  }

  lemma {:induction false} SetOfNext(l: seq<Item>, n: nat)
    requires n < |l|
    ensures l[..n + 1] == l[..n] + [l[n]] && SetOf(l[..n + 1]) == SetOf(l[..n]) + {l[n]}
  {
  }

  lemma {:induction false} Known(g: Graph, priority: Item -> int, dependencies: map<Item, set<Item>>,
                                 dependees: Graph, rootSet: Ready, item: Item)
    requires Discovered(g, priority, dependencies, dependees, rootSet)
    ensures DependeesOf(g, dependencies.Keys, dependees, item, [])
  {
    NothingDone(g, dependencies.Keys, dependees, [], item);
  }

  lemma {:induction false} ItemAdded(g: Graph, priority: Item -> int, item: Item, was: map<Item, set<Item>>,
                                     dependees0: Graph, dependees: Graph, rootSet: Ready)
    requires Discovered(g, priority, was, dependees0, rootSet) && item !in was && Deps(g, item) != []
    requires DependeesOf(g, was.Keys, dependees, item, Deps(g, item))
    ensures var now := was[item := SetOf(Deps(g, item))];
            Discovered(g, priority, now, dependees, rootSet) && now.Keys == was.Keys + {item}
  {
    AllDependees(g, was.Keys, dependees, item);
    var now := was[item := SetOf(Deps(g, item))];
    assert now.Keys == was.Keys + {item};
    hide DependeesOf, Items, ByPriority;
  }

  lemma {:induction false} RootAdded(g: Graph, priority: Item -> int, item: Item, was: map<Item, set<Item>>,
                                     dependees: Graph, rootSet: Ready)
    requires Discovered(g, priority, was, dependees, rootSet) && item !in was && Deps(g, item) == []
    ensures var now := was[item := {}];
            Discovered(g, priority, now, dependees, Insert(rootSet, priority(item), item)) && now.Keys == was.Keys + {item}
  {
    hide DependeesOf, Items, ByPriority, Insert;
    InsertItems(rootSet, priority(item), item);
    InsertSorted(rootSet, item, priority);
    Known(g, priority, was, dependees, rootSet, item);
    AllDependees(g, was.Keys, dependees, item);
    var now := was[item := {}];
    assert now.Keys == was.Keys + {item};
  }

  lemma {:induction false} CardinalityLess<T>(a: set<T>, b: set<T>, x: T)
    requires a <= b && x in b && x !in a
    ensures |a| < |b|
  {
    assert |b - a| + |a| == |b| by {
      assert a + (b - a) == b;
    }
  }

  lemma {:induction false} Through(g: Graph, deps: seq<Item>, item: Item, k: Item)
    requires item in deps && Reachable(g, Deps(g, item), k)
    ensures Reachable(g, deps, k)
  {
    var y :| y in Deps(g, item) && Reaches(g, y, k);
    ReachesThrough(g, item, y, k);
  }

  // ----- taking off what is emitted -------------------------------------------------------------

  function TakeOff(priority: Item -> int, d: map<Item, set<Item>>, r: Ready, item: Item,
                   dep: Item): (map<Item, set<Item>>, Ready)
    requires dep in d
  {
    var d1 := d[dep := d[dep] - {item}];
    (d1, if d1[dep] == {} then Insert(r, priority(dep), dep) else r)
  }

  function ReleaseAll(priority: Item -> int, d: map<Item, set<Item>>, r: Ready, item: Item,
                      list: seq<Item>): (map<Item, set<Item>>, Ready)
    requires forall x | x in list :: x in d
    decreases list
  {
    if list == [] then (d, r)
    else
      var t := TakeOff(priority, d, r, item, list[0]);
      ReleaseAll(priority, t.0, t.1, item, list[1..])
  }

  /** A dependee whose last dependency is taken off gets ready once for each time it is listed. */
  lemma {:induction false} ReadyOncePerNaming(priority: Item -> int, d: map<Item, set<Item>>, r: Ready, item: Item,
                                              list: seq<Item>, x: Item)
    requires forall y | y in list :: y in d
    ensures multiset(Items(ReleaseAll(priority, d, r, item, list).1))[x] ==
            multiset(Items(r))[x] + if x in list && d[x] - {item} == {} then multiset(list)[x] else 0
    decreases list
  {
    if list != [] {
      var t := TakeOff(priority, d, r, item, list[0]);
      ReadyOncePerNaming(priority, t.0, t.1, item, list[1..], x);
      TakenOff(priority, d, r, item, list[0], x);
      ListedFirst(list, x);
      hide Items, Insert, TakeOff;
    }
  }

  lemma {:induction false} TakenOff(priority: Item -> int, d: map<Item, set<Item>>, r: Ready, item: Item, dep: Item,
                                    x: Item)
    requires dep in d
    ensures var t := TakeOff(priority, d, r, item, dep);
            && t.0.Keys == d.Keys && (x in d ==> t.0[x] - {item} == d[x] - {item})
            && multiset(Items(t.1))[x] == multiset(Items(r))[x] + if x == dep && d[x] - {item} == {} then 1 else 0
  {
    InsertItems(r, priority(dep), dep);
    hide Items, Insert;
  }

  lemma {:induction false} ListedFirst(list: seq<Item>, x: Item)
    requires list != []
    ensures multiset(list)[x] == multiset(list[1..])[x] + if x == list[0] then 1 else 0
    ensures x in list <==> multiset(list)[x] > 0
    ensures x in list[1..] <==> multiset(list[1..])[x] > 0
  {
    assert list == [list[0]] + list[1..];
  }

  /** What is taken off, and the order of the root set. */
  lemma {:induction false} ReleasedTables(priority: Item -> int, d: map<Item, set<Item>>, r: Ready, item: Item,
                                          list: seq<Item>)
    requires (forall x | x in list :: x in d) && ByPriority(r, priority)
    ensures var t := ReleaseAll(priority, d, r, item, list);
            && t.0.Keys == d.Keys && ByPriority(t.1, priority)
            && forall x | x in d :: t.0[x] == if x in list then d[x] - {item} else d[x]
    decreases list
  {
    if list != [] {
      var t := TakeOff(priority, d, r, item, list[0]);
      InsertSorted(r, list[0], priority);
      ReleasedTables(priority, t.0, t.1, item, list[1..]);
      hide Insert, ByPriority;
      forall x | x in d ensures ReleaseAll(priority, d, r, item, list).0[x] == if x in list then d[x] - {item} else d[x] {
        assert x in list <==> x == list[0] || x in list[1..];
        assert d[x] - {item} - {item} == d[x] - {item};
      }
    }
  }

  // ----- sorting -------------------------------------------------------------------------------

  /** What `x` still waits for. */
  function Pending(g: Graph, emitted: seq<Item>, x: Item): set<Item> { SetOf(Deps(g, x)) - SetOf(emitted) }

  /** How often `x` has got ready: once if it depends on nothing; otherwise, with each item emitted since all its
      dependencies have been, as often as it names that item. */
  function Times(g: Graph, emitted: seq<Item>, x: Item): nat {
    if emitted == [] then (if Deps(g, x) == [] then 1 else 0)
    else
      Times(g, emitted[..|emitted| - 1], x)
      + if Pending(g, emitted, x) == {} then Count(g, x, emitted[|emitted| - 1]) else 0
  }

  /** Everything emitted or ready is there as often as it got ready. */
  predicate Counted(g: Graph, known: set<Item>, rootSet: Ready, emitted: seq<Item>, x: Item) {
    multiset(emitted)[x] + multiset(Items(rootSet))[x] == if x in known then Times(g, emitted, x) else 0
  }

  ghost predicate Sorting(g: Graph, priority: Item -> int, known: set<Item>, dependencies: map<Item, set<Item>>,
                          dependees: Graph,
                          rootSet: Ready, emitted: seq<Item>) {
    && dependencies.Keys == known && DependeesOf(g, known, dependees, [], []) && ByPriority(rootSet, priority)
    && (forall x | x in known :: dependencies[x] == Pending(g, emitted, x))
    && (forall x :: Counted(g, known, rootSet, emitted, x))
  }

  /** What has been ready at all is what waits for nothing. */
  lemma {:induction false} ReadyAtAll(g: Graph, emitted: seq<Item>, x: Item)
    ensures Times(g, emitted, x) > 0 <==> Pending(g, emitted, x) == {}
  {
    if emitted == [] {
      assert Deps(g, x) != [] ==> Deps(g, x)[0] in Pending(g, [], x);
    } else {
      var n := |emitted| - 1;
      var y := emitted[n];
      assert emitted == emitted[..n] + [y];
      ReadyAtAll(g, emitted[..n], x);
      assert Pending(g, emitted, x) == Pending(g, emitted[..n], x) - {y};
      assert y in Deps(g, x) <==> y in multiset(Deps(g, x));
      assert y in Pending(g, emitted[..n], x) ==> y in Deps(g, x);
    }
  }

  lemma {:induction false} Dependees(g: Graph, known: set<Item>, dependees: Graph, item: Item, x: Item)
    requires DependeesOf(g, known, dependees, [], [])
    ensures multiset(Deps(dependees, item))[x] == if x in known then Count(g, x, item) else 0
    ensures x in Deps(dependees, item) <==> x in known && item in Deps(g, x)
  {
    assert DependeeCount(g, known, dependees, [], [], item, x);
    assert x in Deps(dependees, item) <==> x in multiset(Deps(dependees, item));
    assert item in Deps(g, x) <==> item in multiset(Deps(g, x));
  }

  lemma {:induction false} CountedNext(g: Graph, priority: Item -> int, known: set<Item>,
                                       dependencies: map<Item, set<Item>>, dependees: Graph,
                                       rootSet: Ready, emitted: seq<Item>, x: Item)
    requires rootSet != [] && dependencies.Keys == known && DependeesOf(g, known, dependees, [], [])
    requires forall y | y in Deps(dependees, rootSet[0].1) :: y in known
    requires (x in known ==> dependencies[x] == Pending(g, emitted, x)) && Counted(g, known, rootSet, emitted, x)
    ensures var item := rootSet[0].1;
            var t := ReleaseAll(priority, dependencies, rootSet[1..], item, Deps(dependees, item));
            Counted(g, known, t.1, emitted + [item], x)
  {
    var item := rootSet[0].1;
    var e, list := emitted + [item], Deps(dependees, item);
    Dependees(g, known, dependees, item, x);
    OneMoved(rootSet, emitted, x);
    TimesNext(g, emitted, item, x);
    hide DependeesOf, Pending, Items, Times, Deps, ReleaseAll, Count;
    ReadyOncePerNaming(priority, dependencies, rootSet[1..], item, list, x);
  }

  lemma {:induction false} OneMoved(rootSet: Ready, emitted: seq<Item>, x: Item)
    requires rootSet != []
    ensures multiset(emitted)[x] + multiset(Items(rootSet))[x] ==
            multiset(emitted + [rootSet[0].1])[x] + multiset(Items(rootSet[1..]))[x]
  {
    assert Items(rootSet) == [rootSet[0].1] + Items(rootSet[1..]);
  }

  lemma {:induction false} TimesNext(g: Graph, emitted: seq<Item>, item: Item, x: Item)
    ensures Pending(g, emitted + [item], x) == Pending(g, emitted, x) - {item}
    ensures Times(g, emitted + [item], x) ==
            Times(g, emitted, x) + if Pending(g, emitted, x) - {item} == {} then Count(g, x, item) else 0
  {
    assert (emitted + [item])[..|emitted|] == emitted;
  }

  /** Emitting the first item of the root set and taking it off its dependees keeps the tables as they should be. */
  lemma {:induction false} SortingNext(g: Graph, priority: Item -> int, known: set<Item>,
                                       dependencies: map<Item, set<Item>>, dependees: Graph,
                                       rootSet: Ready, emitted: seq<Item>)
    requires Sorting(g, priority, known, dependencies, dependees, rootSet, emitted) && rootSet != []
    ensures forall x | x in Deps(dependees, rootSet[0].1) :: x in dependencies
    ensures var item := rootSet[0].1;
            var t := ReleaseAll(priority, dependencies, rootSet[1..], item, Deps(dependees, item));
            Sorting(g, priority, known, t.0, dependees, t.1, emitted + [item])
  {
    var item := rootSet[0].1;
    var e, list := emitted + [item], Deps(dependees, item);
    assert ByPriority(rootSet[1..], priority);
    hide DependeesOf, ByPriority, Counted, Deps;
    forall x ensures x in list <==> x in known && item in Deps(g, x) { Dependees(g, known, dependees, item, x); }
    ReleasedTables(priority, dependencies, rootSet[1..], item, list);
    var t := ReleaseAll(priority, dependencies, rootSet[1..], item, list);
    forall x ensures Counted(g, known, t.1, e, x) {
      CountedNext(g, priority, known, dependencies, dependees, rootSet, emitted, x);
    }
    forall x | x in known ensures t.0[x] == Pending(g, e, x) {
      assert dependencies[x] == Pending(g, emitted, x);
      assert Pending(g, e, x) == Pending(g, emitted, x) - {item};
      assert item !in Deps(g, x) ==> item !in Pending(g, emitted, x);
    }
  }

  // ----- emission order -------------------------------------------------------------------------

  /** Everything emitted depends on things emitted before it only. */
  ghost predicate Grounded(g: Graph, known: set<Item>, emitted: seq<Item>) {
    && SetOf(emitted) <= known
    && (forall i | 0 <= i < |emitted| :: SetOf(Deps(g, emitted[i])) <= SetOf(emitted[..i]))
  }

  /** Of the items that were ready for the first time, none had a lower priority than the one emitted. */
  ghost predicate Choosy(g: Graph, priority: Item -> int, known: set<Item>, emitted: seq<Item>) {
    forall i, y | 0 <= i < |emitted| && WasReady(g, known, emitted[..i], y) :: priority(emitted[i]) <= priority(y)
  }

  predicate WasReady(g: Graph, known: set<Item>, emitted: seq<Item>, y: Item) {
    y in known && y !in emitted && SetOf(Deps(g, y)) <= SetOf(emitted)
  }

  /** The known items are the given ones and what they reach. */
  ghost predicate Closed(g: Graph, orgList: seq<Item>, known: set<Item>) {
    && SetOf(orgList) <= known
    && (forall k | k in known :: SetOf(Deps(g, k)) <= known && Reachable(g, orgList, k))
  }

  /** What sort_depends() returns: the emitted items in reverse, if they are wanted. */
  function Picked(emitted: seq<Item>, orgList: seq<Item>, resolve: bool): seq<Item> {
    if emitted == [] then []
    else
      var x := emitted[|emitted| - 1];
      (if resolve || x in orgList then [x] else []) + Picked(emitted[..|emitted| - 1], orgList, resolve)
  }

  /** Behind every item stands whatever is listed at all of the things it depends on, directly or not. */
  ghost predicate Ordered(g: Graph, ret: seq<Item>) {
    forall i, y | 0 <= i < |ret| && y in ret && y != ret[i] && Reaches(g, ret[i], y) :: y in ret[i + 1..]
  }

  /** An item that could have stood behind `ret[j]`, for all it depends on, and does not, has no lower priority. */
  ghost predicate Greedy(g: Graph, priority: Item -> int, ret: seq<Item>) {
    forall i, j | 0 <= i < j < |ret| && ret[i] !in ret[j + 1..] && SetOf(Deps(g, ret[i])) <= SetOf(ret[j + 1..]) ::
      priority(ret[j]) <= priority(ret[i])
  }

  lemma {:induction false} SortingStarts(g: Graph, priority: Item -> int, dependencies: map<Item, set<Item>>,
                                         dependees: Graph, rootSet: Ready)
    requires Discovered(g, priority, dependencies, dependees, rootSet)
    ensures Sorting(g, priority, dependencies.Keys, dependencies, dependees, rootSet, [])
    ensures Grounded(g, dependencies.Keys, []) && Choosy(g, priority, dependencies.Keys, [])
  {
    hide DependeesOf, ByPriority, Items;
    var known := dependencies.Keys;
    forall x ensures Counted(g, known, rootSet, [], x) {
    }
  }

  /** The first item of the root set waits for nothing. */
  lemma {:induction false} FirstPending(g: Graph, priority: Item -> int, known: set<Item>,
                                        dependencies: map<Item, set<Item>>, dependees: Graph,
                                        rootSet: Ready, emitted: seq<Item>)
    requires Sorting(g, priority, known, dependencies, dependees, rootSet, emitted) && rootSet != []
    ensures var item := rootSet[0].1; item in known && SetOf(Deps(g, item)) <= SetOf(emitted)
  {
    hide DependeesOf, ByPriority;
    var item := rootSet[0].1;
    assert Items(rootSet) == [item] + Items(rootSet[1..]);
    hide Items, Times;
    assert Counted(g, known, rootSet, emitted, item);
    ReadyAtAll(g, emitted, item);
    assert forall x | x in SetOf(Deps(g, item)) :: x in SetOf(emitted) || x in Pending(g, emitted, item);
  }

  /** The first item of the root set can be emitted. */
  lemma {:induction false} Emit(g: Graph, priority: Item -> int, known: set<Item>, dependencies: map<Item, set<Item>>,
                                dependees: Graph,
                                rootSet: Ready, emitted: seq<Item>)
    requires Sorting(g, priority, known, dependencies, dependees, rootSet, emitted) && rootSet != []
    requires Grounded(g, known, emitted) && Choosy(g, priority, known, emitted)
    ensures var item := rootSet[0].1;
            Grounded(g, known, emitted + [item]) && Choosy(g, priority, known, emitted + [item])
  {
    hide *;
    FirstPending(g, priority, known, dependencies, dependees, rootSet, emitted);
    GroundedNext(g, known, emitted, rootSet[0].1);
    ChoosyNext(g, priority, known, dependencies, dependees, rootSet, emitted);
  }

  lemma {:induction false} GroundedNext(g: Graph, known: set<Item>, emitted: seq<Item>, item: Item)
    requires Grounded(g, known, emitted) && item in known && SetOf(Deps(g, item)) <= SetOf(emitted)
    ensures Grounded(g, known, emitted + [item])
  {
    var e := emitted + [item];
    forall i | 0 <= i < |e| ensures SetOf(Deps(g, e[i])) <= SetOf(e[..i]) {
      assert e[..i] == emitted[..i];
      if i == |emitted| {
        assert emitted[..i] == emitted;
      }
    }
  }

  lemma {:induction false} ChoosyNext(g: Graph, priority: Item -> int, known: set<Item>,
                                      dependencies: map<Item, set<Item>>, dependees: Graph,
                                      rootSet: Ready, emitted: seq<Item>)
    requires Sorting(g, priority, known, dependencies, dependees, rootSet, emitted) && rootSet != []
    requires Choosy(g, priority, known, emitted)
    ensures Choosy(g, priority, known, emitted + [rootSet[0].1])
  {
    hide DependeesOf, Items, Times;
    var e := emitted + [rootSet[0].1];
    forall i, y | 0 <= i < |e| && WasReady(g, known, e[..i], y) ensures priority(e[i]) <= priority(y) {
      assert e[..i] == emitted[..i];
      if i == |emitted| {
        assert e[..i] == emitted;
        StillReady(g, known, rootSet, emitted, y);
        var k := ItemAt(rootSet, y);
      }
    }
  }

  lemma {:induction false} StillReady(g: Graph, known: set<Item>, rootSet: Ready, emitted: seq<Item>, y: Item)
    requires Counted(g, known, rootSet, emitted, y) && WasReady(g, known, emitted, y)
    ensures y in Items(rootSet)
  {
    ReadyAtAll(g, emitted, y);
    assert Pending(g, emitted, y) == {} && y !in multiset(emitted);
    hide Items, Times;
    assert y in multiset(Items(rootSet));
  }

  lemma {:induction false} ItemAt(r: Ready, x: Item) returns (k: nat)
    requires x in Items(r)
    ensures k < |r| && r[k].1 == x
  {
    if r[0].1 == x {
      k := 0;
    } else {
      k := ItemAt(r[1..], x);
      k := k + 1;
    }
  }

  /** Whatever is not emitted waits for something that is not emitted. */
  ghost predicate Stuck(g: Graph, known: set<Item>, emitted: seq<Item>) {
    forall x | x in known && x !in emitted :: exists y :: y in Deps(g, x) && y !in emitted
  }

  /** Every item has been emitted as often as it got ready. */
  ghost predicate Settled(g: Graph, known: set<Item>, emitted: seq<Item>) {
    forall x :: multiset(emitted)[x] == if x in known then Times(g, emitted, x) else 0
  }

  lemma {:induction false} AllEmitted(g: Graph, priority: Item -> int, known: set<Item>,
                                      dependencies: map<Item, set<Item>>, dependees: Graph, emitted: seq<Item>)
    requires Sorting(g, priority, known, dependencies, dependees, [], emitted)
    ensures Stuck(g, known, emitted) && Settled(g, known, emitted)
  {
    hide DependeesOf, Times;
    forall x ensures multiset(emitted)[x] == if x in known then Times(g, emitted, x) else 0 {
      assert Counted(g, known, [], emitted, x);
    }
    forall x | x in known && x !in emitted ensures exists y :: y in Deps(g, x) && y !in emitted {
      assert x !in multiset(emitted);
      ReadyAtAll(g, emitted, x);
      assert Pending(g, emitted, x) != {};
      var y :| y in Pending(g, emitted, x);
    }
  }

  // ----- the loop ends ----------------------------------------------------------------------------

  /** What `x` reaches. */
  ghost function Below(g: Graph, known: set<Item>, x: Item): set<Item> { set z | z in known && Reaches(g, x, z) }

  /** How many dependees, of dependees and so on, can still follow: the steps that a chain of them can have. */
  ghost function Height(g: Graph, known: set<Item>, x: Item): nat
  {
    CardinalitySubset(Below(g, known, x), known);
    |known| - |Below(g, known, x)|
  }

  /** The emissions that emitting `x` can lead to, over at most `n` steps from dependency to dependee. */
  function Paths(dependees: Graph, x: Item, n: nat): nat
    decreases n, 1
  {
    1 + if n == 0 then 0 else PathsAll(dependees, Deps(dependees, x), n - 1)
  }

  function PathsAll(dependees: Graph, list: seq<Item>, n: nat): nat
    decreases n, 2, list
  {
    if list == [] then 0 else Paths(dependees, list[0], n) + PathsAll(dependees, list[1..], n)
  }

  /** The emissions that the root set can still lead to. */
  ghost function Ahead(g: Graph, known: set<Item>, dependees: Graph, r: Ready): nat {
    if r == [] then 0 else Paths(dependees, r[0].1, Height(g, known, r[0].1)) + Ahead(g, known, dependees, r[1..])
  }

  lemma {:induction false} CardinalitySubset<T>(a: set<T>, b: set<T>)
    requires a <= b
    ensures |a| <= |b|
  {
    assert b == a + (b - a);
  }

  lemma {:induction false} MorePaths(dependees: Graph, x: Item, n: nat, m: nat)
    requires n <= m
    ensures Paths(dependees, x, n) <= Paths(dependees, x, m)
    decreases n, 1
  {
    if n > 0 {
      MorePathsAll(dependees, Deps(dependees, x), n - 1, m - 1);
    }
  }

  lemma {:induction false} MorePathsAll(dependees: Graph, list: seq<Item>, n: nat, m: nat)
    requires n <= m
    ensures PathsAll(dependees, list, n) <= PathsAll(dependees, list, m)
    decreases n, 2, list
  {
    if list != [] {
      MorePaths(dependees, list[0], n, m);
      MorePathsAll(dependees, list[1..], n, m);
    }
  }

  lemma {:induction false} AheadInsert(g: Graph, known: set<Item>, dependees: Graph, r: Ready, p: int, x: Item)
    ensures Ahead(g, known, dependees, Insert(r, p, x)) ==
            Ahead(g, known, dependees, r) + Paths(dependees, x, Height(g, known, x))
  {
    hide Paths, Height;
    if r == [] || r[0].0 >= p {
      assert ([(p, x)] + r)[1..] == r;
    } else {
      AheadInsert(g, known, dependees, r[1..], p, x);
      var t := Insert(r[1..], p, x);
      assert ([r[0]] + t)[1..] == t;
    }
  }

  /** A dependee that waits for nothing but `item` stands higher. */
  lemma {:induction false} Higher(g: Graph, known: set<Item>, emitted: seq<Item>, item: Item, x: Item)
    requires Grounded(g, known, emitted + [item]) && SetOf(Deps(g, x)) <= SetOf(emitted + [item])
    requires x in known && item in Deps(g, x)
    ensures Height(g, known, x) < Height(g, known, item)
  {
    var a, b := Below(g, known, item), Below(g, known, x);
    forall z | z in a ensures z in b {
      ReachesThrough(g, x, item, z);
    }
    ReachesSelf(g, x);
    var e := emitted + [item] + [x];
    GroundedNext(g, known, emitted + [item], x);
    if x in a {
      ReachesThrough(g, x, item, x);
      var w :| Walk(g, w) && w[0] == item && w[|w| - 1] == x;
      var v := [x] + w;
      assert Walk(g, v) && Loops(g, x, v, 0, |v| - 1);
      assert e[|e| - 1] == x;
      EmittedReachesNoCycle(g, known, e, x);
    }
    CardinalitySubset(a, known);
    CardinalitySubset(b, known);
    CardinalityLess(a, b, x);
  }

  /** What one release adds to what is ahead. */
  lemma {:induction false} AheadReleased(g: Graph, priority: Item -> int, known: set<Item>, dependees: Graph,
                                         d: map<Item, set<Item>>, r: Ready,
                                         item: Item, list: seq<Item>, n: nat)
    requires forall x | x in list :: x in d
    requires forall x | x in list && d[x] - {item} == {} :: Height(g, known, x) <= n
    ensures Ahead(g, known, dependees, ReleaseAll(priority, d, r, item, list).1) <=
            Ahead(g, known, dependees, r) + PathsAll(dependees, list, n)
    decreases list
  {
    if list != [] {
      var t := TakeOff(priority, d, r, item, list[0]);
      AheadInsert(g, known, dependees, r, priority(list[0]), list[0]);
      if d[list[0]] - {item} == {} {
        MorePaths(dependees, list[0], Height(g, known, list[0]), n);
      }
      hide Ahead, Paths, Height, Insert;
      forall x | x in list[1..] && t.0[x] - {item} == {} ensures Height(g, known, x) <= n {
        assert x in list && t.0[x] - {item} == d[x] - {item};
      }
      AheadReleased(g, priority, known, dependees, t.0, t.1, item, list[1..], n);
    }
  }

  /** Each emission leaves less ahead. */
  lemma {:induction false} LessAhead(g: Graph, priority: Item -> int, known: set<Item>,
                                     dependencies: map<Item, set<Item>>, dependees: Graph,
                                     rootSet: Ready, emitted: seq<Item>)
    requires Sorting(g, priority, known, dependencies, dependees, rootSet, emitted) && rootSet != []
    requires Grounded(g, known, emitted + [rootSet[0].1])
    requires forall x | x in Deps(dependees, rootSet[0].1) :: x in dependencies
    ensures var item := rootSet[0].1;
            Ahead(g, known, dependees, ReleaseAll(priority, dependencies, rootSet[1..], item, Deps(dependees, item)).1) <
            Ahead(g, known, dependees, rootSet)
  {
    var item := rootSet[0].1;
    var list, n := Deps(dependees, item), Height(g, known, item);
    hide *;
    forall x | x in list && dependencies[x] - {item} == {} ensures n > 0 && Height(g, known, x) <= n - 1 {
      ReleasedHigher(g, priority, known, dependencies, dependees, rootSet, emitted, x);
    }
    if n > 0 {
      AheadReleased(g, priority, known, dependees, dependencies, rootSet[1..], item, list, n - 1);
    } else {
      NothingReleased(priority, dependencies, rootSet[1..], item, list);
    }
  }

  lemma {:induction false} ReleasedHigher(g: Graph, priority: Item -> int, known: set<Item>,
                                          dependencies: map<Item, set<Item>>, dependees: Graph,
                                          rootSet: Ready, emitted: seq<Item>, x: Item)
    requires Sorting(g, priority, known, dependencies, dependees, rootSet, emitted) && rootSet != []
    requires Grounded(g, known, emitted + [rootSet[0].1])
    requires x in Deps(dependees, rootSet[0].1) && x in dependencies && dependencies[x] - {rootSet[0].1} == {}
    ensures Height(g, known, x) < Height(g, known, rootSet[0].1)
  {
    hide DependeesOf, Counted, ByPriority, Grounded, Height, Deps;
    var item := rootSet[0].1;
    Dependees(g, known, dependees, item, x);
    assert dependencies[x] == Pending(g, emitted, x);
    forall y | y in SetOf(Deps(g, x)) ensures y in SetOf(emitted + [item]) {
      assert y in SetOf(emitted) || y in Pending(g, emitted, x) - {item} || y == item;
    }
    Higher(g, known, emitted, item, x);
  }

  lemma {:induction false} NothingReleased(priority: Item -> int, d: map<Item, set<Item>>, r: Ready, item: Item,
                                           list: seq<Item>)
    requires forall x | x in list :: x in d && d[x] - {item} != {}
    ensures ReleaseAll(priority, d, r, item, list).1 == r
    decreases list
  {
    if list != [] {
      var t := TakeOff(priority, d, r, item, list[0]);
      forall x | x in list[1..] ensures x in t.0 && t.0[x] - {item} != {} {
        assert x in list && t.0[x] - {item} == d[x] - {item};
      }
      NothingReleased(priority, t.0, t.1, item, list[1..]);
    }
  }

  // ----- cycles -------------------------------------------------------------------------------------

  /** Along a walk from an emitted item, everything was emitted earlier. */
  lemma {:induction false} WalkDown(g: Graph, known: set<Item>, emitted: seq<Item>, w: seq<Item>, p: nat,
                                    k: nat) returns (q: nat)
    requires Grounded(g, known, emitted) && Walk(g, w) && p < |emitted| && w[0] == emitted[p] && k < |w|
    ensures q < |emitted| && w[k] == emitted[q] && q <= p && (k > 0 ==> q < p)
    decreases |w|
  {
    if k == 0 {
      q := p;
    } else {
      assert w[1] in SetOf(Deps(g, w[0]));
      var r :| 0 <= r < p && emitted[..p][r] == w[1];
      q := WalkDown(g, known, emitted, w[1..], r, k - 1);
    }
  }

  lemma {:induction false} EmittedReachesNoCycle(g: Graph, known: set<Item>, emitted: seq<Item>, x: Item)
    requires Grounded(g, known, emitted) && x in emitted
    ensures !ReachesCycle(g, x)
  {
    var p :| 0 <= p < |emitted| && emitted[p] == x;
    forall w, i: nat, j: nat ensures !Loops(g, x, w, i, j) {
      if Loops(g, x, w, i, j) {
        var q := WalkDown(g, known, emitted, w, p, i);
        var f := FirstOf(emitted, q);
        var r := WalkDown(g, known, emitted, w[i..], f, j - i);
      }
    }
  }

  /** The first place of the item at `q`. */
  lemma {:induction false} FirstOf(s: seq<Item>, q: nat) returns (f: nat)
    requires q < |s|
    ensures f <= q && s[f] == s[q] && s[q] !in s[..f]
  {
    f := 0;
    while s[f] != s[q]
      invariant f <= q && s[q] !in s[..f]
      decreases q - f
    {
      f := f + 1;
    }
  }

  ghost predicate GoesOn(g: Graph, u: set<Item>, y: Item) { exists z :: z in Deps(g, y) && z in u }

  lemma {:induction false} Next(g: Graph, u: set<Item>, y: Item) returns (z: Item)
    requires GoesOn(g, u, y)
    ensures z in Deps(g, y) && z in u
  {
    z :| z in Deps(g, y) && z in u;
  }

  lemma {:induction false} ConsWalk(g: Graph, x: Item, v: seq<Item>)
    requires Walk(g, v) && v[0] in Deps(g, x)
    ensures Walk(g, [x] + v) && SetOf([x] + v) == {x} + SetOf(v)
  {
  }

  lemma {:induction false} LongWalk(g: Graph, u: set<Item>, x: Item, n: nat) returns (w: seq<Item>)
    requires x in u && forall y | y in u :: GoesOn(g, u, y)
    ensures Walk(g, w) && |w| == n + 1 && w[0] == x && SetOf(w) <= u
    decreases n
  {
    hide GoesOn;
    if n == 0 {
      w := [x];
    } else {
      var z := Next(g, u, x);
      var v := LongWalk(g, u, z, n - 1);
      w := [x] + v;
      ConsWalk(g, x, v);
    }
  }

  /** A sequence longer than the set it is taken from repeats an element. */
  lemma {:induction false} Pigeonhole(w: seq<Item>, u: set<Item>)
    requires SetOf(w) <= u && NoDup(w)
    ensures |w| <= |u|
  {
    if w != [] {
      var v := w[1..];
      assert SetOf(v) <= u - {w[0]} by {
        forall y | y in v ensures y != w[0] {
          var i :| 0 <= i < |v| && v[i] == y;
          assert w[i + 1] == y;
        }
      }
      Pigeonhole(v, u - {w[0]});
    }
  }

  lemma {:induction false} StuckGoesOn(g: Graph, orgList: seq<Item>, known: set<Item>, emitted: seq<Item>, y: Item)
    requires Stuck(g, known, emitted) && Closed(g, orgList, known) && y in known && y !in emitted
    ensures GoesOn(g, known - SetOf(emitted), y)
  {
    hide Reachable;
    var z :| z in Deps(g, y) && z !in emitted;
    assert z in SetOf(Deps(g, y));
  }

  lemma {:induction false} StuckReachesCycle(g: Graph, orgList: seq<Item>, known: set<Item>, emitted: seq<Item>,
                                             x: Item)
    requires Stuck(g, known, emitted) && Closed(g, orgList, known) && x in known && x !in emitted
    ensures ReachesCycle(g, x)
  {
    var u := known - SetOf(emitted);
    forall y | y in u ensures GoesOn(g, u, y) {
      StuckGoesOn(g, orgList, known, emitted, y);
    }
    hide GoesOn, Closed, Stuck;
    var w := LongWalk(g, u, x, |u|);
    if NoDup(w) {
      Pigeonhole(w, u);
    }
    var i, j :| 0 <= i < j < |w| && w[i] == w[j];
    assert Loops(g, x, w, i, j);
  }

  lemma {:induction false} KnownIsReachable(g: Graph, orgList: seq<Item>, known: set<Item>, x: Item)
    requires Closed(g, orgList, known)
    ensures x in known <==> Reachable(g, orgList, x)
  {
    if Reachable(g, orgList, x) {
      var y :| y in orgList && Reaches(g, y, x);
      var w :| Walk(g, w) && w[0] == y && w[|w| - 1] == x;
      assert y in SetOf(orgList);
      ClosedHolds(g, known, w);
    }
  }

  // ----- the result ------------------------------------------------------------------------------------

  lemma {:induction false} PickedNext(e: seq<Item>, x: Item, orgList: seq<Item>, resolve: bool)
    ensures Picked(e + [x], orgList, resolve) == (if resolve || x in orgList then [x] else []) + Picked(e, orgList, resolve)
  {
    assert (e + [x])[..|e|] == e;
  }

  lemma {:induction false} PickedMembers(e: seq<Item>, orgList: seq<Item>, resolve: bool, x: Item)
    ensures x in Picked(e, orgList, resolve) <==> x in e && (resolve || x in orgList)
  {
    if e != [] {
      assert e == e[..|e| - 1] + [e[|e| - 1]];
      PickedMembers(e[..|e| - 1], orgList, resolve, x);
    }
  }

  lemma {:induction false} PickedCount(e: seq<Item>, orgList: seq<Item>, resolve: bool, x: Item)
    ensures multiset(Picked(e, orgList, resolve))[x] == if resolve || x in orgList then multiset(e)[x] else 0
  {
    if e != [] {
      assert e == e[..|e| - 1] + [e[|e| - 1]];
      PickedCount(e[..|e| - 1], orgList, resolve, x);
    }
  }

  /** What stands behind an item was emitted before it. */
  lemma {:induction false} PickedAt(e: seq<Item>, orgList: seq<Item>, resolve: bool, i: nat) returns (p: nat)
    requires i < |Picked(e, orgList, resolve)|
    ensures p < |e| && e[p] == Picked(e, orgList, resolve)[i]
    ensures Picked(e, orgList, resolve)[i + 1..] == Picked(e[..p], orgList, resolve)
  {
    var n := |e| - 1;
    var ret, t := Picked(e, orgList, resolve), Picked(e[..n], orgList, resolve);
    if !(resolve || e[n] in orgList) {
      assert ret == t;
      p := PickedAt(e[..n], orgList, resolve, i);
      assert e[..n][..p] == e[..p];
    } else if i > 0 {
      p := PickedAt(e[..n], orgList, resolve, i - 1);
      assert e[..n][..p] == e[..p] && ret[i + 1..] == t[i..];
    } else {
      p := n;
      assert ret[1..] == t;
    }
  }

  lemma {:induction false} PickedOrdered(g: Graph, orgList: seq<Item>, resolve: bool, known: set<Item>,
                                         emitted: seq<Item>)
    requires Grounded(g, known, emitted)
    ensures Ordered(g, Picked(emitted, orgList, resolve))
  {
    var ret := Picked(emitted, orgList, resolve);
    forall i, y | 0 <= i < |ret| && y in ret && y != ret[i] && Reaches(g, ret[i], y) ensures y in ret[i + 1..] {
      var p := PickedAt(emitted, orgList, resolve, i);
      var w :| Walk(g, w) && w[0] == ret[i] && w[|w| - 1] == y;
      var q := WalkDown(g, known, emitted, w, p, |w| - 1);
      assert y == emitted[..p][q];
      PickedMembers(emitted, orgList, resolve, y);
      PickedMembers(emitted[..p], orgList, resolve, y);
    }
  }

  lemma {:induction false} PickedGreedy(g: Graph, priority: Item -> int, orgList: seq<Item>, known: set<Item>,
                                        emitted: seq<Item>)
    requires Grounded(g, known, emitted) && Choosy(g, priority, known, emitted)
    ensures Greedy(g, priority, Picked(emitted, orgList, true))
  {
    var ret := Picked(emitted, orgList, true);
    forall i, j | 0 <= i < j < |ret| && ret[i] !in ret[j + 1..] && SetOf(Deps(g, ret[i])) <= SetOf(ret[j + 1..])
      ensures priority(ret[j]) <= priority(ret[i])
    {
      var p := PickedAt(emitted, orgList, true, j);
      forall x ensures x in ret[j + 1..] <==> x in emitted[..p] {
        PickedMembers(emitted[..p], orgList, true, x);
      }
      PickedMembers(emitted, orgList, true, ret[i]);
      assert ret[i] in SetOf(emitted);
      assert WasReady(g, known, emitted[..p], ret[i]);
    }
  }

  // ----- how often an item comes out -------------------------------------------------------------------

  /** Each emitted item names the last emitted of its dependencies once: the one that made it ready. */
  ghost predicate NamedOnce(g: Graph, emitted: seq<Item>) {
    forall t, x | 0 <= t < |emitted| && x in emitted && GetsReady(g, emitted, t, x) :: Count(g, x, emitted[t]) == 1
  }

  /** The item `x` waits for nothing with the emission at `t`, and waited before. */
  predicate GetsReady(g: Graph, emitted: seq<Item>, t: nat, x: Item)
    requires t < |emitted|
  {
    Pending(g, emitted[..t], x) != {} && Pending(g, emitted[..t + 1], x) == {}
  }

  /** No list of an item that is reached names an item twice. */
  ghost predicate PlainFrom(g: Graph, orgList: seq<Item>) {
    forall x | Reachable(g, orgList, x) :: NoDup(Deps(g, x))
  }

  lemma {:induction false} Once(l: seq<Item>, x: Item)
    requires NoDup(l)
    ensures multiset(l)[x] <= 1
  {
    if l != [] {
      assert l == [l[0]] + l[1..];
      Once(l[1..], x);
      assert l[0] !in l[1..];
    }
  }

  lemma {:induction false} Twice(l: seq<Item>, i: nat, j: nat)
    requires i < j < |l| && l[i] == l[j]
    ensures multiset(l)[l[i]] >= 2
  {
    assert l == l[..i] + [l[i]] + l[i + 1..j] + [l[j]] + l[j + 1..];
  }

  lemma {:induction false} NoDupIsOnce(l: seq<Item>)
    ensures NoDup(l) <==> forall x :: multiset(l)[x] <= 1
  {
    if NoDup(l) {
      forall x ensures multiset(l)[x] <= 1 { Once(l, x); }
    } else {
      var i, j :| 0 <= i < j < |l| && l[i] == l[j];
      Twice(l, i, j);
    }
  }

  /** The emission that makes an item ready counts. */
  lemma {:induction false} CountsAtLeast(g: Graph, emitted: seq<Item>, t: nat, x: Item)
    requires t < |emitted| && GetsReady(g, emitted, t, x)
    ensures Count(g, x, emitted[t]) > 0 && Times(g, emitted, x) >= Count(g, x, emitted[t])
    decreases |emitted|
  {
    var n := |emitted| - 1;
    if t == n {
      assert emitted[..n + 1] == emitted;
      var y :| y in Pending(g, emitted[..n], x);
      assert emitted == emitted[..n] + [emitted[n]] && y !in Pending(g, emitted, x);
      assert y == emitted[n] && y in multiset(Deps(g, x));
    } else {
      assert emitted[..n][..t] == emitted[..t] && emitted[..n][..t + 1] == emitted[..t + 1];
      CountsAtLeast(g, emitted[..n], t, x);
    }
  }

  /** If the dependencies of `x` are emitted once each, and it names the last of them once, it gets ready once. */
  lemma {:induction false} ReadyOnce(g: Graph, emitted: seq<Item>, x: Item, m: nat)
    requires m <= |emitted| && forall y | y in Deps(g, x) :: multiset(emitted)[y] == 1
    requires forall t: nat | t < |emitted| && GetsReady(g, emitted, t, x) :: Count(g, x, emitted[t]) == 1
    ensures Times(g, emitted[..m], x) == if Pending(g, emitted[..m], x) == {} then 1 else 0
    decreases m
  {
    if m == 0 {
      assert emitted[..m] == [];
      assert Deps(g, x) != [] ==> Deps(g, x)[0] in Pending(g, [], x);
    } else {
      var n := m - 1;
      var e, y := emitted[..m], emitted[n];
      assert e[..n] == emitted[..n] && e == emitted[..n] + [y];
      ReadyOnce(g, emitted, x, n);
      assert Pending(g, e, x) == Pending(g, emitted[..n], x) - {y};
      assert GetsReady(g, emitted, n, x) <==> Pending(g, emitted[..n], x) != {} && Pending(g, e, x) == {};
      if Pending(g, emitted[..n], x) == {} && Count(g, x, y) > 0 {
        assert y in Deps(g, x) by { assert y in multiset(Deps(g, x)); }
        assert y in SetOf(emitted[..n]) by { assert y !in Pending(g, emitted[..n], x); }
        var k :| 0 <= k < n && emitted[..n][k] == y;
        Twice(emitted, k, n);
      }
    }
  }

  /** Up to the place `p`, everything emitted is emitted once. */
  lemma {:induction false} OnceUpTo(g: Graph, known: set<Item>, emitted: seq<Item>, p: nat)
    requires Grounded(g, known, emitted) && Settled(g, known, emitted) && NamedOnce(g, emitted) && p <= |emitted|
    ensures forall q | 0 <= q < p :: multiset(emitted)[emitted[q]] == 1
    decreases p
  {
    if p > 0 {
      OnceUpTo(g, known, emitted, p - 1);
      var x := emitted[p - 1];
      forall y | y in Deps(g, x) ensures multiset(emitted)[y] == 1 {
        assert y in SetOf(Deps(g, x)) && y in SetOf(emitted[..p - 1]);
        var q :| 0 <= q < p - 1 && emitted[..p - 1][q] == y;
        assert emitted[q] == y;
      }
      forall t: nat | t < |emitted| && GetsReady(g, emitted, t, x) ensures Count(g, x, emitted[t]) == 1 {
        assert x in emitted;
      }
      assert x in SetOf(emitted);
      hide Times, GetsReady, NamedOnce;
      ReadyOnce(g, emitted, x, |emitted|);
      assert emitted[..|emitted|] == emitted && x in multiset(emitted);
      assert multiset(emitted)[x] == Times(g, emitted, x);
    }
  }

  /** Nothing comes out twice if and only if what was emitted names the last of its dependencies once. */
  lemma {:induction false} OnceEach(g: Graph, known: set<Item>, emitted: seq<Item>)
    requires Grounded(g, known, emitted) && Settled(g, known, emitted)
    ensures NoDup(emitted) <==> NamedOnce(g, emitted)
  {
    NoDupIsOnce(emitted);
    if NoDup(emitted) {
      forall t, x | 0 <= t < |emitted| && x in emitted && GetsReady(g, emitted, t, x) ensures Count(g, x, emitted[t]) == 1 {
        CountsAtLeast(g, emitted, t, x);
        assert x in SetOf(emitted);
        assert multiset(emitted)[x] <= 1;
      }
    }
    if NamedOnce(g, emitted) {
      OnceUpTo(g, known, emitted, |emitted|);
      forall x ensures multiset(emitted)[x] <= 1 {
        if x in multiset(emitted) {
          var q :| 0 <= q < |emitted| && emitted[q] == x;
        }
      }
    }
  }

  // ----- whatever the priorities -----------------------------------------------------------------------

  /** The item `x` comes out, names `y` twice, and depends on nothing else that reaches `y`. */
  ghost predicate MayComeTwice(g: Graph, orgList: seq<Item>, x: Item, y: Item) {
    && Reachable(g, orgList, x) && !ReachesCycle(g, x) && Count(g, x, y) >= 2
    && forall z | z in Deps(g, x) && z != y :: !Reaches(g, z, y)
  }

  /** What reaches `y` comes last. */
  ghost predicate Late(g: Graph, priority: Item -> int, y: Item) {
    forall z :: priority(z) == if Reaches(g, z, y) then 1 else 0
  }

  /** The emission that makes an item ready is the first of one of its dependencies, and the others are in front. */
  lemma {:induction false} LastPending(g: Graph, emitted: seq<Item>, t: nat, x: Item)
    requires t < |emitted|
    ensures GetsReady(g, emitted, t, x) <==>
            emitted[t] in Deps(g, x) && emitted[t] !in emitted[..t]
            && forall z | z in Deps(g, x) && z != emitted[t] :: z in emitted[..t]
  {
    var y := emitted[t];
    assert emitted[..t + 1] == emitted[..t] + [y];
    assert Pending(g, emitted[..t + 1], x) == Pending(g, emitted[..t], x) - {y};
    if GetsReady(g, emitted, t, x) {
      var z :| z in Pending(g, emitted[..t], x);
      assert z !in Pending(g, emitted[..t + 1], x) && z == y;
      forall z | z in Deps(g, x) && z != y ensures z in emitted[..t] {
        assert z !in Pending(g, emitted[..t + 1], x);
      }
    } else if y in Deps(g, x) && y !in emitted[..t] {
      assert y in Pending(g, emitted[..t], x);
      var z :| z in Pending(g, emitted[..t + 1], x);
      assert z != y && z !in emitted[..t];
    }
  }

  /** If no item may come twice, each names the last of its dependencies once. */
  lemma {:induction false} NeverTwice(g: Graph, orgList: seq<Item>, known: set<Item>, emitted: seq<Item>)
    requires Closed(g, orgList, known) && Grounded(g, known, emitted)
    requires forall x, y :: !MayComeTwice(g, orgList, x, y)
    ensures NamedOnce(g, emitted)
  {
    forall t, x | 0 <= t < |emitted| && x in emitted && GetsReady(g, emitted, t, x) ensures Count(g, x, emitted[t]) == 1 {
      var y := emitted[t];
      assert x in SetOf(emitted);
      CountsAtLeast(g, emitted, t, x);
      LastPending(g, emitted, t, x);
      EmittedReachesNoCycle(g, known, emitted, x);
      if Count(g, x, y) >= 2 {
        assert !MayComeTwice(g, orgList, x, y);
        var z :| z in Deps(g, x) && z != y && Reaches(g, z, y);
        NotBehind(g, known, emitted, t, z);
      }
    }
  }

  /** What is emitted in front of the first emission of an item does not reach it. */
  lemma {:induction false} NotBehind(g: Graph, known: set<Item>, emitted: seq<Item>, t: nat, z: Item)
    requires Grounded(g, known, emitted) && t < |emitted| && emitted[t] !in emitted[..t] && z in emitted[..t]
    ensures !Reaches(g, z, emitted[t])
  {
    var p :| 0 <= p < t && emitted[..t][p] == z;
    forall w | Walk(g, w) && w[0] == z ensures w[|w| - 1] != emitted[t] {
      var q := WalkDown(g, known, emitted, w, p, |w| - 1);
      assert emitted[..t][q] == w[|w| - 1];
    }
  }

  /** If not all that `z` depends on has been emitted, something it reaches was ready. */
  lemma {:induction false} SomethingReady(g: Graph, known: set<Item>, emitted: seq<Item>, t: nat, z: Item, f: nat)
    returns (u: Item)
    requires Grounded(g, known, emitted) && t <= |emitted| && f < |emitted| && emitted[f] == z && z !in emitted[..t]
    ensures Reaches(g, z, u) && WasReady(g, known, emitted[..t], u)
    decreases f
  {
    if SetOf(Deps(g, z)) <= SetOf(emitted[..t]) {
      u := z;
      ReachesSelf(g, z);
      assert z in SetOf(emitted);
    } else {
      var v :| v in SetOf(Deps(g, z)) && v !in SetOf(emitted[..t]);
      assert v in SetOf(emitted[..f]);
      var k :| 0 <= k < f && emitted[..f][k] == v;
      u := SomethingReady(g, known, emitted, t, v, k);
      ReachesThrough(g, z, v, u);
    }
  }

  lemma {:induction false} ReachesOn(g: Graph, x: Item, y: Item, z: Item)
    requires Reaches(g, x, y) && Reaches(g, y, z)
    ensures Reaches(g, x, z)
  {
    var v :| Walk(g, v) && v[0] == x && v[|v| - 1] == y;
    var w :| Walk(g, w) && w[0] == y && w[|w| - 1] == z;
    var u := v + w[1..];
    forall i | 0 <= i < |u| - 1 ensures u[i + 1] in Deps(g, u[i]) {
      if i >= |v| - 1 {
        assert u[i] == w[i - (|v| - 1)] && u[i + 1] == w[i + 1 - (|v| - 1)];
      }
    }
    assert u[0] == x && u[|u| - 1] == z;
  }

  /** If what reaches `y` comes last, everything else `x` depends on is emitted in front of `y`. */
  lemma {:induction false} OthersFirst(g: Graph, priority: Item -> int, orgList: seq<Item>, known: set<Item>,
                                       emitted: seq<Item>, x: Item, y: Item, t: nat, z: Item)
    requires Grounded(g, known, emitted) && Choosy(g, priority, known, emitted) && x in emitted
    requires MayComeTwice(g, orgList, x, y) && Late(g, priority, y)
    requires t < |emitted| && emitted[t] == y && y !in emitted[..t] && z in Deps(g, x) && z != y
    ensures z in emitted[..t]
  {
    if z !in emitted[..t] {
      var f := EmittedDep(g, known, emitted, x, z);
      var u := SomethingReady(g, known, emitted, t, z, f);
      ReadyReaches(g, priority, known, emitted, t, u);
      ReachesOn(g, z, u, y);
    }
  }

  lemma {:induction false} ReadyReaches(g: Graph, priority: Item -> int, known: set<Item>, emitted: seq<Item>, t: nat, u: Item)
    requires t < |emitted| && Choosy(g, priority, known, emitted) && Late(g, priority, emitted[t])
    requires WasReady(g, known, emitted[..t], u)
    ensures Reaches(g, u, emitted[t])
  {
    ReachesSelf(g, emitted[t]);
    hide Reaches;
    assert priority(emitted[t]) == 1 && priority(emitted[t]) <= priority(u);
  }

  /** What an emitted item depends on is emitted. */
  lemma {:induction false} EmittedDep(g: Graph, known: set<Item>, emitted: seq<Item>, x: Item, z: Item) returns (f: nat)
    requires Grounded(g, known, emitted) && x in emitted && z in Deps(g, x)
    ensures f < |emitted| && emitted[f] == z && z !in emitted[..f]
  {
    var p :| 0 <= p < |emitted| && emitted[p] == x;
    assert z in SetOf(emitted[..p]);
    var k :| 0 <= k < p && emitted[..p][k] == z;
    f := FirstOf(emitted, k);
  }

  /** An item that may come twice does, if what reaches its last dependency comes last. */
  lemma {:induction false} TwiceIfLate(g: Graph, priority: Item -> int, orgList: seq<Item>, known: set<Item>,
                                       emitted: seq<Item>, x: Item, y: Item)
    requires Grounded(g, known, emitted) && Choosy(g, priority, known, emitted) && Stuck(g, known, emitted)
    requires Closed(g, orgList, known) && MayComeTwice(g, orgList, x, y) && Late(g, priority, y)
    ensures !NamedOnce(g, emitted)
  {
    KnownIsReachable(g, orgList, known, x);
    if x !in emitted {
      StuckReachesCycle(g, orgList, known, emitted, x);
    }
    assert y in Deps(g, x) by { assert y in multiset(Deps(g, x)); }
    var t := EmittedDep(g, known, emitted, x, y);
    forall z | z in Deps(g, x) && z != y ensures z in emitted[..t] {
      OthersFirst(g, priority, orgList, known, emitted, x, y, t, z);
    }
    LastPending(g, emitted, t, x);
  }

  lemma {:induction false} PlainNeverTwice(g: Graph, orgList: seq<Item>)
    requires PlainFrom(g, orgList)
    ensures forall x, y :: !MayComeTwice(g, orgList, x, y)
  {
    forall x, y ensures !MayComeTwice(g, orgList, x, y) {
      if Reachable(g, orgList, x) {
        Once(Deps(g, x), y);
      }
    }
  }

  // ----- the whole -------------------------------------------------------------------------------------

  lemma {:induction false} Members(g: Graph, orgList: seq<Item>, resolve: bool, known: set<Item>, emitted: seq<Item>,
                                   x: Item)
    requires Grounded(g, known, emitted) && Stuck(g, known, emitted) && Closed(g, orgList, known)
    ensures x in Picked(emitted, orgList, resolve) <==>
            (resolve || x in orgList) && Reachable(g, orgList, x) && !ReachesCycle(g, x)
  {
    PickedMembers(emitted, orgList, resolve, x);
    KnownIsReachable(g, orgList, known, x);
    if x in emitted {
      EmittedReachesNoCycle(g, known, emitted, x);
      assert x in SetOf(emitted);
    } else if x in known {
      StuckReachesCycle(g, orgList, known, emitted, x);
    }
  }

  lemma {:induction false} Result(g: Graph, priority: Item -> int, orgList: seq<Item>, resolve: bool,
                                  known: set<Item>, emitted: seq<Item>)
    requires Grounded(g, known, emitted) && Choosy(g, priority, known, emitted) && Stuck(g, known, emitted)
    requires Settled(g, known, emitted) && Closed(g, orgList, known)
    ensures var ret := Picked(emitted, orgList, resolve);
            && (forall x :: x in ret <==> (resolve || x in orgList) && Reachable(g, orgList, x) && !ReachesCycle(g, x))
            && (forall x | x in ret :: multiset(ret)[x] == Times(g, emitted, x))
            && (NoDup(emitted) <==> NamedOnce(g, emitted)) && (NoDup(emitted) ==> NoDup(ret))
            && (resolve ==> (NoDup(ret) <==> NoDup(emitted))) && (PlainFrom(g, orgList) ==> NoDup(ret))
            && ((forall x, y :: !MayComeTwice(g, orgList, x, y)) ==> NoDup(emitted))
            && (forall x, y | MayComeTwice(g, orgList, x, y) && Late(g, priority, y) :: !NoDup(emitted))
            && Ordered(g, ret) && Greedy(g, priority, Picked(emitted, orgList, true))
  {
    var ret := Picked(emitted, orgList, resolve);
    forall x | x in ret ensures multiset(ret)[x] == Times(g, emitted, x) {
      PickedCount(emitted, orgList, resolve, x);
      PickedMembers(emitted, orgList, resolve, x);
      assert x in SetOf(emitted);
    }
    hide *;
    PickedOrdered(g, orgList, resolve, known, emitted);
    PickedGreedy(g, priority, orgList, known, emitted);
    OnceEach(g, known, emitted);
    if PlainFrom(g, orgList) {
      PlainNeverTwice(g, orgList);
    }
    if forall x, y :: !MayComeTwice(g, orgList, x, y) {
      NeverTwice(g, orgList, known, emitted);
    }
    forall x, y | MayComeTwice(g, orgList, x, y) && Late(g, priority, y) ensures !NoDup(emitted) {
      TwiceIfLate(g, priority, orgList, known, emitted, x, y);
    }
    NoDupIsOnce(ret);
    NoDupIsOnce(emitted);
    forall x ensures multiset(ret)[x] == if resolve || x in orgList then multiset(emitted)[x] else 0 {
      PickedCount(emitted, orgList, resolve, x);
    }
    forall x ensures x in ret <==> (resolve || x in orgList) && Reachable(g, orgList, x) && !ReachesCycle(g, x) {
      Members(g, orgList, resolve, known, emitted, x);
    }
  }

  // ----- the sorter ------------------------------------------------------------------------------------

  class DependencySorter {
    const depends: Graph
    const priority: Item -> int
    var dependencies: map<Item, set<Item>>
    var dependees: map<Item, seq<Item>>
    var rootSet: Ready

    constructor (depends: Graph, priority: Item -> int)
      ensures this.depends == depends && this.priority == priority
      ensures Valid() && dependencies == map[]
    {
      this.depends, this.priority := depends, priority;
      dependencies, dependees, rootSet := map[], map[], [];
    }

    ghost predicate Valid()
      reads this
    {
      Discovered(depends, priority, dependencies, dependees, rootSet)
    }

    /** Discovers the items and what they depend on, directly or not. */
    method PopulateDeps(deps: seq<Item>)
      requires Valid()
      modifies this
      ensures Valid() && old(dependencies.Keys) + SetOf(deps) <= dependencies.Keys
      ensures Explored(depends, deps, old(dependencies.Keys), dependencies.Keys)
      decreases |depends.Keys - dependencies.Keys|
    {
      hide Discovered, Reachable;
      for n := 0 to |deps|
        invariant Valid() && old(dependencies.Keys) + SetOf(deps[..n]) <= dependencies.Keys
        invariant Explored(depends, deps, old(dependencies.Keys), dependencies.Keys)
      {
        var item := deps[n];
        ghost var mid := dependencies.Keys;
        if item !in dependencies {
          var list := Deps(depends, item);
          if list == [] {
            AddRoot(item);
          } else {
            AddItem(item);
            CardinalityLess(depends.Keys - dependencies.Keys, depends.Keys - old(dependencies.Keys), item);
            PopulateDeps(list);
          }
          ExploreItem(depends, deps, item, old(dependencies.Keys), mid, dependencies.Keys);
        }
        assert SetOf(deps[..n + 1]) == SetOf(deps[..n]) + {item};
      }
      assert deps[..|deps|] == deps;
    }

    /** Takes an item that has been emitted off the dependencies of its dependees. */
    method Release(item: Item)
      requires forall x | x in Deps(dependees, item) :: x in dependencies
      modifies this`dependencies, this`rootSet
      ensures (dependencies, rootSet) == ReleaseAll(priority, old(dependencies), old(rootSet), item, Deps(dependees, item))
    {
      var list := Deps(dependees, item);
      for n := 0 to |list|
        invariant dependencies.Keys == old(dependencies.Keys)
        invariant ReleaseAll(priority, old(dependencies), old(rootSet), item, list) ==
                  ReleaseAll(priority, dependencies, rootSet, item, list[n..])
      {
        var dep := list[n];
        assert list[n..][1..] == list[n + 1..];
        dependencies := dependencies[dep := dependencies[dep] - {item}];
        if dependencies[dep] == {} {
          rootSet := Insert(rootSet, priority(dep), dep);
        }
      }
    }

    /** The items, or with `resolve` also all they depend on: each in front of what it depends on, and without the items
        that depend on a cycle. An item comes out as often as it got ready: once each, if and only if all that were
        emitted name the last of their dependencies once. That is so for all priorities if and only if none may come
        twice. */
    method Sort(orgList: seq<Item>, resolve: bool) returns (ret: seq<Item>, ghost emitted: seq<Item>)
      requires Valid() && dependencies == map[]
      modifies this
      ensures ret == Picked(emitted, orgList, resolve)
      ensures forall x :: x in ret <==>
                (resolve || x in orgList) && Reachable(depends, orgList, x) && !ReachesCycle(depends, x)
      ensures forall x | x in ret :: multiset(ret)[x] == Times(depends, emitted, x)
      ensures NoDup(emitted) <==> NamedOnce(depends, emitted)
      ensures NamedOnce(depends, emitted) ==> NoDup(ret)
      ensures resolve ==> (NoDup(ret) <==> NamedOnce(depends, emitted))
      ensures PlainFrom(depends, orgList) ==> NoDup(ret)
      ensures (forall x, y :: !MayComeTwice(depends, orgList, x, y)) ==> NoDup(emitted)
      ensures forall x, y | MayComeTwice(depends, orgList, x, y) && Late(depends, priority, y) :: !NoDup(emitted)
      ensures Ordered(depends, ret)
      ensures Greedy(depends, priority, Picked(emitted, orgList, true))
    {
      PopulateDeps(orgList);
      ghost var known := dependencies.Keys;
      assert Closed(depends, orgList, known);
      ret, emitted := EmitAll(orgList, resolve);
      Result(depends, priority, orgList, resolve, known, emitted);
    }

    /** Emits the first item that is ready. */
    method EmitFirst(orgList: seq<Item>, resolve: bool, ret: seq<Item>, ghost known: set<Item>,
                     ghost emitted: seq<Item>)
      returns (ret': seq<Item>)
      requires rootSet != [] && Sorting(depends, priority, known, dependencies, dependees, rootSet, emitted)
      requires Grounded(depends, known, emitted) && Choosy(depends, priority, known, emitted)
      requires ret == Picked(emitted, orgList, resolve)
      modifies this`dependencies, this`rootSet
      ensures var e := emitted + [old(rootSet[0].1)];
              && Sorting(depends, priority, known, dependencies, dependees, rootSet, e)
              && Grounded(depends, known, e) && Choosy(depends, priority, known, e)
              && ret' == Picked(e, orgList, resolve)
      ensures Ahead(depends, known, dependees, rootSet) < Ahead(depends, known, dependees, old(rootSet))
    {
      hide *;
      var item := rootSet[0].1;
      Emit(depends, priority, known, dependencies, dependees, rootSet, emitted);
      SortingNext(depends, priority, known, dependencies, dependees, rootSet, emitted);
      LessAhead(depends, priority, known, dependencies, dependees, rootSet, emitted);
      PickedNext(emitted, item, orgList, resolve);
      rootSet := rootSet[1..];
      ret' := if resolve || item in orgList then [item] + ret else ret;
      Release(item);
    }

    /** Emits what is ready until nothing is; the loop ends, whatever the lists. */
    method EmitAll(orgList: seq<Item>, resolve: bool) returns (ret: seq<Item>, ghost emitted: seq<Item>)
      requires Valid()
      modifies this
      ensures ret == Picked(emitted, orgList, resolve)
      ensures var known := old(dependencies.Keys);
              && Grounded(depends, known, emitted) && Choosy(depends, priority, known, emitted)
              && Stuck(depends, known, emitted) && Settled(depends, known, emitted)
    {
      ghost var known := dependencies.Keys;
      SortingStarts(depends, priority, dependencies, dependees, rootSet);
      ret, emitted := [], [];
      assert ret == Picked(emitted, orgList, resolve);
      hide *;
      while rootSet != []
        invariant Sorting(depends, priority, known, dependencies, dependees, rootSet, emitted)
        invariant Grounded(depends, known, emitted) && Choosy(depends, priority, known, emitted)
        invariant ret == Picked(emitted, orgList, resolve)
        decreases Ahead(depends, known, dependees, rootSet)
      {
        ghost var item := rootSet[0].1;
        ret := EmitFirst(orgList, resolve, ret, known, emitted);
        emitted := emitted + [item];
      }
      AllEmitted(depends, priority, known, dependencies, dependees, emitted);
    }

    /** An item that depends on nothing. */
    method AddRoot(item: Item)
      requires Valid() && item !in dependencies && Deps(depends, item) == []
      modifies this
      ensures Valid() && dependencies.Keys == old(dependencies.Keys) + {item}
    {
      RootAdded(depends, priority, item, dependencies, dependees, rootSet);
      hide Discovered;
      dependencies := dependencies[item := {}];
      rootSet := Insert(rootSet, priority(item), item);
    }

    /** An item among the dependees of each thing it depends on. */
    method AddDependees(item: Item, list: seq<Item>, ghost known: set<Item>)
      requires item in dependencies && dependencies[item] == {} && DependeesOf(depends, known, dependees, item, [])
      modifies this`dependencies, this`dependees
      ensures dependencies == old(dependencies)[item := SetOf(list)]
      ensures DependeesOf(depends, known, dependees, item, list)
    {
      assert SetOf(list[..0]) == {} && list[..0] == [];
      hide DependeesOf, SetOf, Deps;
      for n := 0 to |list|
        invariant dependencies == old(dependencies)[item := SetOf(list[..n])]
        invariant DependeesOf(depends, known, dependees, item, list[..n])
      {
        AddDependee(depends, known, dependees, item, list[..n], list[n]);
        dependencies := dependencies[item := dependencies[item] + {list[n]}];
        dependees := dependees[list[n] := Deps(dependees, list[n]) + [item]];
        SetOfNext(list, n);
      }
      assert list[..|list|] == list;
    }

    /** An item that depends on others. */
    method AddItem(item: Item)
      requires Valid() && item !in dependencies && Deps(depends, item) != []
      modifies this
      ensures Valid() && dependencies.Keys == old(dependencies.Keys) + {item}
    {
      hide Discovered, DependeesOf, SetOf, Deps;
      var list := Deps(depends, item);
      ghost var known := dependencies.Keys;
      Known(depends, priority, dependencies, dependees, rootSet, item);
      dependencies := dependencies[item := {}];
      AddDependees(item, list, known);
      assert dependencies == old(dependencies)[item := SetOf(list)];
      ItemAdded(depends, priority, item, old(dependencies), old(dependees), dependees, rootSet);
    }
  }

  // ----- an item that names its one dependency twice ---------------------------------------------------

  /** Whenever an item may come twice there are priorities with which resolve_depends() returns one twice: those that
      put all that reaches the last dependency last. */
  method ComesTwiceIfLate(g: Graph, orgList: seq<Item>, priority: Item -> int, ghost x: Item, ghost y: Item)
    returns (ret: seq<Item>)
    requires MayComeTwice(g, orgList, x, y) && Late(g, priority, y)
    ensures !NoDup(ret)
  {
    hide *;
    var sorter := new DependencySorter(g, priority);
    ghost var emitted;
    ret, emitted := sorter.Sort(orgList, true);
  }

  function TwiceNamed(a: Item, b: Item): Graph { map[a := [b, b]] }

  /** With "a" depending on "b b", resolve_depends() of "a" returns "a a b". */
  method NamedTwice(priority: Item -> int, a: Item, b: Item) returns (ret: seq<Item>)
    requires a != b
    ensures ret == [a, a, b]
  {
    var sorter := new DependencySorter(TwiceNamed(a, b), priority);
    ghost var emitted;
    ret, emitted := sorter.Sort([a], true);
    hide *;
    forall x ensures x in ret <==> x == a || x == b { Both(a, b, x); }
    ComesTwice(a, b, emitted);
  }

  lemma {:induction false} Both(a: Item, b: Item, x: Item)
    requires a != b
    ensures var g := TwiceNamed(a, b);
            (true || x in [a]) && Reachable(g, [a], x) && !ReachesCycle(g, x) <==> x == a || x == b
  {
    var g := TwiceNamed(a, b);
    if Reachable(g, [a], x) {
      var y :| y in [a] && Reaches(g, y, x);
      var w :| Walk(g, w) && w[0] == y && w[|w| - 1] == x;
      ClosedHolds(g, {a, b}, w);
    }
    if x == a || x == b {
      ReachesSelf(g, x);
      ReachesSelf(g, b);
      ReachesThrough(g, a, b, b);
      assert a in [a] && Reachable(g, [a], x);
      forall w, i: nat, j: nat ensures !Loops(g, x, w, i, j) {
        if Walk(g, w) && w[0] == x && |w| > 1 {
          FirstStep(g, w);
          if |w| > 2 {
            FirstStep(g, w[1..]);
          }
        }
      }
    }
  }

  lemma {:induction false} FirstStep(g: Graph, w: seq<Item>)
    requires Walk(g, w) && |w| > 1
    ensures w[1] in Deps(g, w[0]) && Walk(g, w[1..])
  {
  }

  lemma {:induction false} ReadyFromTheStart(g: Graph, emitted: seq<Item>, x: Item)
    requires Deps(g, x) == []
    ensures Times(g, emitted, x) == 1
  {
    if emitted != [] {
      ReadyFromTheStart(g, emitted[..|emitted| - 1], x);
    }
  }

  lemma {:induction false} ReadyTwice(a: Item, b: Item, emitted: seq<Item>)
    requires a != b && emitted != [] && emitted[0] == b && forall t | 0 < t < |emitted| :: emitted[t] == a
    ensures Times(TwiceNamed(a, b), emitted, a) == 2
    decreases |emitted|
  {
    var n := |emitted| - 1;
    assert multiset([b, b])[b] == 2 && multiset([b, b])[a] == 0;
    if n > 0 {
      ReadyTwice(a, b, emitted[..n]);
    } else {
      assert b in [b, b];
      assert emitted[..n] == [];
    }
  }

  lemma {:induction false} AsMany(l: seq<Item>, a: Item)
    requires forall t | 0 <= t < |l| :: l[t] == a
    ensures multiset(l)[a] == |l|
  {
    if l != [] {
      assert l == [l[0]] + l[1..];
      AsMany(l[1..], a);
    }
  }

  /** Then "b" stands last, and was emitted first. */
  lemma {:induction false} LastIsFirst(a: Item, b: Item, emitted: seq<Item>)
    requires a != b
    requires var ret := Picked(emitted, [a], true);
             (forall x :: x in ret <==> x == a || x == b) && Ordered(TwiceNamed(a, b), ret)
    ensures var ret := Picked(emitted, [a], true); |ret| > 0 && ret[|ret| - 1] == b && emitted != [] && emitted[0] == b
  {
    var g, ret := TwiceNamed(a, b), Picked(emitted, [a], true);
    var n := |ret| - 1;
    ReachesSelf(g, b);
    ReachesThrough(g, a, b, b);
    assert b in ret && ret[n] in ret;
    hide *;
    if ret[n] == a {
      Behind(g, ret, n, b);
    }
    var p := PickedAt(emitted, [a], true, n);
    PickedNone(emitted[..p], [a]);
  }

  lemma {:induction false} Behind(g: Graph, ret: seq<Item>, i: nat, y: Item)
    requires Ordered(g, ret) && i < |ret| && y in ret && y != ret[i] && Reaches(g, ret[i], y)
    ensures y in ret[i + 1..]
  {
  }

  lemma {:induction false} PickedNone(e: seq<Item>, orgList: seq<Item>)
    requires Picked(e, orgList, true) == []
    ensures e == []
  {
  }

  lemma {:induction false} AllOthers(l: seq<Item>, a: Item, b: Item, k: nat)
    requires k < |l| && l[k] == b && multiset(l)[b] == 1 && forall x | x in l :: x == a || x == b
    ensures forall t | 0 <= t < |l| && t != k :: l[t] == a
  {
    forall t | 0 <= t < |l| && t != k ensures l[t] == a {
      assert l[t] in l;
      if l[t] == b {
        Twice(l, if t < k then t else k, if t < k then k else t);
      }
    }
  }

  lemma {:induction false} TwoAndOne(l: seq<Item>, a: Item, b: Item)
    requires a != b && |l| > 0 && l[|l| - 1] == b && multiset(l)[a] == 2
    requires forall t | 0 <= t < |l| && t != |l| - 1 :: l[t] == a
    ensures l == [a, a, b]
  {
    var n := |l| - 1;
    assert l == l[..n] + [b];
    AsMany(l[..n], a);
  }

  lemma {:induction false} ComesTwice(a: Item, b: Item, emitted: seq<Item>)
    requires a != b
    requires var ret := Picked(emitted, [a], true);
             && (forall x :: x in ret <==> x == a || x == b)
             && (forall x | x in ret :: multiset(ret)[x] == Times(TwiceNamed(a, b), emitted, x))
             && Ordered(TwiceNamed(a, b), ret)
    ensures Picked(emitted, [a], true) == [a, a, b]
  {
    var ret := Picked(emitted, [a], true);
    ReadyFromTheStart(TwiceNamed(a, b), emitted, b);
    hide *;
    LastIsFirst(a, b, emitted);
    PickedCount(emitted, [a], true, b);
    forall x | x in emitted ensures x == a || x == b { PickedMembers(emitted, [a], true, x); }
    AllOthers(emitted, a, b, 0);
    ReadyTwice(a, b, emitted);
    var n := |ret| - 1;
    AllOthers(ret, a, b, n);
    TwoAndOne(ret, a, b);
  }
}
