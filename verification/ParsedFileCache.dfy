// The parsed-file cache shared by the parsers of several threads, as atomic steps
// between lock, unlock and wait: every interleaving parses a file once.
module ParsedFileCache {
  import opened Tokens

  type Tid = nat
  type Id = int
  /** A ProFile, or null for a file that could not be read. */
  type Ptr = Option<nat>

  /** Where a call of parsedProFile stands. `l` is the Locker it created or waits on. */
  datatype Pc =
    | Idle
    | Wants(id: Id)
    | Waiting(id: Id, l: nat)
    | Woken(id: Id, l: nat)
    | Parsing(id: Id, l: nat)
    | Storing(id: Id, l: nat, pro: Ptr)
    | Stored(id: Id, l: nat, pro: Ptr)
    | Has(id: Id, pro: Ptr)
  {
    /** Between creating the entry and waking the others. */
    predicate Fills() { Parsing? || Storing? || Stored? }
    predicate WaitsOn(k: nat) { (Waiting? || Woken?) && l == k }
    predicate Holds(p: nat) { (Storing? || Stored? || Has?) && pro == Some(p) }
  }

  datatype Locker = Locker(id: Id, waiters: nat, done: bool)

  /** `pro` is None until it is stored. `opener` is the thread that created the entry. */
  datatype Entry = Entry(pro: Option<Ptr>, locker: Option<nat>, opener: Tid)

  datatype Pro = Pro(id: Id, refs: nat)

  /** `lockers` and `pros` are the objects that are alive. `bad` is set by a step that uses something dead or not
      yet stored. `parses` and `results` record what was parsed and what callers got. */
  datatype State = State(
    threads: map<Tid, Pc>,
    entries: map<Id, Entry>,
    lockers: map<nat, Locker>,
    nextLocker: nat,
    pros: map<nat, Pro>,
    nextPro: nat,
    parses: multiset<Id>,
    results: set<(Id, Ptr)>,
    bad: bool)

  datatype Label =
    | Begin(t: Tid, id: Id)
    | Lookup(t: Tid)
    | Parse(t: Tid, readable: bool)
    | Store(t: Tid)
    | Finish(t: Tid)
    | Wake(t: Tid)
    | Release(t: Tid)

  // ----- the steps -----------------------------------------------------------------

  predicate Enabled(s: State, a: Label) {
    && a.t in s.threads
    && var pc := s.threads[a.t];
       match a
       case Begin(_, _) => pc.Idle?
       case Lookup(_) => pc.Wants?
       case Parse(_, _) => pc.Parsing?
       case Store(_) => pc.Storing?
       case Finish(_) => pc.Stored?
       case Wake(_) => pc.Woken?
       case Release(_) => pc.Has?
  }

  function Goto(s: State, t: Tid, pc: Pc): State { s.(threads := s.threads[t := pc]) }

  function Bad(s: State): State { s.(bad := true) }

  /** Reads the entry and takes a reference; the call returns. */
  function Take(s: State, t: Tid, id: Id): State {
    if id !in s.entries || s.entries[id].pro.None? then Bad(s)
    else
      var p := s.entries[id].pro.value;
      var s1 := Goto(s.(results := s.results + {(id, p)}), t, Has(id, p));
      if p.None? then s1
      else if p.value !in s.pros then Bad(s)
      else s1.(pros := s.pros[p.value := s.pros[p.value].(refs := s.pros[p.value].refs + 1)])
  }

  function Free(s: State, id: Id, l: nat): State
    requires id in s.entries
  {
    s.(lockers := s.lockers - {l}, entries := s.entries[id := s.entries[id].(locker := None)])
  }

  function DoLookup(s: State, t: Tid, id: Id): State {
    if id in s.entries then
      var l := s.entries[id].locker;
      if l.None? then Take(s, t, id)
      else if l.value !in s.lockers then Bad(s)
      else if s.lockers[l.value].done then Take(s, t, id)
      else
        var k := s.lockers[l.value];
        Goto(s.(lockers := s.lockers[l.value := k.(waiters := k.waiters + 1)]), t, Waiting(id, l.value))
    else
      var l := s.nextLocker;
      Goto(s.(entries := s.entries[id := Entry(None, Some(l), t)], lockers := s.lockers[l := Locker(id, 0, false)],
              nextLocker := l + 1, parses := s.parses + multiset{id}), t, Parsing(id, l))
  }

  /** A new ProFile has a reference of its own, and one more for the cache. */
  function DoParse(s: State, t: Tid, id: Id, l: nat, readable: bool): State {
    if readable then
      Goto(s.(pros := s.pros[s.nextPro := Pro(id, 2)], nextPro := s.nextPro + 1), t, Storing(id, l, Some(s.nextPro)))
    else Goto(s, t, Storing(id, l, None))
  }

  /** Without the mutex. */
  function DoStore(s: State, t: Tid, id: Id, l: nat, pro: Ptr): State {
    if id !in s.entries then Bad(s)
    else Goto(s.(entries := s.entries[id := s.entries[id].(pro := Some(pro))]), t, Stored(id, l, pro))
  }

  function WakeAll(threads: map<Tid, Pc>, l: nat): map<Tid, Pc> {
    map t | t in threads :: if threads[t].Waiting? && threads[t].l == l then Woken(threads[t].id, l) else threads[t]
  }

  function DoFinish(s: State, t: Tid, id: Id, pro: Ptr): State {
    if id !in s.entries || s.entries[id].locker.None? || s.entries[id].locker.value !in s.lockers then Bad(s)
    else
      var l := s.entries[id].locker.value;
      var s1 := s.(results := s.results + {(id, pro)});
      if s.lockers[l].waiters > 0 then
        Goto(s1.(lockers := s.lockers[l := s.lockers[l].(done := true)], threads := WakeAll(s.threads, l)), t, Has(id, pro))
      else Goto(Free(s1, id, l), t, Has(id, pro))
  }

  function DoWake(s: State, t: Tid, id: Id): State {
    if id !in s.entries || s.entries[id].locker.None? || s.entries[id].locker.value !in s.lockers then Bad(s)
    else
      var l := s.entries[id].locker.value;
      var k := s.lockers[l];
      if k.waiters == 0 then Bad(s)
      else
        Take(if k.waiters == 1 then Free(s, id, l) else s.(lockers := s.lockers[l := k.(waiters := k.waiters - 1)]), t, id)
  }

  /** The caller gives its reference back. */
  function DoRelease(s: State, t: Tid, pro: Ptr): State {
    if pro.None? then Goto(s, t, Idle)
    else if pro.value !in s.pros || s.pros[pro.value].refs == 0 then Bad(s)
    else
      var k := s.pros[pro.value];
      Goto(s.(pros := if k.refs == 1 then s.pros - {pro.value} else s.pros[pro.value := k.(refs := k.refs - 1)]), t, Idle)
  }

  function Step(s: State, a: Label): State
    requires Enabled(s, a)
  {
    var pc := s.threads[a.t];
    match a
    case Begin(t, id) => Goto(s, t, Wants(id))
    case Lookup(t) => DoLookup(s, t, pc.id)
    case Parse(t, readable) => DoParse(s, t, pc.id, pc.l, readable)
    case Store(t) => DoStore(s, t, pc.id, pc.l, pc.pro)
    case Finish(t) => DoFinish(s, t, pc.id, pc.pro)
    case Wake(t) => DoWake(s, t, pc.id)
    case Release(t) => DoRelease(s, t, pc.pro)
  }

  /** A run: None if some step was not enabled. */
  function Run(s: State, run: seq<Label>): Option<State>
    decreases run
  {
    if run == [] then Some(s)
    else if !Enabled(s, run[0]) then None
    else Run(Step(s, run[0]), run[1..])
  }

  /** An empty cache, and any number of threads that have not called yet. */
  function Init(tids: set<Tid>): State {
    State(map t | t in tids :: Idle, map[], map[], 0, map[], 0, multiset{}, {}, false)
  }

  // ----- counting threads -------------------------------------------------------------

  function Waiters(threads: map<Tid, Pc>, l: nat): set<Tid> { set t | t in threads && threads[t].WaitsOn(l) }

  function Holders(threads: map<Tid, Pc>, p: nat): set<Tid> { set t | t in threads && threads[t].Holds(p) }

  lemma {:induction false} WaitersGoto(threads: map<Tid, Pc>, t: Tid, pc: Pc, l: nat)
    requires t in threads
    ensures |Waiters(threads[t := pc], l)| ==
            |Waiters(threads, l)| - (if threads[t].WaitsOn(l) then 1 else 0) + (if pc.WaitsOn(l) then 1 else 0)
  {
    var a, b := Waiters(threads, l), Waiters(threads[t := pc], l);
    assert a - {t} == b - {t};
    assert |a - {t}| == |a| - (if t in a then 1 else 0);
    assert |b - {t}| == |b| - (if t in b then 1 else 0);
  }

  lemma {:induction false} HoldersGoto(threads: map<Tid, Pc>, t: Tid, pc: Pc, p: nat)
    requires t in threads
    ensures |Holders(threads[t := pc], p)| ==
            |Holders(threads, p)| - (if threads[t].Holds(p) then 1 else 0) + (if pc.Holds(p) then 1 else 0)
  {
    var a, b := Holders(threads, p), Holders(threads[t := pc], p);
    assert a - {t} == b - {t};
    assert |a - {t}| == |a| - (if t in a then 1 else 0);
    assert |b - {t}| == |b| - (if t in b then 1 else 0);
  }

  lemma {:induction false} WokenAlike(threads: map<Tid, Pc>, l: nat, k: nat)
    ensures Waiters(WakeAll(threads, l), k) == Waiters(threads, k)
    ensures Holders(WakeAll(threads, l), k) == Holders(threads, k)
  {
  }

  // ----- the invariant -------------------------------------------------------------------

  predicate OkThread(s: State, t: Tid)
    requires t in s.threads
  {
    match s.threads[t]
    case Idle => true
    case Wants(_) => true
    case Waiting(id, l) => id in s.entries && s.entries[id].locker == Some(l) && l in s.lockers && !s.lockers[l].done
    case Woken(id, l) => id in s.entries && s.entries[id].locker == Some(l) && l in s.lockers && s.lockers[l].done
    case Parsing(id, l) => OkFiller(s, t, id, l) && s.entries[id].pro == None
    case Storing(id, l, pro) => OkFiller(s, t, id, l) && s.entries[id].pro == None && OkPtr(s, id, pro)
    case Stored(id, l, pro) => OkFiller(s, t, id, l) && s.entries[id].pro == Some(pro) && OkPtr(s, id, pro)
    case Has(id, pro) => id in s.entries && s.entries[id].pro == Some(pro) && OkPtr(s, id, pro)
  }

  predicate OkPtr(s: State, id: Id, pro: Ptr) {
    pro.Some? ==> pro.value in s.pros && s.pros[pro.value].id == id
  }

  predicate OkFiller(s: State, t: Tid, id: Id, l: nat) {
    id in s.entries && s.entries[id].opener == t && s.entries[id].locker == Some(l) && l in s.lockers && !s.lockers[l].done
  }

  predicate OkEntry(s: State, id: Id)
    requires id in s.entries
  {
    var e := s.entries[id];
    && (e.pro.Some? ==> OkPtr(s, id, e.pro.value))
    && (e.locker.Some? ==> e.locker.value in s.lockers && s.lockers[e.locker.value].id == id)
    && (e.pro.None? ==> e.locker.Some? && !s.lockers[e.locker.value].done)
    && (e.locker.Some? && !s.lockers[e.locker.value].done ==>
          e.opener in s.threads && s.threads[e.opener].Fills() && s.threads[e.opener].id == id)
  }

  predicate OkLocker(s: State, l: nat)
    requires l in s.lockers
  {
    var k := s.lockers[l];
    && l < s.nextLocker && k.id in s.entries && s.entries[k.id].locker == Some(l)
    && k.waiters == |Waiters(s.threads, l)| && (k.done ==> k.waiters > 0)
  }

  /** One reference for the cache, and one for each call that has not given it back. */
  predicate OkPro(s: State, p: nat)
    requires p in s.pros
  {
    p < s.nextPro && s.pros[p].refs == 1 + |Holders(s.threads, p)|
  }

  ghost predicate OkHistory(s: State) {
    && (forall id :: s.parses[id] == if id in s.entries then 1 else 0)
    && (forall r | r in s.results :: r.0 in s.entries && s.entries[r.0].pro == Some(r.1))
  }

  ghost predicate Inv(s: State) {
    && !s.bad
    && (forall t | t in s.threads :: OkThread(s, t))
    && (forall id | id in s.entries :: OkEntry(s, id))
    && (forall l | l in s.lockers :: OkLocker(s, l))
    && (forall p | p in s.pros :: OkPro(s, p))
    && OkHistory(s)
  }

  // ----- preservation --------------------------------------------------------------------

  lemma {:induction false} NoWaiters(s: State, l: nat)
    requires forall t | t in s.threads :: OkThread(s, t)
    requires l !in s.lockers
    ensures Waiters(s.threads, l) == {}
  {
    forall t | t in s.threads ensures !s.threads[t].WaitsOn(l) {
      assert OkThread(s, t);
    }
  }

  lemma {:induction false} NoHolders(s: State, p: nat)
    requires forall t | t in s.threads :: OkThread(s, t)
    requires p !in s.pros
    ensures Holders(s.threads, p) == {}
  {
    forall t | t in s.threads ensures !s.threads[t].Holds(p) {
      assert OkThread(s, t);
    }
  }

  lemma {:induction false} GotoThreads(s: State, t: Tid, pc: Pc)
    requires Inv(s) && t in s.threads && (pc.Idle? || pc.Wants?)
    requires s.threads[t].Idle? || s.threads[t].Wants? || (s.threads[t].Has? && s.threads[t].pro.None?)
    ensures var s1 := Goto(s, t, pc);
            && (forall u | u in s1.threads :: OkThread(s1, u))
            && (forall i | i in s1.entries :: OkEntry(s1, i))
  {
    var s1 := Goto(s, t, pc);
    forall u | u in s1.threads ensures OkThread(s1, u) {
      assert OkThread(s, u);
    }
    forall id | id in s1.entries ensures OkEntry(s1, id) {
      assert OkEntry(s, id);
    }
  }

  /** A thread that changes only its own standing, and neither waits nor holds before or after. */
  lemma {:induction false} GotoInv(s: State, t: Tid, pc: Pc)
    requires Inv(s) && t in s.threads && (pc.Idle? || pc.Wants?)
    requires s.threads[t].Idle? || s.threads[t].Wants? || (s.threads[t].Has? && s.threads[t].pro.None?)
    ensures Inv(Goto(s, t, pc))
  {
    var s1 := Goto(s, t, pc);
    GotoThreads(s, t, pc);
    forall l | l in s1.lockers ensures OkLocker(s1, l) {
      assert OkLocker(s, l);
      WaitersGoto(s.threads, t, pc, l);
    }
    forall p | p in s1.pros ensures OkPro(s1, p) {
      assert OkPro(s, p);
      HoldersGoto(s.threads, t, pc, p);
    }
  }

  lemma {:induction false} TakeThreads(s: State, t: Tid, id: Id)
    requires Inv(s) && t in s.threads && s.threads[t] == Wants(id)
    requires id in s.entries && s.entries[id].pro.Some?
    ensures var s1 := Take(s, t, id);
            && (forall u | u in s1.threads :: OkThread(s1, u))
            && (forall i | i in s1.entries :: OkEntry(s1, i))
  {
    var p := s.entries[id].pro.value;
    var s1 := Take(s, t, id);
    assert OkEntry(s, id);
    forall u | u in s1.threads ensures OkThread(s1, u) {
      assert OkThread(s, u);
    }
    forall i | i in s1.entries ensures OkEntry(s1, i) {
      assert OkEntry(s, i);
    }
  }

  lemma {:induction false} TakeInv(s: State, t: Tid, id: Id)
    requires Inv(s) && t in s.threads && s.threads[t] == Wants(id)
    requires id in s.entries && s.entries[id].pro.Some?
    ensures Inv(Take(s, t, id))
  {
    var p := s.entries[id].pro.value;
    var s1 := Take(s, t, id);
    assert OkEntry(s, id);
    TakeThreads(s, t, id);
    forall l | l in s1.lockers ensures OkLocker(s1, l) {
      assert OkLocker(s, l);
      WaitersGoto(s.threads, t, Has(id, p), l);
    }
    forall q | q in s1.pros ensures OkPro(s1, q) {
      assert OkPro(s, q);
      HoldersGoto(s.threads, t, Has(id, p), q);
    }
  }

  lemma {:induction false} WaitThreads(s: State, t: Tid, id: Id, l: nat)
    requires Inv(s) && t in s.threads && s.threads[t] == Wants(id)
    requires id in s.entries && s.entries[id].locker == Some(l) && l in s.lockers && !s.lockers[l].done
    ensures var s1 := DoLookup(s, t, id);
            && (forall u | u in s1.threads :: OkThread(s1, u))
            && (forall i | i in s1.entries :: OkEntry(s1, i))
  {
    var s1 := DoLookup(s, t, id);
    forall u | u in s1.threads ensures OkThread(s1, u) {
      assert OkThread(s, u);
    }
    forall i | i in s1.entries ensures OkEntry(s1, i) {
      assert OkEntry(s, i);
    }
  }

  lemma {:induction false} WaitInv(s: State, t: Tid, id: Id, l: nat)
    requires Inv(s) && t in s.threads && s.threads[t] == Wants(id)
    requires id in s.entries && s.entries[id].locker == Some(l) && l in s.lockers && !s.lockers[l].done
    ensures Inv(DoLookup(s, t, id))
  {
    var s1 := DoLookup(s, t, id);
    WaitThreads(s, t, id, l);
    forall k | k in s1.lockers ensures OkLocker(s1, k) {
      assert OkLocker(s, k);
      WaitersGoto(s.threads, t, Waiting(id, l), k);
    }
    forall q | q in s1.pros ensures OkPro(s1, q) {
      assert OkPro(s, q);
      HoldersGoto(s.threads, t, Waiting(id, l), q);
    }
  }

  lemma {:induction false} OpenThreads(s: State, t: Tid, id: Id)
    requires Inv(s) && t in s.threads && s.threads[t] == Wants(id) && id !in s.entries
    ensures var s1 := DoLookup(s, t, id);
            && (forall u | u in s1.threads :: OkThread(s1, u))
            && (forall i | i in s1.entries :: OkEntry(s1, i))
  {
    var s1 := DoLookup(s, t, id);
    var n := s.nextLocker;
    assert n in s.lockers ==> OkLocker(s, n);
    forall u | u in s1.threads ensures OkThread(s1, u) {
      assert OkThread(s, u);
    }
    forall i | i in s1.entries ensures OkEntry(s1, i) {
      if i != id { assert OkEntry(s, i); }
    }
  }

  lemma {:induction false} OpenInv(s: State, t: Tid, id: Id)
    requires Inv(s) && t in s.threads && s.threads[t] == Wants(id) && id !in s.entries
    ensures Inv(DoLookup(s, t, id))
  {
    var s1 := DoLookup(s, t, id);
    var n := s.nextLocker;
    assert n in s.lockers ==> OkLocker(s, n);
    NoWaiters(s, n);
    OpenThreads(s, t, id);
    forall k | k in s1.lockers ensures OkLocker(s1, k) {
      if k != n { assert OkLocker(s, k); }
      WaitersGoto(s.threads, t, Parsing(id, n), k);
    }
    forall q | q in s1.pros ensures OkPro(s1, q) {
      assert OkPro(s, q);
      HoldersGoto(s.threads, t, Parsing(id, n), q);
    }
  }

  lemma {:induction false} LookupInv(s: State, t: Tid, id: Id)
    requires Inv(s) && t in s.threads && s.threads[t] == Wants(id)
    ensures Inv(DoLookup(s, t, id))
  {
    if id in s.entries {
      assert OkEntry(s, id);
      var l := s.entries[id].locker;
      if l.Some? && !s.lockers[l.value].done {
        WaitInv(s, t, id, l.value);
      } else {
        TakeInv(s, t, id);
      }
    } else {
      OpenInv(s, t, id);
    }
  }

  lemma {:induction false} ParseThreads(s: State, t: Tid, id: Id, l: nat, readable: bool)
    requires Inv(s) && t in s.threads && s.threads[t] == Parsing(id, l)
    ensures var s1 := DoParse(s, t, id, l, readable);
            && (forall u | u in s1.threads :: OkThread(s1, u))
            && (forall i | i in s1.entries :: OkEntry(s1, i))
  {
    var s1 := DoParse(s, t, id, l, readable);
    var n := s.nextPro;
    var pc := s1.threads[t];
    assert n in s.pros ==> OkPro(s, n);
    forall u | u in s1.threads ensures OkThread(s1, u) {
      assert OkThread(s, u);
    }
    forall i | i in s1.entries ensures OkEntry(s1, i) {
      assert OkEntry(s, i);
    }
  }

  lemma {:induction false} ParseInv(s: State, t: Tid, id: Id, l: nat, readable: bool)
    requires Inv(s) && t in s.threads && s.threads[t] == Parsing(id, l)
    ensures Inv(DoParse(s, t, id, l, readable))
  {
    var s1 := DoParse(s, t, id, l, readable);
    var n := s.nextPro;
    var pc := s1.threads[t];
    assert n in s.pros ==> OkPro(s, n);
    NoHolders(s, n);
    ParseThreads(s, t, id, l, readable);
    forall k | k in s1.lockers ensures OkLocker(s1, k) {
      assert OkLocker(s, k);
      WaitersGoto(s.threads, t, pc, k);
    }
    forall q | q in s1.pros ensures OkPro(s1, q) {
      if q != n { assert OkPro(s, q); }
      HoldersGoto(s.threads, t, pc, q);
    }
  }

  lemma {:induction false} StoreThreads(s: State, t: Tid, id: Id, l: nat, pro: Ptr)
    requires Inv(s) && t in s.threads && s.threads[t] == Storing(id, l, pro)
    ensures var s1 := DoStore(s, t, id, l, pro);
            && (forall u | u in s1.threads :: OkThread(s1, u))
            && (forall i | i in s1.entries :: OkEntry(s1, i))
  {
    var s1 := DoStore(s, t, id, l, pro);
    assert OkThread(s, t);
    forall u | u in s1.threads ensures OkThread(s1, u) {
      assert OkThread(s, u);
    }
    forall i | i in s1.entries ensures OkEntry(s1, i) {
      assert OkEntry(s, i);
    }
  }

  lemma {:induction false} StoreInv(s: State, t: Tid, id: Id, l: nat, pro: Ptr)
    requires Inv(s) && t in s.threads && s.threads[t] == Storing(id, l, pro)
    ensures Inv(DoStore(s, t, id, l, pro))
  {
    var s1 := DoStore(s, t, id, l, pro);
    assert OkThread(s, t);
    StoreThreads(s, t, id, l, pro);
    forall k | k in s1.lockers ensures OkLocker(s1, k) {
      assert OkLocker(s, k);
      WaitersGoto(s.threads, t, Stored(id, l, pro), k);
    }
    forall q | q in s1.pros ensures OkPro(s1, q) {
      assert OkPro(s, q);
      HoldersGoto(s.threads, t, Stored(id, l, pro), q);
    }
  }

  // The last step of a filling thread, one object at a time.

  predicate AtFinish(s: State, t: Tid, id: Id, l: nat, pro: Ptr) {
    t in s.threads && s.threads[t] == Stored(id, l, pro) && OkThread(s, t) && OkLocker(s, l) && OkEntry(s, id)
  }

  lemma {:induction false} FinishThread(s: State, t: Tid, id: Id, l: nat, pro: Ptr, u: Tid)
    requires AtFinish(s, t, id, l, pro) && u in s.threads && OkThread(s, u)
    requires !s.threads[u].Idle? && s.threads[u].id in s.entries ==> OkEntry(s, s.threads[u].id)
    ensures u in DoFinish(s, t, id, pro).threads && OkThread(DoFinish(s, t, id, pro), u)
  {
    var w := Waiters(s.threads, l);
    assert s.lockers[l].waiters == 0 ==> w == {} && u !in w;
    hide Holders;
  }

  lemma {:induction false} FinishEntry(s: State, t: Tid, id: Id, l: nat, pro: Ptr, i: Id)
    requires AtFinish(s, t, id, l, pro) && i in s.entries && OkEntry(s, i)
    ensures i in DoFinish(s, t, id, pro).entries && OkEntry(DoFinish(s, t, id, pro), i)
  {
    hide Waiters, Holders;
  }

  lemma {:induction false} FinishCounts(s: State, t: Tid, id: Id, l: nat, pro: Ptr, k: nat)
    requires AtFinish(s, t, id, l, pro)
    ensures |Waiters(DoFinish(s, t, id, pro).threads, k)| == |Waiters(s.threads, k)|
    ensures |Holders(DoFinish(s, t, id, pro).threads, k)| == |Holders(s.threads, k)|
  {
    var woken := if s.lockers[l].waiters > 0 then WakeAll(s.threads, l) else s.threads;
    WokenAlike(s.threads, l, k);
    WaitersGoto(woken, t, Has(id, pro), k);
    HoldersGoto(woken, t, Has(id, pro), k);
    hide Waiters, Holders;
  }

  lemma {:induction false} FinishLocker(s: State, t: Tid, id: Id, l: nat, pro: Ptr, k: nat)
    requires AtFinish(s, t, id, l, pro) && k in s.lockers && OkLocker(s, k)
    ensures var s1 := DoFinish(s, t, id, pro); k in s1.lockers ==> OkLocker(s1, k)
  {
    FinishCounts(s, t, id, l, pro, k);
    hide Waiters, Holders;
  }

  lemma {:induction false} FinishInv(s: State, t: Tid, id: Id, l: nat, pro: Ptr)
    requires Inv(s) && t in s.threads && s.threads[t] == Stored(id, l, pro)
    ensures Inv(DoFinish(s, t, id, pro))
  {
    hide OkThread, OkEntry, OkLocker, OkPro, Holders, Waiters, OkPtr, DoFinish;
    assert AtFinish(s, t, id, l, pro) by { Filler(s, t, id, l); }
    var s1 := DoFinish(s, t, id, pro);
    FinishRest(s, t, id, l, pro);
    forall u | u in s1.threads ensures OkThread(s1, u) { FinishThread(s, t, id, l, pro, u); }
    forall i | i in s1.entries ensures OkEntry(s1, i) { FinishEntry(s, t, id, l, pro, i); }
    forall k | k in s1.lockers ensures OkLocker(s1, k) { FinishLocker(s, t, id, l, pro, k); }
    forall p | p in s1.pros ensures OkPro(s1, p) { FinishPro(s, t, id, l, pro, p); }
  }

  lemma {:induction false} Filler(s: State, t: Tid, id: Id, l: nat)
    requires t in s.threads && OkThread(s, t) && s.threads[t].Stored? && s.threads[t].l == l
    ensures l in s.lockers && s.threads[t].id in s.entries
  {
  }

  lemma {:induction false} FinishPro(s: State, t: Tid, id: Id, l: nat, pro: Ptr, p: nat)
    requires AtFinish(s, t, id, l, pro) && p in s.pros && OkPro(s, p)
    ensures var s1 := DoFinish(s, t, id, pro); p in s1.pros && OkPro(s1, p)
  {
    FinishCounts(s, t, id, l, pro, p);
    hide Waiters, Holders;
  }

  /** The parts of the state the step leaves as they were. */
  lemma {:induction false} FinishRest(s: State, t: Tid, id: Id, l: nat, pro: Ptr)
    requires AtFinish(s, t, id, l, pro) && !s.bad && OkHistory(s)
    ensures var s1 := DoFinish(s, t, id, pro);
            && !s1.bad && OkHistory(s1) && s1.threads.Keys == s.threads.Keys && s1.entries.Keys == s.entries.Keys
            && s1.pros == s.pros && s1.lockers.Keys <= s.lockers.Keys
  {
    hide Waiters, Holders;
  }

  // A thread that wakes up.

  /** The thread that was woken, no longer waiting and about to take its reference. */
  function Unwait(s: State, t: Tid, id: Id, l: nat): State
    requires id in s.entries && l in s.lockers && s.lockers[l].waiters > 0
  {
    var k := s.lockers[l];
    Goto(if k.waiters == 1 then Free(s, id, l) else s.(lockers := s.lockers[l := k.(waiters := k.waiters - 1)]), t, Wants(id))
  }

  predicate AtWake(s: State, t: Tid, id: Id, l: nat) {
    && t in s.threads && s.threads[t] == Woken(id, l) && OkThread(s, t) && OkLocker(s, l) && s.lockers[l].waiters > 0
    && OkEntry(s, id)
  }

  lemma {:induction false} UnwaitThread(s: State, t: Tid, id: Id, l: nat, u: Tid)
    requires AtWake(s, t, id, l) && u in s.threads && OkThread(s, u)
    ensures OkThread(Unwait(s, t, id, l), u)
  {
    if s.lockers[l].waiters == 1 && u != t {
      var w := Waiters(s.threads, l);
      assert t in w;
      assert |w - {t}| == 0;
      assert u !in w - {t};
    }
    hide Holders;
  }

  lemma {:induction false} UnwaitEntry(s: State, t: Tid, id: Id, l: nat, i: Id)
    requires AtWake(s, t, id, l) && i in s.entries && OkEntry(s, i)
    ensures OkEntry(Unwait(s, t, id, l), i)
  {
    hide Waiters, Holders;
  }

  lemma {:induction false} UnwaitLocker(s: State, t: Tid, id: Id, l: nat, k: nat)
    requires AtWake(s, t, id, l) && k in s.lockers && OkLocker(s, k)
    ensures var s1 := Unwait(s, t, id, l); k in s1.lockers ==> OkLocker(s1, k)
  {
    WaitersGoto(s.threads, t, Wants(id), k);
    hide Waiters, Holders;
  }

  lemma {:induction false} UnwaitPro(s: State, t: Tid, id: Id, l: nat, p: nat)
    requires AtWake(s, t, id, l) && p in s.pros && OkPro(s, p)
    ensures OkPro(Unwait(s, t, id, l), p)
  {
    HoldersGoto(s.threads, t, Wants(id), p);
    hide Waiters, Holders;
  }

  lemma {:induction false} UnwaitRest(s: State, t: Tid, id: Id, l: nat)
    requires AtWake(s, t, id, l) && !s.bad && OkHistory(s)
    ensures var s1 := Unwait(s, t, id, l);
            && !s1.bad && OkHistory(s1) && s1.threads.Keys == s.threads.Keys && s1.entries.Keys == s.entries.Keys
            && s1.pros == s.pros && s1.lockers.Keys <= s.lockers.Keys
    ensures s.entries[id].pro.Some? && DoWake(s, t, id) == Take(Unwait(s, t, id, l), t, id)
  {
    var p := s.entries[id].pro.value;
    assert s.threads[t := Wants(id)][t := Has(id, p)] == s.threads[t := Has(id, p)];
    hide Waiters, Holders;
  }

  lemma {:induction false} WakeReady(s: State, t: Tid, id: Id, l: nat)
    requires Inv(s) && t in s.threads && s.threads[t] == Woken(id, l)
    ensures AtWake(s, t, id, l)
  {
    assert OkThread(s, t) && OkLocker(s, l) && OkEntry(s, id);
  }

  lemma {:induction false} WakeInv(s: State, t: Tid, id: Id, l: nat)
    requires Inv(s) && t in s.threads && s.threads[t] == Woken(id, l)
    ensures Inv(DoWake(s, t, id))
  {
    WakeReady(s, t, id, l);
    hide OkThread, OkEntry, OkLocker, OkPro, Holders, Waiters, OkPtr, DoWake, Take;
    UnwaitRest(s, t, id, l);
    var s1 := Unwait(s, t, id, l);
    forall u | u in s1.threads ensures OkThread(s1, u) { UnwaitThread(s, t, id, l, u); }
    forall i | i in s1.entries ensures OkEntry(s1, i) { UnwaitEntry(s, t, id, l, i); }
    forall k | k in s1.lockers ensures OkLocker(s1, k) { UnwaitLocker(s, t, id, l, k); }
    forall p | p in s1.pros ensures OkPro(s1, p) { UnwaitPro(s, t, id, l, p); }
    TakeInv(s1, t, id);
  }

  lemma {:induction false} ReleaseInv(s: State, t: Tid, id: Id, p: nat)
    requires Inv(s) && t in s.threads && s.threads[t] == Has(id, Some(p))
    ensures Inv(DoRelease(s, t, Some(p)))
  {
    assert OkThread(s, t) && OkPro(s, p);
    assert t in Holders(s.threads, p);
    var s1 := DoRelease(s, t, Some(p));
    forall u | u in s1.threads ensures OkThread(s1, u) {
      assert OkThread(s, u);
    }
    forall i | i in s1.entries ensures OkEntry(s1, i) {
      assert OkEntry(s, i);
    }
    forall k | k in s1.lockers ensures OkLocker(s1, k) {
      assert OkLocker(s, k);
      WaitersGoto(s.threads, t, Idle, k);
    }
    forall q | q in s1.pros ensures OkPro(s1, q) {
      assert OkPro(s, q);
      HoldersGoto(s.threads, t, Idle, q);
    }
  }

  /** Every step keeps the invariant. */
  lemma {:induction false} StepInv(s: State, a: Label)
    requires Inv(s) && Enabled(s, a)
    ensures Inv(Step(s, a))
  {
    hide Inv;
    var pc := s.threads[a.t];
    match a
    case Begin(t, id) => GotoInv(s, t, Wants(id));
    case Lookup(t) => LookupInv(s, t, pc.id);
    case Parse(t, readable) => ParseInv(s, t, pc.id, pc.l, readable);
    case Store(t) => StoreInv(s, t, pc.id, pc.l, pc.pro);
    case Finish(t) => FinishInv(s, t, pc.id, pc.l, pc.pro);
    case Wake(t) => WakeInv(s, t, pc.id, pc.l);
    case Release(t) =>
      if pc.pro.None? { GotoInv(s, t, Idle); } else { ReleaseInv(s, t, pc.id, pc.pro.value); }
  }

  lemma {:induction false} RunInv(s: State, run: seq<Label>)
    requires Inv(s) && Run(s, run).Some?
    ensures Inv(Run(s, run).value)
    decreases run
  {
    if run != [] {
      StepInv(s, run[0]);
      RunInv(Step(s, run[0]), run[1..]);
    }
  }

  // ----- the main results ------------------------------------------------------------------

  /** After every interleaving: no step has read an entry before its file was stored or touched a freed Locker or
      ProFile, no file has been parsed twice, all calls for a file have returned the same ProFile, and a ProFile has
      one reference for the cache and one for each holder. */
  lemma {:induction false} CacheIsSafe(tids: set<Tid>, run: seq<Label>)
    requires Run(Init(tids), run).Some?
    ensures var s := Run(Init(tids), run).value;
            && !s.bad
            && (forall id :: s.parses[id] <= 1)
            && (forall q, r | q in s.results && r in s.results && q.0 == r.0 :: q.1 == r.1)
            && (forall p | p in s.pros :: s.pros[p].refs == 1 + |Holders(s.threads, p)|)
            && (forall t | t in s.threads && s.threads[t].Has? && s.threads[t].pro.Some? :: s.threads[t].pro.value in s.pros)
  {
    RunInv(Init(tids), run);
    var s := Run(Init(tids), run).value;
    forall p | p in s.pros ensures s.pros[p].refs == 1 + |Holders(s.threads, p)| {
      assert OkPro(s, p);
    }
    forall t | t in s.threads && s.threads[t].Has? && s.threads[t].pro.Some? ensures s.threads[t].pro.value in s.pros {
      assert OkThread(s, t);
    }
  }

  // ----- what a call returns -----------------------------------------------------------------

  /** Which files could be read, by what their parse steps say. */
  function Note(read: map<Id, bool>, s: State, a: Label): map<Id, bool>
    requires Enabled(s, a)
  {
    if a.Parse? then read[s.threads[a.t].id := a.readable] else read
  }

  function ReadIn(s: State, run: seq<Label>, read: map<Id, bool>): map<Id, bool>
    decreases run
  {
    if run == [] || !Enabled(s, run[0]) then read else ReadIn(Step(s, run[0]), run[1..], Note(read, s, run[0]))
  }

  /** A ProFile for a file that was read, null for one that could not be read. */
  predicate Fits(read: map<Id, bool>, id: Id, pro: Ptr) { id in read && (pro.Some? <==> read[id]) }

  predicate ThreadFits(read: map<Id, bool>, pc: Pc) { pc.Storing? || pc.Stored? || pc.Has? ==> Fits(read, pc.id, pc.pro) }

  predicate EntryFits(read: map<Id, bool>, s: State, id: Id)
    requires id in s.entries
  {
    s.entries[id].pro.Some? ==> Fits(read, id, s.entries[id].pro.value)
  }

  ghost predicate AllFit(read: map<Id, bool>, s: State) {
    && (forall t | t in s.threads :: ThreadFits(read, s.threads[t]))
    && (forall id | id in s.entries :: EntryFits(read, s, id))
    && (forall r | r in s.results :: Fits(read, r.0, r.1))
  }

  lemma {:induction false} TakeFits(read: map<Id, bool>, s: State, t: Tid, id: Id)
    requires AllFit(read, s) && t in s.threads
    ensures AllFit(read, Take(s, t, id))
  {
    assert id in s.entries ==> EntryFits(read, s, id);
  }

  lemma {:induction false} LookupFits(read: map<Id, bool>, s: State, t: Tid, id: Id)
    requires AllFit(read, s) && t in s.threads
    ensures AllFit(read, DoLookup(s, t, id))
  {
    BadFits(read, s);
    hide Take, AllFit;
    if id in s.entries {
      TakeFits(read, s, t, id);
      var l := s.entries[id].locker;
      if l.Some? && l.value in s.lockers {
        var k := s.lockers[l.value];
        NewFits(read, s, s.entries, s.lockers[l.value := k.(waiters := k.waiters + 1)], s.nextLocker, s.parses, t,
                Waiting(id, l.value));
      }
    } else {
      var l := s.nextLocker;
      NewFits(read, s, s.entries[id := Entry(None, Some(l), t)], s.lockers[l := Locker(id, 0, false)], l + 1,
              s.parses + multiset{id}, t, Parsing(id, l));
    }
  }

  lemma {:induction false} BadFits(read: map<Id, bool>, s: State)
    ensures AllFit(read, s) ==> AllFit(read, Bad(s))
  {
    assert forall id | id in s.entries && EntryFits(read, s, id) :: EntryFits(read, Bad(s), id);
  }

  /** A thread waits or parses, and what is stored stays. */
  lemma {:induction false} NewFits(read: map<Id, bool>, s: State, entries: map<Id, Entry>, lockers: map<nat, Locker>, next: nat,
                                   parses: multiset<Id>, t: Tid, pc: Pc)
    requires AllFit(read, s) && t in s.threads && (pc.Waiting? || pc.Parsing?)
    requires forall i | i in entries :: entries[i].pro.None? || (i in s.entries && entries[i] == s.entries[i])
    ensures AllFit(read, Goto(s.(entries := entries, lockers := lockers, nextLocker := next, parses := parses), t, pc))
  {
    var s1 := Goto(s.(entries := entries, lockers := lockers, nextLocker := next, parses := parses), t, pc);
    forall i | i in s1.entries ensures EntryFits(read, s1, i) {
      assert i in s.entries ==> EntryFits(read, s, i);
    }
  }

  lemma {:induction false} WakeFits(read: map<Id, bool>, s: State, t: Tid, id: Id)
    requires AllFit(read, s) && t in s.threads
    ensures AllFit(read, DoWake(s, t, id))
  {
    if id in s.entries && s.entries[id].locker.Some? && s.entries[id].locker.value in s.lockers {
      var l := s.entries[id].locker.value;
      var k := s.lockers[l];
      var s1 := if k.waiters == 1 then Free(s, id, l) else if k.waiters == 0 then s
                else s.(lockers := s.lockers[l := k.(waiters := k.waiters - 1)]);
      assert AllFit(read, s1) by {
        forall i | i in s1.entries ensures EntryFits(read, s1, i) {
          assert EntryFits(read, s, i);
        }
      }
      TakeFits(read, s1, t, id);
    }
    hide Take;
  }

  /** A file is parsed when nobody has it yet. */
  lemma {:induction false} ParseFits(read: map<Id, bool>, s: State, t: Tid, id: Id, l: nat, readable: bool)
    requires Inv(s) && AllFit(read, s) && t in s.threads && s.threads[t] == Parsing(id, l)
    ensures AllFit(read[id := readable], DoParse(s, t, id, l, readable))
  {
    var s1, read1 := DoParse(s, t, id, l, readable), read[id := readable];
    assert OkThread(s, t);
    forall u | u in s1.threads ensures ThreadFits(read1, s1.threads[u]) {
      assert u != t ==> OkThread(s, u) && ThreadFits(read, s.threads[u]);
    }
    forall i | i in s1.entries ensures EntryFits(read1, s1, i) {
      assert EntryFits(read, s, i);
    }
    forall r | r in s1.results ensures Fits(read1, r.0, r.1) {
      assert Fits(read, r.0, r.1);
    }
  }

  lemma {:induction false} StoreFits(read: map<Id, bool>, s: State, t: Tid, id: Id, l: nat, pro: Ptr)
    requires AllFit(read, s) && t in s.threads && Fits(read, id, pro)
    ensures AllFit(read, DoStore(s, t, id, l, pro))
  {
    var s1 := DoStore(s, t, id, l, pro);
    forall i | i in s1.entries ensures EntryFits(read, s1, i) {
      assert EntryFits(read, s, i);
    }
  }

  lemma {:induction false} FinishFits(read: map<Id, bool>, s: State, t: Tid, id: Id, pro: Ptr)
    requires AllFit(read, s) && t in s.threads && Fits(read, id, pro)
    ensures AllFit(read, DoFinish(s, t, id, pro))
  {
    var s1 := DoFinish(s, t, id, pro);
    forall i | i in s1.entries ensures EntryFits(read, s1, i) {
      assert EntryFits(read, s, i);
    }
    forall u | u in s1.threads ensures ThreadFits(read, s1.threads[u]) {
      assert ThreadFits(read, s.threads[u]);
    }
  }

  lemma {:induction false} ReleaseFits(read: map<Id, bool>, s: State, t: Tid, pro: Ptr)
    requires AllFit(read, s) && t in s.threads
    ensures AllFit(read, DoRelease(s, t, pro))
  {
  }

  lemma {:induction false} BeginFits(read: map<Id, bool>, s: State, t: Tid, id: Id)
    requires AllFit(read, s) && t in s.threads
    ensures AllFit(read, Goto(s, t, Wants(id)))
  {
  }

  lemma {:induction false} StepFits(read: map<Id, bool>, s: State, a: Label)
    requires Inv(s) && AllFit(read, s) && Enabled(s, a)
    ensures AllFit(Note(read, s, a), Step(s, a))
  {
    var pc := s.threads[a.t];
    assert ThreadFits(read, pc);
    hide Inv, AllFit, Goto, DoLookup, DoParse, DoStore, DoFinish, DoWake, DoRelease;
    match a
    case Begin(t, id) => BeginFits(read, s, t, id);
    case Lookup(t) => LookupFits(read, s, t, pc.id);
    case Parse(t, readable) => ParseFits(read, s, t, pc.id, pc.l, readable);
    case Store(t) => StoreFits(read, s, t, pc.id, pc.l, pc.pro);
    case Finish(t) => FinishFits(read, s, t, pc.id, pc.pro);
    case Wake(t) => WakeFits(read, s, t, pc.id);
    case Release(t) => ReleaseFits(read, s, t, pc.pro);
  }

  lemma {:induction false} RunFits(read: map<Id, bool>, s: State, run: seq<Label>)
    requires Inv(s) && AllFit(read, s) && Run(s, run).Some?
    ensures AllFit(ReadIn(s, run, read), Run(s, run).value)
    decreases run
  {
    if run != [] {
      StepInv(s, run[0]);
      StepFits(read, s, run[0]);
      hide Inv, AllFit, Step, Enabled;
      RunFits(Note(read, s, run[0]), Step(s, run[0]), run[1..]);
    }
  }

  /** After every interleaving, a call for a file has returned a ProFile if the file was read, and null if it could not be
      read: what the one thread found that parsed it. */
  lemma {:induction false} CallsReturnWhatWasRead(tids: set<Tid>, run: seq<Label>)
    requires Run(Init(tids), run).Some?
    ensures forall r | r in Run(Init(tids), run).value.results ::
              r.0 in ReadIn(Init(tids), run, map[]) && (r.1.Some? <==> ReadIn(Init(tids), run, map[])[r.0])
  {
    RunFits(map[], Init(tids), run);
    hide Inv, Run, ReadIn;
  }

  /** A Locker that is alive has a thread that fills its entry, or one that waits. */
  lemma {:induction false} Abandoned(s: State, l: nat)
    requires Inv(s) && l in s.lockers
    ensures var k := s.lockers[l];
            || Waiters(s.threads, l) != {}
            || (k.id in s.entries && s.entries[k.id].opener in s.threads && s.threads[s.entries[k.id].opener].Fills())
  {
    assert OkLocker(s, l) && OkEntry(s, s.lockers[l].id);
  }

  /** Once no call is under way, every Locker ever created has been freed, and each only once. */
  lemma {:induction false} LockersAreFreed(tids: set<Tid>, run: seq<Label>)
    requires Run(Init(tids), run).Some?
    requires forall t :: t in Run(Init(tids), run).value.threads ==>
               var pc := Run(Init(tids), run).value.threads[t]; pc.Idle? || pc.Wants? || pc.Has?
    ensures var s := Run(Init(tids), run).value;
            && !s.bad && s.lockers == map[]
            && (forall id | id in s.entries :: s.entries[id].locker == None)
  {
    RunInv(Init(tids), run);
    var s := Run(Init(tids), run).value;
    forall l ensures l !in s.lockers {
      assert Waiters(s.threads, l) == {};
      if l in s.lockers {
        Abandoned(s, l);
      }
    }
    forall id | id in s.entries ensures s.entries[id].locker == None {
      assert OkEntry(s, id);
    }
  }

  /** No lost wakeup: while a call waits, the thread that will wake it is on its way and can take its next step. */
  lemma {:induction false} NoLostWakeup(tids: set<Tid>, run: seq<Label>, t: Tid)
    requires Run(Init(tids), run).Some?
    requires var s := Run(Init(tids), run).value; t in s.threads && s.threads[t].Waiting?
    ensures var s := Run(Init(tids), run).value;
            && s.threads[t].id in s.entries
            && var u := s.entries[s.threads[t].id].opener;
               && u in s.threads && s.threads[u].Fills() && s.threads[u].id == s.threads[t].id
               && (Enabled(s, Parse(u, true)) || Enabled(s, Store(u)) || Enabled(s, Finish(u)))
  {
    RunInv(Init(tids), run);
    var s := Run(Init(tids), run).value;
    assert OkThread(s, t) && OkEntry(s, s.threads[t].id);
  }

  // ----- every call returns -------------------------------------------------------------------

  predicate InCall(s: State, t: Tid) { t in s.threads && !s.threads[t].Idle? && !s.threads[t].Has? }

  /** The thread whose steps bring the call of `t` on: its own, or while it waits the one that fills the entry. */
  function Helper(s: State, t: Tid): Tid
    requires InCall(s, t)
  {
    var pc := s.threads[t];
    if pc.Waiting? && pc.id in s.entries then s.entries[pc.id].opener else t
  }

  /** How many steps a call takes at most, those of other threads aside. */
  function StepsOf(pc: Pc): nat {
    match pc
    case Wants(_) => 5
    case Parsing(_, _) => 3
    case Storing(_, _, _) => 2
    case Stored(_, _, _) => 1
    case Waiting(_, _) => 1
    case Woken(_, _) => 1
    case _ => 0
  }

  /** How many steps of its helpers are left of a call. */
  function StepsLeft(s: State, t: Tid): nat {
    if !InCall(s, t) then 0
    else
      var u := Helper(s, t);
      StepsOf(s.threads[t]) + if u != t && u in s.threads then StepsOf(s.threads[u]) else 0
  }

  /** The step that the helper can take. */
  function NextStep(s: State, t: Tid): Label
    requires InCall(s, t) && Helper(s, t) in s.threads
  {
    var u := Helper(s, t);
    match s.threads[u]
    case Wants(_) => Lookup(u)
    case Parsing(_, _) => Parse(u, true)
    case Storing(_, _, _) => Store(u)
    case Stored(_, _, _) => Finish(u)
    case _ => Wake(u)
  }

  lemma {:induction false} HelperReady(s: State, t: Tid)
    requires Inv(s) && InCall(s, t)
    ensures var u := Helper(s, t);
            && u in s.threads && (u != t ==> s.threads[u].Fills() && s.threads[u].id == s.threads[t].id)
            && NextStep(s, t).t == u && Enabled(s, NextStep(s, t)) && StepsLeft(s, t) <= 5
  {
    assert OkThread(s, t);
    if s.threads[t].Waiting? {
      assert OkEntry(s, s.threads[t].id);
    }
  }

  /** What a step relies on that concerns the call of `t`. */
  predicate Concerns(s: State, a: Label, t: Tid) {
    && InCall(s, t) && Enabled(s, a) && OkThread(s, t) && OkThread(s, a.t)
    && (s.threads[t].id in s.entries ==> OkEntry(s, s.threads[t].id))
    && (!s.threads[a.t].Idle? && s.threads[a.t].id in s.entries ==> OkEntry(s, s.threads[a.t].id))
    && (s.threads[t].Waiting? && s.threads[t].l in s.lockers ==> s.lockers[s.threads[t].l].waiters > 0)
    && Helper(s, t) in s.threads
  }

  /** Another thread stays where it is, and what another entry was opened by. */
  predicate Stays(s: State, s1: State, t: Tid, u: Tid, id: Id) {
    && (u in s.threads && u != t ==> u in s1.threads && s1.threads[u] == s.threads[u])
    && (id in s.entries ==> id in s1.entries && s1.entries[id].opener == s.entries[id].opener)
  }

  lemma {:induction false} TakeStays(s: State, t: Tid, i: Id, u: Tid, id: Id)
    ensures Stays(s, Take(s, t, i), t, u, id)
  {
  }

  lemma {:induction false} LookupStays(s: State, t: Tid, i: Id, u: Tid, id: Id)
    ensures Stays(s, DoLookup(s, t, i), t, u, id)
  {
    TakeStays(s, t, i, u, id);
    hide Take;
  }

  lemma {:induction false} ParseStays(s: State, t: Tid, i: Id, l: nat, readable: bool, u: Tid, id: Id)
    ensures Stays(s, DoParse(s, t, i, l, readable), t, u, id)
  {
  }

  lemma {:induction false} StoreStays(s: State, t: Tid, i: Id, l: nat, pro: Ptr, u: Tid, id: Id)
    ensures Stays(s, DoStore(s, t, i, l, pro), t, u, id)
  {
  }

  lemma {:induction false} WakeStays(s: State, t: Tid, i: Id, u: Tid, id: Id)
    ensures Stays(s, DoWake(s, t, i), t, u, id)
  {
    if i in s.entries && s.entries[i].locker.Some? && s.entries[i].locker.value in s.lockers {
      var l := s.entries[i].locker.value;
      var k := s.lockers[l];
      if k.waiters > 0 {
        TakeStays(if k.waiters == 1 then Free(s, i, l) else s.(lockers := s.lockers[l := k.(waiters := k.waiters - 1)]), t, i,
                  u, id);
      }
    }
    hide Take;
  }

  lemma {:induction false} ReleaseStays(s: State, t: Tid, pro: Ptr, u: Tid, id: Id)
    ensures Stays(s, DoRelease(s, t, pro), t, u, id)
  {
  }

  /** The end of a fill wakes the threads that wait on its Locker, and no other. */
  lemma {:induction false} FinishWakes(s: State, t: Tid, i: Id, pro: Ptr, u: Tid)
    requires u in s.threads && u != t
    ensures var now := DoFinish(s, t, i, pro).threads;
            u in now && if Wakes(s, i, u) then now[u].Woken? else now[u] == s.threads[u]
  {
  }

  lemma {:induction false} FinishOpeners(s: State, t: Tid, i: Id, pro: Ptr, id: Id)
    requires id in s.entries
    ensures var now := DoFinish(s, t, i, pro).entries; id in now && now[id].opener == s.entries[id].opener
  {
    hide WakeAll;
  }

  predicate Wakes(s: State, i: Id, u: Tid) {
    && u in s.threads && s.threads[u].Waiting? && i in s.entries && s.entries[i].locker == Some(s.threads[u].l)
    && s.threads[u].l in s.lockers && s.lockers[s.threads[u].l].waiters > 0
  }

  /** Another thread stays where it is, unless it is woken. */
  lemma {:induction false} OthersStay(s: State, a: Label, u: Tid)
    requires Enabled(s, a) && u in s.threads && u != a.t
    ensures var now := Step(s, a).threads;
            u in now && if a.Finish? && Wakes(s, s.threads[a.t].id, u) then now[u].Woken? else now[u] == s.threads[u]
  {
    var pc := s.threads[a.t];
    match a
    case Begin(t, id) =>
    case Lookup(t) => LookupStays(s, t, pc.id, u, 0);
    case Parse(t, readable) => ParseStays(s, t, pc.id, pc.l, readable, u, 0);
    case Store(t) => StoreStays(s, t, pc.id, pc.l, pc.pro, u, 0);
    case Finish(t) => FinishWakes(s, t, pc.id, pc.pro, u);
    case Wake(t) => WakeStays(s, t, pc.id, u, 0);
    case Release(t) => ReleaseStays(s, t, pc.pro, u, 0);
    hide DoLookup, DoParse, DoStore, DoFinish, DoWake, DoRelease, Wakes;
  }

  lemma {:induction false} OpenersStay(s: State, a: Label, id: Id)
    requires Enabled(s, a) && id in s.entries
    ensures id in Step(s, a).entries && Step(s, a).entries[id].opener == s.entries[id].opener
  {
    var pc := s.threads[a.t];
    match a
    case Begin(t, _) =>
    case Lookup(t) => LookupStays(s, t, pc.id, t, id);
    case Parse(t, readable) => ParseStays(s, t, pc.id, pc.l, readable, t, id);
    case Store(t) => StoreStays(s, t, pc.id, pc.l, pc.pro, t, id);
    case Finish(t) => FinishOpeners(s, t, pc.id, pc.pro, id);
    case Wake(t) => WakeStays(s, t, pc.id, t, id);
    case Release(t) => ReleaseStays(s, t, pc.pro, t, id);
    hide DoLookup, DoParse, DoStore, DoFinish, DoWake, DoRelease;
  }

  lemma {:induction false} OwnStep(s: State, a: Label, t: Tid)
    requires Concerns(s, a, t) && a.t == t && !Step(s, a).bad
    ensures StepsLeft(Step(s, a), t) < StepsLeft(s, t)
  {
    hide Waiters, Holders, WakeAll;
    var pc := s.threads[t];
    if a.Lookup? {
      LookupLeaves(s, t, pc.id);
    } else {
      var after := Step(s, a).threads[t];
      assert after.Has? || (a.Parse? && after.Storing?) || (a.Store? && after.Stored?);
    }
  }

  lemma {:induction false} LookupLeaves(s: State, t: Tid, id: Id)
    requires t in s.threads && s.threads[t] == Wants(id) && (id in s.entries ==> OkEntry(s, id)) && !DoLookup(s, t, id).bad
    ensures StepsLeft(DoLookup(s, t, id), t) < 5
  {
    var s1 := DoLookup(s, t, id);
    var now := s1.threads[t];
    hide Waiters, Holders, OkPtr;
    assert now.Has? || now.Parsing? || (now.Waiting? && now.id == id && id in s.entries && s1.entries == s.entries);
    if now.Waiting? {
      var u := s.entries[id].opener;
      assert u in s.threads && (u != t ==> s1.threads[u] == s.threads[u] && s.threads[u].Fills());
    }
  }

  lemma {:induction false} HelperStep(s: State, a: Label, t: Tid)
    requires Concerns(s, a, t) && a.t != t && a.t == Helper(s, t) && !Step(s, a).bad
    ensures StepsLeft(Step(s, a), t) < StepsLeft(s, t)
  {
    var pc := s.threads[t];
    OthersStay(s, a, t);
    OpenersStay(s, a, pc.id);
    HelperMoves(s, a, t);
    hide Step, Enabled, OkEntry, OkThread, Waiters, Holders;
  }

  /** The helper fills the entry that `t` waits for; at the end it wakes it. */
  lemma {:induction false} HelperMoves(s: State, a: Label, t: Tid)
    requires Concerns(s, a, t) && a.t != t && a.t == Helper(s, t) && !Step(s, a).bad
    ensures s.threads[t].Waiting? && s.threads[t].id in s.entries && a.t in Step(s, a).threads
    ensures StepsOf(Step(s, a).threads[a.t]) < StepsOf(s.threads[a.t])
    ensures a.Finish? ==> Step(s, a).threads[t].Woken?
  {
    OthersStay(s, a, t);
    hide Waiters, Holders, WakeAll;
  }

  lemma {:induction false} OtherStep(s: State, a: Label, t: Tid)
    requires Concerns(s, a, t) && a.t != t && a.t != Helper(s, t) && !Step(s, a).bad
    ensures StepsLeft(Step(s, a), t) == StepsLeft(s, t)
  {
    var pc := s.threads[t];
    OthersStay(s, a, t);
    OthersStay(s, a, Helper(s, t));
    NotWoken(s, a, t);
    if pc.id in s.entries {
      OpenersStay(s, a, pc.id);
    }
    hide Step, Enabled, OkEntry, OkThread, Waiters, Holders;
  }

  /** Only its helper wakes a thread; and what waits is no helper. */
  lemma {:induction false} NotWoken(s: State, a: Label, t: Tid)
    requires Concerns(s, a, t) && a.t != t && a.t != Helper(s, t)
    ensures a.Finish? && s.threads[t].Waiting? && s.threads[a.t].id in s.entries ==>
              s.entries[s.threads[a.t].id].locker != Some(s.threads[t].l)
    ensures s.threads[t].Waiting? ==> s.threads[t].id in s.entries && s.threads[Helper(s, t)].Fills()
  {
    hide Step, Waiters, Holders;
  }

  /** A step of the helper leaves fewer, and any other as many. */
  lemma {:induction false} StepHelps(s: State, a: Label, t: Tid)
    requires Inv(s) && Enabled(s, a) && InCall(s, t)
    ensures StepsLeft(Step(s, a), t) + (if a.t == Helper(s, t) then 1 else 0) <= StepsLeft(s, t)
  {
    StepInv(s, a);
    HelperReady(s, t);
    assert OkThread(s, t) && OkThread(s, a.t);
    if s.threads[t].Waiting? {
      assert OkLocker(s, s.threads[t].l) && t in Waiters(s.threads, s.threads[t].l);
    }
    hide OkThread, OkEntry, OkLocker, Step, StepsLeft, Enabled, Helper, Waiters;
    if a.t == t {
      OwnStep(s, a, t);
    } else if a.t == Helper(s, t) {
      HelperStep(s, a, t);
    } else {
      OtherStep(s, a, t);
    }
  }

  /** How many steps its helpers take in a run while the call of `t` is under way. */
  function Helped(s: State, run: seq<Label>, t: Tid): nat
    requires Run(s, run).Some?
    decreases run
  {
    if run == [] || !InCall(s, t) then 0
    else (if run[0].t == Helper(s, t) then 1 else 0) + Helped(Step(s, run[0]), run[1..], t)
  }

  lemma {:induction false} HelpedAtMost(s: State, run: seq<Label>, t: Tid)
    requires Inv(s) && Run(s, run).Some?
    ensures Helped(s, run, t) <= StepsLeft(s, t)
    decreases run
  {
    if run != [] && InCall(s, t) {
      StepInv(s, run[0]);
      StepHelps(s, run[0], t);
      HelpedAtMost(Step(s, run[0]), run[1..], t);
    }
  }

  /** Every call returns: whatever the other threads do, it is under way for at most five steps of its own thread and
      of the one that fills the entry it waits for, and as long as it is, the one of them whose turn it is can step. */
  lemma {:induction false} CallReturns(tids: set<Tid>, before: seq<Label>, run: seq<Label>, t: Tid)
    requires Run(Init(tids), before).Some? && Run(Run(Init(tids), before).value, run).Some?
    ensures var s := Run(Init(tids), before).value;
            var z := Run(s, run).value;
            && Helped(s, run, t) <= 5
            && (InCall(z, t) ==> Helper(z, t) in z.threads && NextStep(z, t).t == Helper(z, t) && Enabled(z, NextStep(z, t)))
  {
    var s := Run(Init(tids), before).value;
    assert Inv(Init(tids));
    hide *;
    RunInv(Init(tids), before);
    RunInv(s, run);
    HelpedAtMost(s, run, t);
    FewLeft(s, t);
    if InCall(Run(s, run).value, t) {
      HelperReady(Run(s, run).value, t);
    }
  }

  lemma {:induction false} FewLeft(s: State, t: Tid)
    requires Inv(s)
    ensures StepsLeft(s, t) <= 5
  {
    if InCall(s, t) {
      HelperReady(s, t);
    }
  }
}
