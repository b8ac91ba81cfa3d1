// The base environment shared by the evaluators of several threads, as atomic
// steps between lock, unlock and wait: every interleaving loads a spec once.
module BaseEnvironment {
  import opened Tokens

  type Tid = nat
  type Key = int

  /** Where a call of visitProFile stands in its base environment section. */
  datatype Pc =
    | Idle
    | Wants(key: Key)
    | Waiting(key: Key)
    | Woken(key: Key)
    | Building(key: Key)
    | Loading(key: Key, e: nat)
    | Publishing(key: Key, e: nat, ok: bool)
    | Returned(key: Key, ok: bool)
  {
    predicate Loads() { Building? || Loading? || Publishing? }
  }

  datatype Phase = Running | Loaded | Failed

  /** An evaluator made to load a spec. */
  datatype Evaluator = Evaluator(key: Key, phase: Phase)

  /** `isOk` is None while it has no value: its constructor leaves it unset. `loader` is the thread that loads. */
  datatype BaseEnv = BaseEnv(inProgress: bool, isOk: Option<bool>, evaluator: Option<nat>, loader: Tid)

  /** `loads` counts the starts of loadSpec, and `results` records what calls came out as. `bad` is set by a step
      that reads what has no value, or initializes from an evaluator whose spec is not loaded. */
  datatype State = State(
    threads: map<Tid, Pc>,
    envs: map<Key, BaseEnv>,
    evaluators: map<nat, Evaluator>,
    next: nat,
    loads: multiset<Key>,
    results: set<(Key, bool)>,
    bad: bool)

  datatype Label =
    | Begin(t: Tid, key: Key)
    | Enter(t: Tid)
    | Build(t: Tid)
    | Load(t: Tid, ok: bool)
    | Publish(t: Tid)
    | Wake(t: Tid)
    | Return(t: Tid)

  predicate Enabled(s: State, a: Label) {
    && a.t in s.threads
    && var pc := s.threads[a.t];
       match a
       case Begin(_, _) => pc.Idle?
       case Enter(_) => pc.Wants?
       case Build(_) => pc.Building?
       case Load(_, _) => pc.Loading?
       case Publish(_) => pc.Publishing?
       case Wake(_) => pc.Woken?
       case Return(_) => pc.Returned?
  }

  function Goto(s: State, t: Tid, pc: Pc): State { s.(threads := s.threads[t := pc]) }

  function Bad(s: State): State { s.(bad := true) }

  function Finish(s: State, t: Tid, key: Key, ok: bool): State {
    Goto(s.(results := s.results + {(key, ok)}), t, Returned(key, ok))
  }

  /** Copies the base evaluator's state, and goes on. */
  function InitFrom(s: State, t: Tid, key: Key): State {
    if key !in s.envs || s.envs[key].evaluator.None? || s.envs[key].evaluator.value !in s.evaluators
       || !s.evaluators[s.envs[key].evaluator.value].phase.Loaded?
    then Bad(s) else Finish(s, t, key, true)
  }

  /** Reads isOk: on success, initializes from the base evaluator. */
  function CheckOk(s: State, t: Tid, key: Key): State {
    if key !in s.envs || s.envs[key].isOk.None? then Bad(s)
    else if s.envs[key].isOk.value then InitFrom(s, t, key)
    else Finish(s, t, key, false)
  }

  function DoEnter(s: State, t: Tid, key: Key): State {
    if key in s.envs && s.envs[key].inProgress then Goto(s, t, Waiting(key))
    else if key in s.envs && s.envs[key].evaluator.Some? then CheckOk(s, t, key)
    else
      var isOk := if key in s.envs then s.envs[key].isOk else None;
      Goto(s.(envs := s.envs[key := BaseEnv(true, isOk, None, t)]), t, Building(key))
  }

  /** Without the mutex: the evaluator is stored, and loadSpec starts. */
  function DoBuild(s: State, t: Tid, key: Key): State {
    if key !in s.envs then Bad(s)
    else
      Goto(s.(envs := s.envs[key := s.envs[key].(evaluator := Some(s.next))], next := s.next + 1,
              evaluators := s.evaluators[s.next := Evaluator(key, Running)], loads := s.loads + multiset{key}),
           t, Loading(key, s.next))
  }

  function DoLoad(s: State, t: Tid, key: Key, e: nat, ok: bool): State {
    Goto(s.(evaluators := s.evaluators[e := Evaluator(key, if ok then Loaded else Failed)]), t, Publishing(key, e, ok))
  }

  function WakeAll(threads: map<Tid, Pc>, key: Key): map<Tid, Pc> {
    map t | t in threads :: if threads[t] == Waiting(key) then Woken(key) else threads[t]
  }

  function DoPublish(s: State, t: Tid, key: Key, ok: bool): State {
    if key !in s.envs then Bad(s)
    else
      var s1 := s.(envs := s.envs[key := s.envs[key].(isOk := Some(ok), inProgress := false)], threads := WakeAll(s.threads, key));
      if ok then InitFrom(s1, t, key) else Finish(s1, t, key, false)
  }

  function Step(s: State, a: Label): State
    requires Enabled(s, a)
  {
    var pc := s.threads[a.t];
    match a
    case Begin(t, key) => Goto(s, t, Wants(key))
    case Enter(t) => DoEnter(s, t, pc.key)
    case Build(t) => DoBuild(s, t, pc.key)
    case Load(t, ok) => DoLoad(s, t, pc.key, pc.e, ok)
    case Publish(t) => DoPublish(s, t, pc.key, pc.ok)
    case Wake(t) => CheckOk(s, t, pc.key)
    case Return(t) => Goto(s, t, Idle)
  }

  /** A run: None if some step was not enabled. */
  function Run(s: State, run: seq<Label>): Option<State>
    decreases run
  {
    if run == [] then Some(s)
    else if !Enabled(s, run[0]) then None
    else Run(Step(s, run[0]), run[1..])
  }

  function Init(tids: set<Tid>): State {
    State(map t | t in tids :: Idle, map[], map[], 0, multiset{}, {}, false)
  }

  // ----- the invariant ------------------------------------------------------------------

  predicate OkLoader(s: State, t: Tid, key: Key) {
    key in s.envs && s.envs[key].inProgress && s.envs[key].loader == t
  }

  predicate HasPhase(s: State, key: Key, e: nat, phase: Phase) {
    key in s.envs && s.envs[key].evaluator == Some(e) && e in s.evaluators && s.evaluators[e] == Evaluator(key, phase)
  }

  predicate OkThread(s: State, t: Tid)
    requires t in s.threads
  {
    match s.threads[t]
    case Idle => true
    case Wants(_) => true
    case Waiting(key) => key in s.envs && s.envs[key].inProgress
    case Woken(key) => key in s.envs && !s.envs[key].inProgress
    case Building(key) => OkLoader(s, t, key) && s.envs[key].evaluator.None?
    case Loading(key, e) => OkLoader(s, t, key) && HasPhase(s, key, e, Running)
    case Publishing(key, e, ok) => OkLoader(s, t, key) && HasPhase(s, key, e, if ok then Loaded else Failed)
    case Returned(key, ok) => key in s.envs && !s.envs[key].inProgress && s.envs[key].isOk == Some(ok)
  }

  predicate OkEnv(s: State, key: Key)
    requires key in s.envs
  {
    var v := s.envs[key];
    && (v.evaluator.Some? ==> v.evaluator.value in s.evaluators && s.evaluators[v.evaluator.value].key == key)
    && (v.inProgress ==> v.loader in s.threads && s.threads[v.loader].Loads() && s.threads[v.loader].key == key)
    && (!v.inProgress ==> v.isOk.Some? && v.evaluator.Some?
                          && s.evaluators[v.evaluator.value].phase == if v.isOk.value then Loaded else Failed)
  }

  predicate OkLoads(s: State, key: Key) {
    s.loads[key] == if key in s.envs && s.envs[key].evaluator.Some? then 1 else 0
  }

  predicate OkResult(s: State, r: (Key, bool)) {
    r.0 in s.envs && !s.envs[r.0].inProgress && s.envs[r.0].isOk == Some(r.1) && s.envs[r.0].evaluator.Some?
  }

  ghost predicate Inv(s: State) {
    && !s.bad
    && (forall t | t in s.threads :: OkThread(s, t))
    && (forall key | key in s.envs :: OkEnv(s, key))
    && (forall key :: OkLoads(s, key))
    && (forall e | e in s.evaluators :: e < s.next)
    && (forall r | r in s.results :: OkResult(s, r))
  }

  // ----- preservation ---------------------------------------------------------------------

  /** What the thread that takes a step relies on. */
  predicate Ctx(s: State, t: Tid) {
    && !s.bad && t in s.threads && OkThread(s, t)
    && (!s.threads[t].Idle? && s.threads[t].key in s.envs ==> OkEnv(s, s.threads[t].key))
    && s.next !in s.evaluators
  }

  lemma {:induction false} PublishThread(s: State, a: Label, u: Tid)
    requires Ctx(s, a.t) && Enabled(s, a) && a.Publish? && u in s.threads && OkThread(s, u)
    requires !s.threads[u].Idle? && s.threads[u].key in s.envs ==> OkEnv(s, s.threads[u].key)
    ensures u in Step(s, a).threads && OkThread(Step(s, a), u)
  {
  }

  /** A step that works on the environments or their evaluators, without publishing. */
  predicate Works(a: Label) { a.Enter? || a.Build? || a.Load? }

  lemma {:induction false} WorkThread(s: State, a: Label, u: Tid)
    requires Ctx(s, a.t) && Enabled(s, a) && Works(a) && u in s.threads && OkThread(s, u)
    requires !s.threads[u].Idle? && s.threads[u].key in s.envs ==> OkEnv(s, s.threads[u].key)
    ensures u in Step(s, a).threads && OkThread(Step(s, a), u)
  {
  }

  lemma {:induction false} QuietThread(s: State, a: Label, u: Tid)
    requires Ctx(s, a.t) && Enabled(s, a) && !a.Publish? && u in s.threads && OkThread(s, u)
    requires !s.threads[u].Idle? && s.threads[u].key in s.envs ==> OkEnv(s, s.threads[u].key)
    ensures u in Step(s, a).threads && OkThread(Step(s, a), u)
  {
    if Works(a) {
      hide Step;
      WorkThread(s, a, u);
    }
  }

  lemma {:induction false} WorkEnv(s: State, a: Label, key: Key)
    requires Ctx(s, a.t) && Enabled(s, a) && Works(a) && (key in s.envs ==> OkEnv(s, key))
    ensures key in Step(s, a).envs ==> OkEnv(Step(s, a), key)
  {
  }

  lemma {:induction false} QuietEnv(s: State, a: Label, key: Key)
    requires Ctx(s, a.t) && Enabled(s, a) && !Works(a) && (key in s.envs ==> OkEnv(s, key))
    ensures key in Step(s, a).envs ==> OkEnv(Step(s, a), key)
  {
  }

  lemma {:induction false} StepEnv(s: State, a: Label, key: Key)
    requires Ctx(s, a.t) && Enabled(s, a) && (key in s.envs ==> OkEnv(s, key))
    ensures key in Step(s, a).envs ==> OkEnv(Step(s, a), key)
  {
    hide *;
    if Works(a) { WorkEnv(s, a, key); } else { QuietEnv(s, a, key); }
  }

  lemma {:induction false} StepRest(s: State, a: Label)
    requires Ctx(s, a.t) && Enabled(s, a)
    ensures var s1 := Step(s, a); !s1.bad && s1.threads.Keys == s.threads.Keys
    ensures (forall e | e in s.evaluators :: e < s.next) ==>
              forall e | e in Step(s, a).evaluators :: e < Step(s, a).next
  {
  }

  lemma {:induction false} StepLoads(s: State, a: Label, key: Key)
    requires Ctx(s, a.t) && Enabled(s, a) && OkLoads(s, key)
    ensures OkLoads(Step(s, a), key)
  {
  }

  lemma {:induction false} StepResult(s: State, a: Label, r: (Key, bool))
    requires Ctx(s, a.t) && Enabled(s, a) && r in Step(s, a).results && (r in s.results ==> OkResult(s, r))
    ensures OkResult(Step(s, a), r)
  {
  }

  lemma {:induction false} InvCtx(s: State, t: Tid)
    requires Inv(s) && t in s.threads
    ensures Ctx(s, t)
  {
    assert OkThread(s, t);
    assert !s.threads[t].Idle? && s.threads[t].key in s.envs ==> OkEnv(s, s.threads[t].key);
  }

  lemma {:induction false} StepInv(s: State, a: Label)
    requires Inv(s) && Enabled(s, a)
    ensures Inv(Step(s, a))
  {
    InvCtx(s, a.t);
    hide OkThread, OkEnv, OkLoads, OkResult, Step, Enabled;
    var s1 := Step(s, a);
    StepRest(s, a);
    forall u | u in s1.threads ensures OkThread(s1, u) {
      if a.Publish? { PublishThread(s, a, u); } else { QuietThread(s, a, u); }
    }
    forall key | key in s1.envs ensures OkEnv(s1, key) { StepEnv(s, a, key); }
    forall key ensures OkLoads(s1, key) { StepLoads(s, a, key); }
    forall r | r in s1.results ensures OkResult(s1, r) { StepResult(s, a, r); }
  }

  lemma {:induction false} RunInv(s: State, run: seq<Label>)
    requires Inv(s) && Run(s, run).Some?
    ensures Inv(Run(s, run).value)
    decreases run
  {
    if run != [] {
      StepInv(s, run[0]);
      RunInv(Step(s, run[0]), run[1..]);
    }
  }

  // ----- the main results -------------------------------------------------------------------

  /** After every interleaving: loadSpec has been started at most once for a key, nothing has been read before it
      had a value or initialized from a spec that is not loaded, and all calls for a key come out alike. */
  lemma {:induction false} SpecIsLoadedOnce(tids: set<Tid>, run: seq<Label>)
    requires Run(Init(tids), run).Some?
    ensures var s := Run(Init(tids), run).value;
            && !s.bad
            && (forall key :: s.loads[key] <= 1)
            && (forall q, r | q in s.results && r in s.results && q.0 == r.0 :: q.1 == r.1)
  {
    RunInv(Init(tids), run);
    var s := Run(Init(tids), run).value;
    forall key ensures s.loads[key] <= 1 {
      assert OkLoads(s, key);
    }
    forall q, r | q in s.results && r in s.results && q.0 == r.0 ensures q.1 == r.1 {
      assert OkResult(s, q) && OkResult(s, r);
    }
  }

  // ----- what a call comes out as --------------------------------------------------------------

  /** Which specs could be loaded, by what their load steps say. */
  function Note(loaded: map<Key, bool>, s: State, a: Label): map<Key, bool>
    requires Enabled(s, a)
  {
    if a.Load? then loaded[s.threads[a.t].key := a.ok] else loaded
  }

  function LoadedIn(s: State, run: seq<Label>, loaded: map<Key, bool>): map<Key, bool>
    decreases run
  {
    if run == [] || !Enabled(s, run[0]) then loaded else LoadedIn(Step(s, run[0]), run[1..], Note(loaded, s, run[0]))
  }

  predicate Fits(loaded: map<Key, bool>, key: Key, ok: bool) { key in loaded && loaded[key] == ok }

  predicate ThreadFits(loaded: map<Key, bool>, pc: Pc) { pc.Publishing? || pc.Returned? ==> Fits(loaded, pc.key, pc.ok) }

  predicate EnvFits(loaded: map<Key, bool>, s: State, key: Key)
    requires key in s.envs
  {
    !s.envs[key].inProgress && s.envs[key].isOk.Some? ==> Fits(loaded, key, s.envs[key].isOk.value)
  }

  ghost predicate AllFit(loaded: map<Key, bool>, s: State) {
    && (forall t | t in s.threads :: ThreadFits(loaded, s.threads[t]))
    && (forall key | key in s.envs :: EnvFits(loaded, s, key))
    && (forall r | r in s.results :: Fits(loaded, r.0, r.1))
  }

  lemma {:induction false} CheckFits(loaded: map<Key, bool>, s: State, t: Tid, key: Key)
    requires AllFit(loaded, s) && t in s.threads && (key in s.envs ==> !s.envs[key].inProgress)
    ensures AllFit(loaded, CheckOk(s, t, key))
  {
    assert key in s.envs ==> EnvFits(loaded, s, key);
  }

  lemma {:induction false} EnterFits(loaded: map<Key, bool>, s: State, t: Tid, key: Key)
    requires AllFit(loaded, s) && t in s.threads
    ensures AllFit(loaded, DoEnter(s, t, key))
  {
    if !(key in s.envs && s.envs[key].inProgress) {
      CheckFits(loaded, s, t, key);
    }
    hide CheckOk;
    var s1 := DoEnter(s, t, key);
    if !(key in s.envs && s.envs[key].evaluator.Some?) {
      forall k | k in s1.envs ensures EnvFits(loaded, s1, k) {
        assert k in s.envs ==> EnvFits(loaded, s, k);
      }
    }
  }

  lemma {:induction false} BuildFits(loaded: map<Key, bool>, s: State, t: Tid, key: Key)
    requires AllFit(loaded, s) && t in s.threads
    ensures AllFit(loaded, DoBuild(s, t, key))
  {
    var s1 := DoBuild(s, t, key);
    forall k | k in s1.envs ensures EnvFits(loaded, s1, k) {
      assert EnvFits(loaded, s, k);
    }
  }

  /** A spec is loaded while nobody has an outcome yet. */
  lemma {:induction false} LoadFits(loaded: map<Key, bool>, s: State, t: Tid, key: Key, e: nat, ok: bool)
    requires Inv(s) && AllFit(loaded, s) && t in s.threads && s.threads[t] == Loading(key, e)
    ensures AllFit(loaded[key := ok], DoLoad(s, t, key, e, ok))
  {
    var s1, loaded1 := DoLoad(s, t, key, e, ok), loaded[key := ok];
    assert OkThread(s, t);
    forall u | u in s1.threads ensures ThreadFits(loaded1, s1.threads[u]) {
      assert u != t ==> OkThread(s, u) && ThreadFits(loaded, s.threads[u]);
    }
    forall k | k in s1.envs ensures EnvFits(loaded1, s1, k) {
      assert EnvFits(loaded, s, k);
    }
    forall r | r in s1.results ensures Fits(loaded1, r.0, r.1) {
      assert Fits(loaded, r.0, r.1) && OkResult(s, r);
    }
  }

  lemma {:induction false} PublishFits(loaded: map<Key, bool>, s: State, t: Tid, key: Key, ok: bool)
    requires AllFit(loaded, s) && t in s.threads && Fits(loaded, key, ok)
    ensures AllFit(loaded, DoPublish(s, t, key, ok))
  {
    var s1 := DoPublish(s, t, key, ok);
    forall k | k in s1.envs ensures EnvFits(loaded, s1, k) {
      assert EnvFits(loaded, s, k);
    }
    forall u | u in s1.threads ensures ThreadFits(loaded, s1.threads[u]) {
      assert ThreadFits(loaded, s.threads[u]);
    }
  }

  lemma {:induction false} GotoFits(loaded: map<Key, bool>, s: State, t: Tid, pc: Pc)
    requires AllFit(loaded, s) && t in s.threads && ThreadFits(loaded, pc)
    ensures AllFit(loaded, Goto(s, t, pc))
  {
  }

  lemma {:induction false} StepFits(loaded: map<Key, bool>, s: State, a: Label)
    requires Inv(s) && AllFit(loaded, s) && Enabled(s, a)
    ensures AllFit(Note(loaded, s, a), Step(s, a))
  {
    var pc := s.threads[a.t];
    assert ThreadFits(loaded, pc) && OkThread(s, a.t);
    hide Inv, AllFit, Goto, DoEnter, DoBuild, DoLoad, DoPublish, CheckOk;
    match a
    case Begin(t, key) => GotoFits(loaded, s, t, Wants(key));
    case Enter(t) => EnterFits(loaded, s, t, pc.key);
    case Build(t) => BuildFits(loaded, s, t, pc.key);
    case Load(t, ok) => LoadFits(loaded, s, t, pc.key, pc.e, ok);
    case Publish(t) => PublishFits(loaded, s, t, pc.key, pc.ok);
    case Wake(t) => CheckFits(loaded, s, t, pc.key);
    case Return(t) => GotoFits(loaded, s, t, Idle);
  }

  lemma {:induction false} RunFits(loaded: map<Key, bool>, s: State, run: seq<Label>)
    requires Inv(s) && AllFit(loaded, s) && Run(s, run).Some?
    ensures AllFit(LoadedIn(s, run, loaded), Run(s, run).value)
    decreases run
  {
    if run != [] {
      StepInv(s, run[0]);
      StepFits(loaded, s, run[0]);
      hide Inv, AllFit, Step, Enabled;
      RunFits(Note(loaded, s, run[0]), Step(s, run[0]), run[1..]);
    }
  }

  /** After every interleaving, a call has come out as the one load of its spec did. */
  lemma {:induction false} CallsComeOutAsLoaded(tids: set<Tid>, run: seq<Label>)
    requires Run(Init(tids), run).Some?
    ensures forall r | r in Run(Init(tids), run).value.results ::
              r.0 in LoadedIn(Init(tids), run, map[]) && r.1 == LoadedIn(Init(tids), run, map[])[r.0]
  {
    RunFits(map[], Init(tids), run);
    hide Inv, Run, LoadedIn;
  }

  /** While a call waits, the thread that will wake it is loading and can take its next step. */
  lemma {:induction false} NoLostWakeup(tids: set<Tid>, run: seq<Label>, t: Tid)
    requires Run(Init(tids), run).Some?
    requires var s := Run(Init(tids), run).value; t in s.threads && s.threads[t].Waiting?
    ensures var s := Run(Init(tids), run).value;
            && s.threads[t].key in s.envs
            && var u := s.envs[s.threads[t].key].loader;
               && u in s.threads && s.threads[u].Loads() && s.threads[u].key == s.threads[t].key
               && (Enabled(s, Build(u)) || Enabled(s, Load(u, true)) || Enabled(s, Publish(u)))
  {
    RunInv(Init(tids), run);
    var s := Run(Init(tids), run).value;
    assert OkThread(s, t) && OkEnv(s, s.threads[t].key);
  }

  // ----- every call returns -------------------------------------------------------------------

  predicate InCall(s: State, t: Tid) { t in s.threads && !s.threads[t].Idle? && !s.threads[t].Returned? }

  /** The thread whose steps bring the call of `t` on: its own, or while it waits the one that loads. */
  function Helper(s: State, t: Tid): Tid
    requires InCall(s, t)
  {
    var pc := s.threads[t];
    if pc.Waiting? && pc.key in s.envs then s.envs[pc.key].loader else t
  }

  /** How many steps a call takes at most, those of other threads aside. */
  function StepsOf(pc: Pc): nat {
    match pc
    case Wants(_) => 5
    case Building(_) => 3
    case Loading(_, _) => 2
    case Publishing(_, _, _) => 1
    case Waiting(_) => 1
    case Woken(_) => 1
    case _ => 0
  }

  /** How many steps of its helpers are left of a call. */
  function StepsLeft(s: State, t: Tid): nat {
    if !InCall(s, t) then 0
    else
      var u := Helper(s, t);
      StepsOf(s.threads[t]) + if u != t && u in s.threads then StepsOf(s.threads[u]) else 0
  }

  /** The step that the helper can take. */
  function NextStep(s: State, t: Tid): Label
    requires InCall(s, t) && Helper(s, t) in s.threads
  {
    var u := Helper(s, t);
    match s.threads[u]
    case Wants(_) => Enter(u)
    case Building(_) => Build(u)
    case Loading(_, _) => Load(u, true)
    case Publishing(_, _, _) => Publish(u)
    case _ => Wake(u)
  }

  lemma {:induction false} HelperReady(s: State, t: Tid)
    requires Inv(s) && InCall(s, t)
    ensures var u := Helper(s, t);
            && u in s.threads && (u != t ==> s.threads[u].Loads() && s.threads[u].key == s.threads[t].key)
            && NextStep(s, t).t == u && Enabled(s, NextStep(s, t)) && StepsLeft(s, t) <= 5
  {
    assert OkThread(s, t);
    if s.threads[t].Waiting? {
      assert OkEnv(s, s.threads[t].key);
    }
  }

  /** Another thread stays where it is, unless it is woken. */
  lemma {:induction false} OthersStay(s: State, a: Label, u: Tid)
    requires Enabled(s, a) && u in s.threads && u != a.t && !Step(s, a).bad
    ensures var now := Step(s, a).threads;
            u in now && if a.Publish? && s.threads[u] == Waiting(s.threads[a.t].key) then now[u].Woken?
                        else now[u] == s.threads[u]
  {
  }

  /** The loader of a key changes only when its loading begins. */
  lemma {:induction false} LoadersStay(s: State, a: Label, key: Key)
    requires Enabled(s, a) && key in s.envs && s.envs[key].inProgress
    ensures key in Step(s, a).envs && Step(s, a).envs[key].loader == s.envs[key].loader
  {
    hide WakeAll;
  }

  /** What a step relies on that concerns the call of `t`. */
  predicate Concerns(s: State, a: Label, t: Tid) {
    && InCall(s, t) && Enabled(s, a) && OkThread(s, t) && OkThread(s, a.t) && Helper(s, t) in s.threads
    && (s.threads[t].key in s.envs ==> OkEnv(s, s.threads[t].key))
  }

  lemma {:induction false} OwnStep(s: State, a: Label, t: Tid)
    requires Concerns(s, a, t) && a.t == t && !Step(s, a).bad
    ensures StepsLeft(Step(s, a), t) < StepsLeft(s, t)
  {
    hide WakeAll;
  }

  lemma {:induction false} HelperStep(s: State, a: Label, t: Tid)
    requires Concerns(s, a, t) && a.t != t && a.t == Helper(s, t) && !Step(s, a).bad
    ensures StepsLeft(Step(s, a), t) < StepsLeft(s, t)
  {
    OthersStay(s, a, t);
    LoadersStay(s, a, s.threads[t].key);
    HelperMoves(s, a, t);
    hide Step, Enabled, OkEnv, OkThread;
  }

  lemma {:induction false} HelperMoves(s: State, a: Label, t: Tid)
    requires Concerns(s, a, t) && a.t != t && a.t == Helper(s, t) && !Step(s, a).bad
    ensures s.threads[t].Waiting? && s.threads[t].key in s.envs && a.t in Step(s, a).threads
    ensures StepsOf(Step(s, a).threads[a.t]) < StepsOf(s.threads[a.t])
    ensures a.Publish? ==> s.threads[t] == Waiting(s.threads[a.t].key)
  {
    hide WakeAll;
  }

  lemma {:induction false} OtherStep(s: State, a: Label, t: Tid)
    requires Concerns(s, a, t) && a.t != t && a.t != Helper(s, t) && !Step(s, a).bad
    ensures StepsLeft(Step(s, a), t) == StepsLeft(s, t)
  {
    OthersStay(s, a, t);
    OthersStay(s, a, Helper(s, t));
    NotWoken(s, a, t);
    if s.threads[t].Waiting? {
      LoadersStay(s, a, s.threads[t].key);
    }
    hide Step, Enabled, OkEnv, OkThread;
  }

  /** Only its helper wakes a thread; and what waits is no helper. */
  lemma {:induction false} NotWoken(s: State, a: Label, t: Tid)
    requires Concerns(s, a, t) && a.t != t && a.t != Helper(s, t)
    ensures a.Publish? ==> s.threads[t] != Waiting(s.threads[a.t].key)
    ensures s.threads[t].Waiting? ==> s.threads[t].key in s.envs && s.threads[Helper(s, t)].Loads()
  {
    hide Step;
  }

  /** A step of the helper leaves fewer, and any other as many. */
  lemma {:induction false} StepHelps(s: State, a: Label, t: Tid)
    requires Inv(s) && Enabled(s, a) && InCall(s, t)
    ensures StepsLeft(Step(s, a), t) + (if a.t == Helper(s, t) then 1 else 0) <= StepsLeft(s, t)
  {
    StepInv(s, a);
    HelperReady(s, t);
    assert OkThread(s, t) && OkThread(s, a.t);
    hide OkThread, OkEnv, Step, StepsLeft, Enabled, Helper;
    if a.t == t {
      OwnStep(s, a, t);
    } else if a.t == Helper(s, t) {
      HelperStep(s, a, t);
    } else {
      OtherStep(s, a, t);
    }
  }

  /** How many steps its helpers take in a run while the call of `t` is under way. */
  function Helped(s: State, run: seq<Label>, t: Tid): nat
    requires Run(s, run).Some?
    decreases run
  {
    if run == [] || !InCall(s, t) then 0
    else (if run[0].t == Helper(s, t) then 1 else 0) + Helped(Step(s, run[0]), run[1..], t)
  }

  lemma {:induction false} HelpedAtMost(s: State, run: seq<Label>, t: Tid)
    requires Inv(s) && Run(s, run).Some?
    ensures Helped(s, run, t) <= StepsLeft(s, t)
    decreases run
  {
    if run != [] && InCall(s, t) {
      StepInv(s, run[0]);
      StepHelps(s, run[0], t);
      HelpedAtMost(Step(s, run[0]), run[1..], t);
    }
  }

  lemma {:induction false} FewLeft(s: State, t: Tid)
    requires Inv(s)
    ensures StepsLeft(s, t) <= 5
  {
    if InCall(s, t) {
      HelperReady(s, t);
    }
  }

  /** Every call returns: whatever the other threads do, it is under way for at most five steps of its own thread and
      of the one that loads what it waits for, and as long as it is, the one of them whose turn it is can step. */
  lemma {:induction false} CallReturns(tids: set<Tid>, before: seq<Label>, run: seq<Label>, t: Tid)
    requires Run(Init(tids), before).Some? && Run(Run(Init(tids), before).value, run).Some?
    ensures var s := Run(Init(tids), before).value;
            var z := Run(s, run).value;
            && Helped(s, run, t) <= 5
            && (InCall(z, t) ==> Helper(z, t) in z.threads && NextStep(z, t).t == Helper(z, t) && Enabled(z, NextStep(z, t)))
  {
    var s := Run(Init(tids), before).value;
    assert Inv(Init(tids));
    hide *;
    RunInv(Init(tids), before);
    RunInv(s, run);
    HelpedAtMost(s, run, t);
    FewLeft(s, t);
    if InCall(Run(s, run).value, t) {
      HelperReady(Run(s, run).value, t);
    }
  }
}
