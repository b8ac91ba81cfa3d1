// The scope machine turns the text of a structured program into the items the
// program compiles to: braces, one-line bodies and dangling else all resolved.
module SourceParse {
  import opened Tokens
  import opened Stream
  import opened ScopeMachine
  import opened ScopeInvariant
  import opened Structured
  import opened SourceText

  /** The scopes once all finished one-line scopes and branches are closed. */
  function Flushed(s: Scopes): Scopes {
    var t := LeaveOneLiners(s); WithTop(t, CloseFork(Top(t)))
  }

  predicate Flat(s: Scopes) { (Top(s).brace > 0 || |s| == 1) && Top(s).fork.NoFork? }

  ghost predicate Ready(m: Machine) { Calm(m) && m.state.StNew? }

  lemma {:induction false} FlatFlushed(s: Scopes)
    requires Flat(s)
    ensures Flushed(s) == s
  {
    assert WithTop(s, Top(s)) == s;
  }

  lemma {:induction false} LeaveOneLinersFlat(s: Scopes)
    ensures var t := LeaveOneLiners(s); Top(t).brace > 0 || |t| == 1
    decreases |s|
  {
    if Top(s).brace == 0 && |s| > 1 {
      LeaveOneLinersFlat(LeaveScope(s));
    }
  }

  lemma {:induction false} BaseFlat(m: Machine)
    requires Ready(m)
    ensures Base(m) == Flushed(m.scopes) && Flat(Base(m))
  {
    LeaveOneLinersFlat(m.scopes);
    FlushScopesInv(m);
  }

  lemma {:induction false} AddsFlat(a: Scopes, b: Scopes, code: seq<Item>)
    requires Adds(a, b, code) && Flat(a)
    ensures Flat(b)
  {
  }

  /** A one-line scope on top makes no difference to what is flushed. */
  lemma {:induction false} FlushedLeave(s: Scopes)
    requires |s| > 1 && Top(s).brace == 0
    ensures Flushed(s) == Flushed(LeaveScope(s))
  {
  }

  /** Leaving one-line scopes that take no else leads from `a` to `b`. */
  predicate Unwinds(a: Scopes, b: Scopes)
    decreases |a|
  {
    || a == b
    || (|a| > 1 && Top(a).brace == 0 && !(Top(a).fork.ElseDue? && Top(a).TakesElse()) && Unwinds(LeaveScope(a), b))
  }

  lemma {:induction false} UnwindsFlushed(a: Scopes, b: Scopes)
    requires Unwinds(a, b)
    ensures Flushed(a) == Flushed(b)
    decreases |a|
  {
    if a != b {
      FlushedLeave(a);
      hide Flushed;
      UnwindsFlushed(LeaveScope(a), b);
    }
  }

  lemma {:induction false} UnwindsOn(a: Scopes, b: Scopes)
    requires Unwinds(a, b) && |b| > 1 && Top(b).brace == 0 && !(Top(b).fork.ElseDue? && Top(b).TakesElse())
    ensures Unwinds(a, LeaveScope(b))
    decreases |a|
  {
    if a != b {
      UnwindsOn(LeaveScope(a), b);
    }
  }

  /** The search for the branch of an else passes them. */
  lemma {:induction false} UnwindsElse(m: Machine, b: Scopes)
    requires Unwinds(m.scopes, b)
    ensures TakeElse(m) == TakeElse(m.(scopes := b))
    decreases |m.scopes|
  {
    if m.scopes != b {
      UnwindsElse(m.(scopes := LeaveScope(m.scopes)), b);
    }
  }

  /** An else on this line would be that of the tests in front. */
  predicate ElseOwn(m: Machine) { m.canElse && Top(m.scopes).TakesElse() }

  /** The program counts on its nesting in the scope on top, and in the one the next statement goes to. */
  ghost predicate NestsWell(m: Machine, inLoop: bool, inFunction: bool) {
    Nests(m.scopes, inLoop, inFunction) && Nests(Base(m), inLoop, inFunction)
  }

  /** After some statements: the machine is ready again, and their code is in the scope they went to. */
  ghost predicate Done(m: Machine, m1: Machine, code: seq<Item>, inLoop: bool, inFunction: bool) {
    Ready(m1) && NestsWell(m1, inLoop, inFunction) && Adds(Base(m), Base(m1), code)
  }

  lemma {:induction false} StartReady()
    ensures var m := ScopeMachine.Start(1);
            Ready(m) && NestsWell(m, false, false) && Base(m) == m.scopes
  {
    var m := ScopeMachine.Start(1);
    assert FlushScopes(m).scopes == m.scopes;
  }

  // ----- a fresh line ------------------------------------------------------------------

  lemma {:induction false} FreshLineDone(m: Machine, m1: Machine, code: seq<Item>, inLoop: bool, inFunction: bool)
    requires Ready(m) && m1.ok && Inv(m1) && NestsWell(m, inLoop, inFunction)
    requires Nests(m1.scopes, inLoop, inFunction)
    requires Adds(Base(m), Flushed(m1.scopes), code)
    ensures Done(m, FreshLine(m1), code, inLoop, inFunction)
  {
    BaseFlat(m);
  }

  /** The machine at the end of an action, in front of the line end or the closing brace. */
  function LineEnd(hash: Hash, m: Machine, act: Action): Machine {
    match act
    case Changing(a) => Assigned(m, Word(a.lhs), a.op, a.hint, a.rhs)
    case Testing(c) => Taken(hash, m, ConditionEvents(c), ConditionWord(c)).(state := StNew)
  }

  /** What comes after an action. */
  lemma {:induction false} ActionRuns(hash: Hash, m: Machine, act: Action)
    requires m.ok && LineEnd(hash, m, act).ok
    ensures Run(hash, m, ActionEvents(act)) == FreshLine(LineEnd(hash, m, act))
    ensures Run(hash, m, LastEvents(act)) == CloseScope(LineEnd(hash, m, act))
  {
    hide CloseScope, Assigned, FinalizeCond;
    match act
    case Changing(a) =>
      RunOne(hash, m, ChangeEvent(a));
      RunOne(hash, m, Assignment(Word(a.lhs), a.op, a.hint, a.rhs, AtBrace));
    case Testing(c) =>
      var es, w := ConditionEvents(c), ConditionWord(c);
      TakenOk(hash, m, es, w);
      RunAppend(hash, m, es, [Newline(w)]);
      RunOne(hash, Run(hash, m, es), Newline(w));
      RunAppend(hash, m, es, [Close(w)]);
      RunOne(hash, Run(hash, m, es), Close(w));
  }

  /** An action in the scope where the next statement goes. */
  ghost predicate ActionPut(m: Machine, q: Machine, act: Action, inLoop: bool, inFunction: bool) {
    Ready(q) && Flat(q.scopes) && Adds(Base(m), q.scopes, CompileAction(act)) && Nests(q.scopes, inLoop, inFunction)
  }

  lemma {:induction false} ActionDone(hash: Hash, m: Machine, act: Action, inLoop: bool, inFunction: bool)
    requires Ready(m) && NestsWell(m, inLoop, inFunction) && ActionHasText(act, inLoop, inFunction)
    ensures ActionPut(m, LineEnd(hash, m, act), act, inLoop, inFunction)
  {
    match act
    case Changing(a) => ChangeDone(m, a, inLoop, inFunction);
    case Testing(c) => TestsDoneFlat(hash, m, c, inLoop, inFunction);
  }

  lemma {:induction false} ChangeDone(m: Machine, a: Change, inLoop: bool, inFunction: bool)
    requires Ready(m) && NestsWell(m, inLoop, inFunction) && ChangeHasText(a)
    ensures ActionPut(m, Assigned(m, Word(a.lhs), a.op, a.hint, a.rhs), Changing(a), inLoop, inFunction)
  {
    FlushScopesInv(m);
    var f := FlushScopes(m);
    ChangePut(f, a);
    BaseFlat(m);
    AddsFlat(f.scopes, Assigned(m, Word(a.lhs), a.op, a.hint, a.rhs).scopes, [CompileChange(a)]);
  }

  lemma {:induction false} TestsDoneFlat(hash: Hash, m: Machine, c: Condition, inLoop: bool, inFunction: bool)
    requires Ready(m) && NestsWell(m, inLoop, inFunction) && ConditionHasText(c, inLoop, inFunction)
    ensures ActionPut(m, Taken(hash, m, ConditionEvents(c), ConditionWord(c)).(state := StNew), Testing(c), inLoop, inFunction)
  {
    ConditionDone(hash, m, c, inLoop, inFunction);
    var f := Taken(hash, m, ConditionEvents(c), ConditionWord(c));
    BaseFlat(m);
    AddsFlat(Base(m), f.scopes, CompileCondition(c));
    hide Taken, Base, Adds, Flat;
  }

  /** An action on a line of its own. */
  lemma {:induction false} SingleDone(hash: Hash, m: Machine, act: Action, inLoop: bool, inFunction: bool)
    requires Ready(m) && NestsWell(m, inLoop, inFunction) && ActionHasText(act, inLoop, inFunction)
    ensures Done(m, Run(hash, m, ActionEvents(act)), CompileAction(act), inLoop, inFunction)
  {
    ActionDone(hash, m, act, inLoop, inFunction);
    var q := LineEnd(hash, m, act);
    ActionRuns(hash, m, act);
    FlatFlushed(q.scopes);
    hide LineEnd, Base, Flushed, Adds, Inv, FreshLine, Flat;
    FreshLineDone(m, q, CompileAction(act), inLoop, inFunction);
  }

  /** An assignment put into an open scope. */
  lemma {:induction false} ChangePut(f: Machine, a: Change)
    requires Clear(f) && Calm(f) && ChangeHasText(a)
    ensures var m1 := PutHeaded(PutLineMarker(AcceptColon(f)), a.lhs, lhs => Assign(lhs, a.op, a.hint, a.rhs));
            Clear(m1) && m1.ok && m1.state == f.state && m1.canElse == f.canElse && m1.op.NoOperator? && m1.invert == 0
            && Adds(f.scopes, m1.scopes, [CompileChange(a)])
  {
    assert AcceptColon(f) == f;
    MarkerAdds(f);
    var g := PutLineMarker(f);
    PlainHeaded(g, a.lhs, lhs => Assign(lhs, a.op, a.hint, a.rhs));
    hide Inv, Adds, PutLineMarker;
    PutAdds(g, CompileChange(a));
    AddsTrans(f.scopes, g.scopes, Put(g, CompileChange(a)).scopes, [], [CompileChange(a)]);
    assert [] + [CompileChange(a)] == [CompileChange(a)];
  }

  // ----- bodies --------------------------------------------------------------------------

  /** A scope that has just been entered. */
  predicate FreshScope(s: Scopes) {
    |s| > 1 && Top(s).items == [] && Top(s).fork.NoFork? && Top(s).brace == 0 && !Top(s).open.Root?
  }

  /** In front of a body: after the tests of a then body, or in the scope of an else or a loop. */
  ghost predicate Opens(f: Machine) {
    && Calm(f)
    && ((f.state.StCond? && Clear(f)) || (f.state.StCtrl? && FreshScope(f.scopes) && !f.canElse))
  }

  /** The machine with the scope of the body entered. */
  lemma {:induction false} Entered(f: Machine)
    requires Opens(f)
    ensures var e := FlushCond(f);
            Clear(e) && Calm(e) && FreshScope(e.scopes) && !e.state.StCond? && !e.canElse
  {
    FlushCondInv(f);
  }

  /** A body parsed from the entered machine `e`: its scope, with the code in it, is left or about to be left. */
  ghost predicate BodyParsed(e: Machine, m1: Machine, t: Scopes, code: seq<Item>) {
    && Ready(m1)
    && Adds(e.scopes, t, code) && FreshScope(e.scopes) && Top(t).fork.NoFork?
    && Unwinds(m1.scopes, LeaveScope(t))
  }

  lemma {:induction false} FreshUnwinds(e: Scopes, t: Scopes, code: seq<Item>)
    requires Adds(e, t, code) && FreshScope(e) && Top(t).fork.NoFork?
    ensures Unwinds(t, LeaveScope(t)) && Top(t).TakesElse() == Top(e).TakesElse()
  {
  }

  /** A colon in front of the assignment of a one-line body is no operator. */
  lemma {:induction false} ColonDropped(f: Machine)
    requires Opens(f)
    ensures AcceptColon(FlushCond(f.(op := AndOperator))) == FlushCond(f)
  {
  }

  lemma {:induction false} ColonStep(hash: Hash, m: Machine, w: Words)
    requires m.ok && Opens(FinalizeCond(m, w))
    ensures ScopeMachine.Step(hash, m, Colon(w)) == FinalizeCond(m, w).(op := AndOperator)
  {
    hide FinalizeCond;
  }

  lemma {:induction false} ChangeStep(hash: Hash, c: Machine, e: Machine, a: Change)
    requires c.ok && AcceptColon(FlushCond(c)) == e && Clear(e) && Calm(e) && ChangeHasText(a)
    ensures var m1 := ScopeMachine.Step(hash, c, ChangeEvent(a));
            Ready(m1) && Adds(e.scopes, m1.scopes, [CompileChange(a)]) && m1.canElse == e.canElse && Top(m1.scopes).fork.NoFork?
  {
    ChangePut(e, a);
    assert AcceptColon(e) == e;
    hide FlushCond, Adds, PutLineMarker, PutHeaded;
  }

  lemma {:induction false} OneLineParsed(hash: Hash, m: Machine, w: Words, a: Change)
    requires m.ok && Opens(FinalizeCond(m, w)) && ChangeHasText(a)
    ensures var e := FlushCond(FinalizeCond(m, w));
            var m1 := Run(hash, m, BodyEvents(w, OneLine(Changing(a))));
            BodyParsed(e, m1, m1.scopes, [CompileChange(a)]) && !m1.canElse && Adds(e.scopes, m1.scopes, [CompileChange(a)])
  {
    var f := FinalizeCond(m, w);
    Entered(f);
    ColonDropped(f);
    ColonStep(hash, m, w);
    ChangeStep(hash, f.(op := AndOperator), FlushCond(f), a);
    assert ([Colon(w)] + [ChangeEvent(a)])[1..] == [ChangeEvent(a)];
    FreshUnwinds(FlushCond(f).scopes, ScopeMachine.Step(hash, f.(op := AndOperator), ChangeEvent(a)).scopes, [CompileChange(a)]);
    hide FlushCond, Inv, Adds, FinalizeCond, ChangeEvent, ScopeMachine.Step, Unwinds;
    RunOne(hash, f.(op := AndOperator), ChangeEvent(a));
  }

  /** Tests as the one-line body of an else, a loop or a function. */
  lemma {:induction false} OneLineTests(hash: Hash, m: Machine, w: Words, c: Condition, inLoop: bool, inFunction: bool)
    requires m.ok && Opens(FinalizeCond(m, w)) && FinalizeCond(m, w).state.StCtrl? &&
             ConditionHasText(c, inLoop, inFunction)
    requires Nests(FlushCond(FinalizeCond(m, w)).scopes, inLoop, inFunction)
    ensures var e := FlushCond(FinalizeCond(m, w));
            var m1 := Run(hash, m, BodyEvents(w, OneLine(Testing(c))));
            BodyParsed(e, m1, m1.scopes, CompileCondition(c)) && Nests(m1.scopes, inLoop, inFunction)
            && Top(m1.scopes).TakesElse() == Top(e.scopes).TakesElse()
  {
    var f := FinalizeCond(m, w);
    var g := f.(op := AndOperator);
    assert FlushCond(f) == f && Base(g) == g.scopes && Starts(g);
    ConditionDone(hash, g, c, inLoop, inFunction);
    ColonStep(hash, m, w);
    ActionRuns(hash, g, Testing(c));
    var es := ActionEvents(Testing(c));
    assert ([Colon(w)] + es)[1..] == es;
    FreshUnwinds(f.scopes, LineEnd(hash, g, Testing(c)).scopes, CompileCondition(c));
    hide Unwinds;
    hide FlushCond, Inv, Adds, FinalizeCond, ActionEvents, ScopeMachine.Step, Base;
  }

  lemma {:induction false} OpenLine(hash: Hash, m: Machine, w: Words)
    requires m.ok && Opens(FinalizeCond(m, w))
    ensures var e := FlushCond(FinalizeCond(m, w));
            var n := OpenScope(FinalizeCond(m, w));
            && Run(hash, m, [Open(w)]) == n
            && Ready(n) && Base(n) == n.scopes && n.scopes == WithTop(e.scopes, Top(e.scopes).(brace := 1))
            && !n.canElse
  {
    var f := FinalizeCond(m, w);
    Entered(f);
    OpenParts(f);
    OpenScopeInv(f);
    OpenStep(hash, m, w);
    var o := OpenScope(f);
    hide FlushCond, Inv, FinalizeCond, OpenScope, Flushed, ScopeMachine.Step;
    BaseIsFlat(o);
    RunOne(hash, m, Open(w));
  }

  lemma {:induction false} OpenStep(hash: Hash, m: Machine, w: Words)
    requires m.ok && Opens(FinalizeCond(m, w))
    ensures ScopeMachine.Step(hash, m, Open(w)) == OpenScope(FinalizeCond(m, w))
  {
    hide FinalizeCond, OpenScope;
  }

  lemma {:induction false} OpenParts(f: Machine)
    requires Opens(f)
    ensures var e, o := FlushCond(f), OpenScope(f);
            && o.scopes == WithTop(e.scopes, Top(e.scopes).(brace := 1)) && Top(o.scopes).brace == 1 && Top(o.scopes).fork.NoFork?
            && o.ok && o.state.StNew? && o.op.NoOperator? && o.invert == 0 && !o.canElse
  {
    Entered(f);
    assert FailOperator(f) == f;
    hide FlushCond, Inv;
  }

  lemma {:induction false} CloseLine(e: Machine, n: Machine, p: Machine, code: seq<Item>) returns (t: Scopes)
    requires Ready(p) && FreshScope(e.scopes) && n.scopes == WithTop(e.scopes, Top(e.scopes).(brace := 1))
    requires Adds(n.scopes, Base(p), code)
    ensures BodyParsed(e, CloseScope(p), t, code) && CloseScope(p).scopes == LeaveScope(t) && !CloseScope(p).canElse
  {
    BaseFlat(p);
    var b := Base(p);
    t := WithTop(b, Top(b).(brace := 0));
    assert WithTop(e.scopes, Top(t)) == t;
    CloseScopeInv(p);
    hide Inv, Flushed, LeaveScope;
    Closed(p);
  }

  lemma {:induction false} Closed(p: Machine)
    requires Ready(p) && Top(Base(p)).brace == 1 && |Base(p)| > 1
    ensures var c := CloseScope(p);
            c.ok && c.op.NoOperator? && c.invert == 0 && c.state.StNew? && !c.canElse
            && c.scopes == LeaveScope(WithTop(Base(p), Top(Base(p)).(brace := 0)))
  {
  }

  // ----- then and else ---------------------------------------------------------------------

  /** The scope of a then body left: its branch waits for an else. */
  lemma {:induction false} ThenLeft(f: Machine, t: Scopes, code: seq<Item>) returns (thn: Block)
    requires f.state.StCond? && Top(f.scopes).fork.NoFork? && Adds(FlushCond(f).scopes, t, code) && Top(t).fork.NoFork?
    ensures thn.Block? && Strip(thn.items) == code
    ensures LeaveScope(t) == WithTop(f.scopes, Top(f.scopes).(fork := ElseDue(thn)))
  {
    var e := FlushCond(f).scopes;
    thn := Block.Block(Top(t).items);
    assert Top(e).items == [];
    assert Top(t).items[0..] == Top(t).items;
    assert |t| == |f.scopes| + 1 && t[..|t| - 1] == e[..|t| - 1];
    assert t[..|t| - 2] == f.scopes[..|f.scopes| - 1];
    assert t[|t| - 2] == Top(f.scopes).(fork := ThenOpen);
  }

  /** The scope of an else, a loop: left, it is an item of its parent. */
  lemma {:induction false} ScopeLeft(low: Scopes, e: Scopes, t: Scopes, code: seq<Item>) returns (body: seq<Item>)
    requires FreshScope(e) && !Top(e).open.ThenOf? && e[..|e| - 1] == low
    requires Adds(e, t, code) && Top(t).fork.NoFork?
    ensures Strip(body) == code
    ensures LeaveScope(t) == WithTop(low, AddItem(Top(low), LeftItem(Top(e).open, body)))
  {
    body := Top(t).items;
    assert body[0..] == body;
    assert t[..|t| - 1] == low;
    assert t[..|t| - 2] == low[..|low| - 1] && t[|t| - 2] == Top(low);
  }

  /** A branch waiting for its else, and the same branch closed, are flushed alike. */
  lemma {:induction false} ForkFlushed(s: Scopes, thn: Block)
    requires Top(s).fork.NoFork?
    ensures Flushed(WithTop(s, Top(s).(fork := ElseDue(thn)))) == Flushed(WithTop(s, AddItem(Top(s), Branch(thn, NoBlock))))
  {
    var a, b := WithTop(s, Top(s).(fork := ElseDue(thn))), WithTop(s, AddItem(Top(s), Branch(thn, NoBlock)));
    assert CloseFork(Top(a)) == Top(b) == CloseFork(Top(b));
    if Top(s).brace == 0 && |s| > 1 {
      assert a[..|a| - 2] == b[..|b| - 2] && a[|a| - 2] == b[|b| - 2];
      assert LeaveScope(a) == LeaveScope(b);
    } else {
      assert WithTop(a, Top(b)) == b && WithTop(b, Top(b)) == b;
    }
  }

  /** The else after a then body finds its branch. */
  lemma {:induction false} ElseFound(m: Machine, t: Scopes, s: Scopes, thn: Block, inLoop: bool, inFunction: bool)
    requires ThenParsed(m, s, t, thn, inLoop, inFunction) && Top(s).fork.NoFork? && Top(s).TakesElse()
    ensures ElseOpens(m, s, thn)
  {
    ElseSearches(m);
    FinalizeCondInv(m, ELSE_WORD);
    UnwindsElse(m, LeaveScope(t));
    ElseTaken(m, s, thn);
    hide Unwinds, FinalizeCond, TakeElse, LeaveScope, Inv;
  }

  /** Without tests in front, an else goes up the scopes. */
  lemma {:induction false} ElseSearches(m: Machine)
    requires Ready(m) && !ElseOwn(m)
    ensures WfWords(ELSE_WORD) && FinalizeCond(m, ELSE_WORD) == TakeElse(m)
  {
    ElseIsElse();
    assert FailOperator(m) == m;
    hide TakeElse, Inv;
  }

  lemma {:induction false} ElseTaken(m: Machine, s: Scopes, thn: Block)
    requires Top(s).fork.NoFork? && Top(s).TakesElse()
    ensures TakeElse(m.(scopes := WithTop(s, Top(s).(fork := ElseDue(thn))))) ==
            EnterScope(m.(scopes := s), ElseOf(thn), false, StCtrl)
  {
    assert WithTop(WithTop(s, Top(s).(fork := ElseDue(thn))), Top(s)) == s;
  }

  lemma {:induction false} ElseIsElse()
    ensures IsElse(ELSE_WORD.x) && WfExpr(ELSE_WORD.x)
  {
    var x := NameWord("else");
    assert Literal(x) == Some(ELSE);
    assert Lower(ELSE) == ELSE;
    assert x.elems[1..] == [];
  }

  // ----- statements --------------------------------------------------------------------------

  /** After a body, the nesting that was counted on in it, or the scope around it; and no else of its own. */
  ghost predicate BodyEnds(e: Scopes, m1: Machine, t: Scopes, b: Body, inLoop: bool, inFunction: bool) {
    && (m1.scopes == LeaveScope(t) || (OnLine(b) && Nests(m1.scopes, inLoop, inFunction)))
    && ((IsTests(b) && Top(e).TakesElse()) || !ElseOwn(m1))
  }

  /** What may stand behind the colon here. */
  predicate MayFollow(f: Machine, s: Stmt) {
    && !s.Blank? && !s.Single? && (f.state.StCtrl? || s.Loop?)
    && (s.If? ==> s.i.els.Nothing? && !Top(f.scopes).TakesElse())
  }

  lemma {:induction false} BodyDone(hash: Hash, m: Machine, w: Words, b: Body, inLoop: bool, inFunction: bool)
    returns (t: Scopes)
    requires m.ok && Opens(FinalizeCond(m, w)) && BodyHasText(hash, b, inLoop, inFunction)
    requires Nests(FlushCond(FinalizeCond(m, w)).scopes, inLoop, inFunction)
    requires IsTests(b) ==> FinalizeCond(m, w).state.StCtrl?
    requires b.Embedded? ==> MayFollow(FinalizeCond(m, w), b.s)
    ensures BodyParsed(FlushCond(FinalizeCond(m, w)), Run(hash, m, BodyEvents(w, b)), t, CompileBody(b))
    ensures BodyEnds(FlushCond(FinalizeCond(m, w)).scopes, Run(hash, m, BodyEvents(w, b)), t, b, inLoop, inFunction)
    decreases b, 1
  {
    var f := FinalizeCond(m, w);
    Entered(f);
    match b
    case OneLine(act) =>
      match act {
        case Changing(a) => OneLineParsed(hash, m, w, a);
        case Testing(c) => OneLineTests(hash, m, w, c, inLoop, inFunction);
      }
      t := Run(hash, m, BodyEvents(w, b)).scopes;
    case Braces(p) =>
      t := BracesDone(hash, m, w, p, inLoop, inFunction);
    case Inline(p, act) =>
      t := InlineDone(hash, m, w, p, act, inLoop, inFunction);
    case Embedded(s) =>
      t := EmbeddedDone(hash, m, w, s, inLoop, inFunction);
  }

  lemma {:induction false} BracesDone(hash: Hash, m: Machine, w: Words, p: seq<Stmt>, inLoop: bool, inFunction: bool)
    returns (t: Scopes)
    requires m.ok && Opens(FinalizeCond(m, w)) && ProgramHasText(hash, p, inLoop, inFunction)
    requires Nests(FlushCond(FinalizeCond(m, w)).scopes, inLoop, inFunction)
    ensures var m1 := Run(hash, m, [Open(w)] + (ProgramEvents(p) + [Close(NoWord)]));
            && BodyParsed(FlushCond(FinalizeCond(m, w)), m1, t, CompileProgram(p))
            && m1.scopes == LeaveScope(t) && !m1.canElse
    decreases p, 1
  {
    var f := FinalizeCond(m, w);
    Entered(f);
    OpenLine(hash, m, w);
    var n := OpenScope(f);
    ProgramDone(hash, n, p, inLoop, inFunction);
    hide FinalizeCond, FlushCond, OpenScope, Inv, Adds, Base, BodyParsed, CompileProgram, ProgramEvents, LeaveScope;
    var r := Run(hash, n, ProgramEvents(p));
    t := CloseLine(FlushCond(f), n, r, CompileProgram(p));
    assert r.(state := StNew) == r;
    hide CloseScope;
    RunAppend(hash, m, [Open(w)], ProgramEvents(p) + [Close(NoWord)]);
    RunAppend(hash, n, ProgramEvents(p), [Close(NoWord)]);
    RunOne(hash, r, Close(NoWord));
  }

  lemma {:induction false} InlineDone(hash: Hash, m: Machine, w: Words, p: seq<Stmt>, act: Action, inLoop: bool,
                                      inFunction: bool)
    returns (t: Scopes)
    requires m.ok && Opens(FinalizeCond(m, w)) && ProgramHasText(hash, p, inLoop, inFunction)
    requires ActionHasText(act, inLoop, inFunction) && Nests(FlushCond(FinalizeCond(m, w)).scopes, inLoop, inFunction)
    ensures var m1 := Run(hash, m, [Open(w)] + (ProgramEvents(p) + LastEvents(act)));
            && BodyParsed(FlushCond(FinalizeCond(m, w)), m1, t, CompileProgram(p) + CompileAction(act))
            && m1.scopes == LeaveScope(t) && !m1.canElse
    decreases p, 1
  {
    var f := FinalizeCond(m, w);
    Entered(f);
    OpenLine(hash, m, w);
    var n := OpenScope(f);
    ProgramDone(hash, n, p, inLoop, inFunction);
    hide FinalizeCond, FlushCond, OpenScope, Inv, Adds, BodyParsed, CompileProgram, CompileAction, ProgramEvents, LeaveScope, LastEvents;
    var r := Run(hash, n, ProgramEvents(p));
    ActionDone(hash, r, act, inLoop, inFunction);
    var q := LineEnd(hash, r, act);
    BaseIsFlat(q);
    hide LineEnd, Base, CloseScope, Flat;
    ActionRuns(hash, r, act);
    AddsTrans(n.scopes, Base(r), Base(q), CompileProgram(p), CompileAction(act));
    t := CloseLine(FlushCond(f), n, q, CompileProgram(p) + CompileAction(act));
    RunAppend(hash, m, [Open(w)], ProgramEvents(p) + LastEvents(act));
    RunAppend(hash, n, ProgramEvents(p), LastEvents(act));
  }

  lemma {:induction false} BaseIsFlat(q: Machine)
    requires Ready(q) && Flat(q.scopes)
    ensures Base(q) == q.scopes
  {
    BaseFlat(q);
    FlatFlushed(q.scopes);
  }

  /** What parsing a choice leaves behind: `z`, once flushed. */
  ghost predicate ChoiceParsed(m: Machine, m1: Machine, z: Scopes, code: seq<Item>, inLoop: bool, inFunction: bool) {
    && Ready(m1) && Nests(m1.scopes, inLoop, inFunction)
    && Adds(Base(m), z, code) && Top(z).fork.NoFork? && Flushed(m1.scopes) == Flushed(z)
  }

  /** In a one-line scope that takes no else a choice has none, and its branch is closed with the scope. */
  ghost predicate ChoiceEnds(m: Machine, m1: Machine, z: Scopes, i: Choice) {
    i.els.Nothing? && !Top(Base(m)).TakesElse() && |Base(m)| > 1 ==> Unwinds(m1.scopes, LeaveScope(z)) && !ElseOwn(m1)
  }

  /** The branch itself, after the condition's items. */
  lemma {:induction false} BranchAdds(base: Scopes, s: Scopes, c: Condition, thn: Block, els: Block, thnCode: Block,
                                      elsCode: Block)
    returns (z: Scopes)
    requires Adds(base, s, CompileCondition(c)) && Top(s).fork.NoFork?
    requires StripBlock(thn) == thnCode && StripBlock(els) == elsCode
    ensures z == WithTop(s, AddItem(Top(s), Branch(thn, els)))
    ensures Adds(base, z, CompileCondition(c) + [Branch(thnCode, elsCode)])
  {
    var i := Branch(thn, els);
    z := WithTop(s, AddItem(Top(s), i));
    StripOne(i);
    assert (Top(s).items + [i])[|Top(s).items|..] == [i];
    assert Adds(s, z, [Branch(thnCode, elsCode)]);
    hide Adds, Strip, StripBlock, StripItem;
    AddsTrans(base, s, z, CompileCondition(c), [Branch(thnCode, elsCode)]);
  }

  lemma {:induction false} ChoiceDone(hash: Hash, m: Machine, i: Choice, inLoop: bool, inFunction: bool)
    returns (z: Scopes)
    requires Starts(m) && ChoiceHasText(hash, i, inLoop, inFunction) && NestsWell(m, inLoop, inFunction)
    requires i.els.Nothing? || Top(Base(m)).TakesElse()
    ensures ChoiceParsed(m, Run(hash, m, ChoiceEvents(i)), z, CompileChoice(i), inLoop, inFunction)
    ensures ChoiceEnds(m, Run(hash, m, ChoiceEvents(i)), z, i)
    decreases i, 1
  {
    var w := ConditionWord(i.c);
    ConditionDone(hash, m, i.c, inLoop, inFunction);
    var r, f := Run(hash, m, ConditionEvents(i.c)), Taken(hash, m, ConditionEvents(i.c), w);
    TakenOk(hash, m, ConditionEvents(i.c), w);
    assert FinalizeCond(r, w) == f && Opens(f) && f.state.StCond?;
    assert Top(f.scopes).TakesElse() == Top(Base(m)).TakesElse();
    hide Base, Run, FinalizeCond, LeaveScope, Opens, Unwinds;
    Joined(hash, m, i);
    if i.thn.None? {
      z := BareDone(hash, m, r, f, i, inLoop, inFunction);
    } else {
      z := ThenDone(hash, m, r, f, i, inLoop, inFunction);
    }
  }

  lemma {:induction false} Joined(hash: Hash, m: Machine, i: Choice)
    ensures Run(hash, m, ChoiceEvents(i)) ==
            Run(hash, Run(hash, m, ConditionEvents(i.c)),
                ThenEvents(ConditionWord(i.c), i.thn) + ((if i.nextLine then [Newline(NoWord)] else []) + ElseEvents(i.els)))
  {
    hide ConditionEvents, ThenEvents, ElseEvents, ConditionWord;
    RunAppend(hash, m, ConditionEvents(i.c),
              ThenEvents(ConditionWord(i.c), i.thn) + ((if i.nextLine then [Newline(NoWord)] else []) + ElseEvents(i.els)));
  }

  /** The line end that may stand in front of an else. */
  function NextLine(m: Machine, nextLine: bool): Machine { if nextLine then FreshLine(m) else m }

  lemma {:induction false} ElseRuns(hash: Hash, r: Machine, a: seq<Event>, nextLine: bool, es: seq<Event>)
    requires Run(hash, r, a).ok
    ensures Run(hash, r, a + ((if nextLine then [Newline(NoWord)] else []) + es)) ==
            Run(hash, NextLine(Run(hash, r, a), nextLine), es)
  {
    var m1 := Run(hash, r, a);
    RunAppend(hash, r, a, (if nextLine then [Newline(NoWord)] else []) + es);
    if nextLine {
      RunAppend(hash, m1, [Newline(NoWord)], es);
      RunOne(hash, m1, Newline(NoWord));
    } else {
      assert [] + es == es;
    }
  }

  /** The tests of a choice parsed: `s` has their items, and `thn` is the then block. */
  ghost predicate TestsParsed(m: Machine, i: Choice, s: Scopes, thn: Block, inLoop: bool, inFunction: bool) {
    && Adds(Base(m), s, CompileCondition(i.c)) && Nests(s, inLoop, inFunction)
    && Top(s).fork.NoFork? && (i.els.Nothing? || Top(s).TakesElse()) && StripBlock(thn) == CompileThen(i.thn)
  }

  /** A then body parsed: `m1` is in front of what follows, with the branch of `s` waiting for its else. */
  ghost predicate ThenParsed(m1: Machine, s: Scopes, t: Scopes, thn: Block, inLoop: bool, inFunction: bool) {
    && Ready(m1) && !ElseOwn(m1) && Unwinds(m1.scopes, LeaveScope(t)) && Nests(m1.scopes, inLoop, inFunction)
    && |t| > 1 && Top(t).brace == 0 && Top(t).fork.NoFork?
    && LeaveScope(t) == WithTop(s, Top(s).(fork := ElseDue(thn)))
  }

  /** An else here opens the else block of the branch with the then block `thn` in `s`. */
  ghost predicate ElseOpens(m1: Machine, s: Scopes, thn: Block) {
    && m1.ok
    && var f := FinalizeCond(m1, ELSE_WORD);
       && Opens(f) && f.state.StCtrl? && FlushCond(f) == f && f.scopes[..|f.scopes| - 1] == s
       && Top(f.scopes).open == ElseOf(thn)
       && Top(f.scopes).inLoop == Top(s).inLoop && Top(f.scopes).inFunction == Top(s).inFunction
       && Top(f.scopes).TakesElse()
  }

  lemma {:induction false} ThenIsParsed(f: Machine, m1: Machine, t: Scopes, thn: Block, b: Body, nextLine: bool,
                                        inLoop: bool, inFunction: bool)
    requires BodyParsed(FlushCond(f), m1, t, CompileBody(b)) && IsThen(b) && Nests(f.scopes, inLoop, inFunction)
    requires BodyEnds(FlushCond(f).scopes, m1, t, b, inLoop, inFunction)
    requires LeaveScope(t) == WithTop(f.scopes, Top(f.scopes).(fork := ElseDue(thn)))
    ensures ThenParsed(NextLine(m1, nextLine), f.scopes, t, thn, inLoop, inFunction)
  {
    hide Unwinds, FlushCond, LeaveScope, CompileBody;
  }

  /** The tests, a then body, and what follows. */
  lemma {:induction false} ThenDone(hash: Hash, m: Machine, r: Machine, f: Machine, i: Choice, inLoop: bool,
                                    inFunction: bool)
    returns (z: Scopes)
    requires ChoiceHasText(hash, i, inLoop, inFunction) && i.thn.Some?
    requires r.ok && f == FinalizeCond(r, ConditionWord(i.c)) && Opens(f) && f.state.StCond?
    requires i.els.Nothing? || Top(f.scopes).TakesElse()
    requires TestsDone(m, f, CompileCondition(i.c), inLoop, inFunction)
    ensures var m1 := Run(hash, r, ThenEvents(ConditionWord(i.c), i.thn) +
                                   ((if i.nextLine then [Newline(NoWord)] else []) + ElseEvents(i.els)));
            ChoiceParsed(m, m1, z, CompileChoice(i), inLoop, inFunction) && ChoiceEnds(m, m1, z, i)
    decreases i, 0, 1
  {
    var w, b := ConditionWord(i.c), i.thn.value;
    assert Nests(FlushCond(f).scopes, inLoop, inFunction);
    var t := BodyDone(hash, r, w, b, inLoop, inFunction);
    var thn := ThenLeft(f, t, CompileBody(b));
    var m1 := Run(hash, r, BodyEvents(w, b));
    var m2 := NextLine(m1, i.nextLine);
    assert TestsParsed(m, i, f.scopes, thn, inLoop, inFunction);
    ThenIsParsed(f, m1, t, thn, b, i.nextLine, inLoop, inFunction);
    hide BodyParsed, BodyEnds, BodyHasText, FlushCond, BodyEvents, ElseEvents, Adds;
    hide Base, Run, FinalizeCond, LeaveScope, TestsParsed, ThenParsed, Opens, Inv, Unwinds;
    ElseRuns(hash, r, BodyEvents(w, b), i.nextLine, ElseEvents(i.els));
    if i.els.Nothing? {
      z := WithoutElse(m, m2, i, f.scopes, t, thn, inLoop, inFunction);
    } else {
      ElseFound(m2, t, f.scopes, thn, inLoop, inFunction);
      z := ElseDone(hash, m, m2, i, f.scopes, thn, inLoop, inFunction);
    }
  }

  /** Tests on a line of their own, and their else. */
  lemma {:induction false} BareDone(hash: Hash, m: Machine, r: Machine, f: Machine, i: Choice, inLoop: bool,
                                    inFunction: bool)
    returns (z: Scopes)
    requires ChoiceHasText(hash, i, inLoop, inFunction) && i.thn.None?
    requires r.ok && f == FinalizeCond(r, ConditionWord(i.c)) && f.state.StCond?
    requires i.els.Nothing? || Top(f.scopes).TakesElse()
    requires TestsDone(m, f, CompileCondition(i.c), inLoop, inFunction)
    ensures ChoiceParsed(m, Run(hash, r, ThenEvents(ConditionWord(i.c), i.thn) +
                                         ((if i.nextLine then [Newline(NoWord)] else []) + ElseEvents(i.els))),
                         z, CompileChoice(i), inLoop, inFunction)
    decreases i, 0, 1
  {
    var w := ConditionWord(i.c);
    var m2 := NextLine(FreshLine(f), i.nextLine);
    BareElse(m2, f.scopes);
    assert TestsParsed(m, i, f.scopes, NoBlock, inLoop, inFunction);
    RunOne(hash, r, Newline(w));
    hide Base, Run, FinalizeCond, TestsParsed, ElseOpens, Inv;
    ElseRuns(hash, r, [Newline(w)], i.nextLine, ElseEvents(i.els));
    z := ElseDone(hash, m, m2, i, f.scopes, NoBlock, inLoop, inFunction);
  }

  /** An else on the line behind tests belongs to them. */
  lemma {:induction false} BareElse(m: Machine, s: Scopes)
    requires Ready(m) && m.canElse && m.scopes == s && Top(s).fork.NoFork? && Top(s).TakesElse()
    ensures ElseOpens(m, s, NoBlock)
  {
    ElseIsElse();
    FinalizeCondInv(m, ELSE_WORD);
    assert FailOperator(m) == m;
    assert Else(m) == EnterScope(m, ElseOf(NoBlock), false, StCtrl);
  }

  lemma {:induction false} WithoutElse(m: Machine, m1: Machine, i: Choice, s: Scopes, t: Scopes, thn: Block,
                                       inLoop: bool, inFunction: bool) returns (z: Scopes)
    requires TestsParsed(m, i, s, thn, inLoop, inFunction) && ThenParsed(m1, s, t, thn, inLoop, inFunction) &&
             i.els.Nothing?
    ensures ChoiceParsed(m, m1, z, CompileChoice(i), inLoop, inFunction) && ChoiceEnds(m, m1, z, i)
  {
    UnwindsFlushed(m1.scopes, LeaveScope(t));
    ForkFlushed(s, thn);
    z := BranchAdds(Base(m), s, i.c, thn, NoBlock, CompileThen(i.thn), NoBlock);
    var x := LeaveScope(t);
    if !Top(s).TakesElse() && |s| > 1 {
      UnwindsOn(m1.scopes, x);
      ForkLeft(s, thn);
    }
    hide Unwinds, Flushed, LeaveScope, Adds, Inv;
  }

  /** A branch waiting for its else, and the same branch closed, leave the same item. */
  lemma {:induction false} ForkLeft(s: Scopes, thn: Block)
    requires Top(s).fork.NoFork? && |s| > 1
    ensures LeaveScope(WithTop(s, Top(s).(fork := ElseDue(thn)))) == LeaveScope(WithTop(s, AddItem(Top(s), Branch(thn, NoBlock))))
  {
    var a, b := WithTop(s, Top(s).(fork := ElseDue(thn))), WithTop(s, AddItem(Top(s), Branch(thn, NoBlock)));
    assert CloseFork(Top(a)) == Top(b) == CloseFork(Top(b));
    assert a[..|a| - 2] == b[..|b| - 2] && a[|a| - 2] == b[|b| - 2];
  }

  /** The scope `t2` of a parsed else body, in `e`, becomes the else block. */
  lemma {:induction false} WithElse(m: Machine, i: Choice, s: Scopes, thn: Block,
                                    e: Scopes, m2: Machine, t2: Scopes, code: seq<Item>, inLoop: bool, inFunction: bool)
    returns (z: Scopes)
    requires TestsParsed(m, i, s, thn, inLoop, inFunction) && CompileElse(i.els) == Block.Block(code)
    requires FreshScope(e) && e[..|e| - 1] == s && Top(e).open == ElseOf(thn) && Nests(e, inLoop, inFunction)
    requires Adds(e, t2, code) && Top(t2).fork.NoFork?
    requires Ready(m2) && Nests(m2.scopes, inLoop, inFunction) && Flushed(m2.scopes) == Flushed(LeaveScope(t2))
    ensures ChoiceParsed(m, m2, z, CompileChoice(i), inLoop, inFunction)
  {
    var body := ScopeLeft(s, e, t2, code);
    hide Inv, Flushed, LeaveScope, Adds, Base, Strip, Nests;
    z := BranchAdds(Base(m), s, i.c, thn, Block.Block(body), CompileThen(i.thn), Block.Block(code));
  }

  lemma {:induction false} ElseDone(hash: Hash, m: Machine, m1: Machine, i: Choice, s: Scopes, thn: Block,
                                    inLoop: bool, inFunction: bool) returns (z: Scopes)
    requires ChoiceHasText(hash, i, inLoop, inFunction) && !i.els.Nothing?
    requires TestsParsed(m, i, s, thn, inLoop, inFunction) && ElseOpens(m1, s, thn)
    ensures ChoiceParsed(m, Run(hash, m1, ElseEvents(i.els)), z, CompileChoice(i), inLoop, inFunction)
    decreases i, 0, 0
  {
    var f := FinalizeCond(m1, ELSE_WORD);
    assert Nests(f.scopes, inLoop, inFunction);
    hide Inv, LeaveScope, Adds, Base, FinalizeCond, StripBlock;
    if i.els.Do? {
      var t2 := BodyDone(hash, m1, ELSE_WORD, i.els.b, inLoop, inFunction);
      var m2 := Run(hash, m1, BodyEvents(ELSE_WORD, i.els.b));
      BodyLeft(f.scopes, m2, t2, CompileBody(i.els.b), inLoop, inFunction);
      z := WithElse(m, i, s, thn, f.scopes, m2, t2, CompileBody(i.els.b), inLoop, inFunction);
    } else {
      z := ElifDone(hash, m, m1, i, s, thn, f, inLoop, inFunction);
    }
  }

  lemma {:induction false} ElifDone(hash: Hash, m: Machine, m1: Machine, i: Choice, s: Scopes, thn: Block, f: Machine,
                                    inLoop: bool, inFunction: bool) returns (z: Scopes)
    requires i.els.Elif? && ChoiceHasText(hash, i, inLoop, inFunction) && TestsParsed(m, i, s, thn, inLoop, inFunction)
    requires ElseOpens(m1, s, thn) && f == FinalizeCond(m1, ELSE_WORD) && Nests(f.scopes, inLoop, inFunction)
    ensures ChoiceParsed(m, Run(hash, m1, ElseEvents(i.els)), z, CompileChoice(i), inLoop, inFunction)
    decreases i, -1
  {
    var g := f.(op := AndOperator);
    ElifStep(hash, m1, i.els.i);
    assert Base(g) == g.scopes && Starts(g);
    var t2 := ChoiceDone(hash, g, i.els.i, inLoop, inFunction);
    assert Top(t2).brace == 0 && |t2| > 1;
    FlushedLeave(t2);
    hide Inv, Flushed, LeaveScope, Adds, Base, FinalizeCond, StripBlock;
    z := WithElse(m, i, s, thn, f.scopes, Run(hash, g, ChoiceEvents(i.els.i)), t2, CompileChoice(i.els.i), inLoop, inFunction);
  }

  lemma {:induction false} ElifStep(hash: Hash, m: Machine, j: Choice)
    requires m.ok && Opens(FinalizeCond(m, ELSE_WORD))
    ensures Run(hash, m, ElseEvents(Elif(j))) == Run(hash, FinalizeCond(m, ELSE_WORD).(op := AndOperator), ChoiceEvents(j))
  {
    ColonStep(hash, m, ELSE_WORD);
    hide ChoiceEvents, FinalizeCond, ScopeMachine.Step;
    assert ([Colon(ELSE_WORD)] + ChoiceEvents(j))[1..] == ChoiceEvents(j);
  }

  /** Left or about to be left, a parsed body is flushed alike. */
  lemma {:induction false} BodyLeft(e: Scopes, m1: Machine, t: Scopes, code: seq<Item>, inLoop: bool, inFunction: bool)
    requires Adds(e, t, code) && FreshScope(e) && Unwinds(m1.scopes, LeaveScope(t))
    requires m1.scopes == LeaveScope(t) || Nests(m1.scopes, inLoop, inFunction)
    requires Nests(e[..|e| - 1], inLoop, inFunction) && !Top(e).open.Root?
    ensures Nests(m1.scopes, inLoop, inFunction) && Flushed(m1.scopes) == Flushed(LeaveScope(t))
  {
    UnwindsFlushed(m1.scopes, LeaveScope(t));
    hide Flushed, Unwinds;
    assert t[..|t| - 1] == e[..|e| - 1];
  }

  // ----- loops ----------------------------------------------------------------------------------

  lemma {:induction false} LoopWordsRead(hash: Hash, name: HStr, list: Expr)
    requires LoopHasText(hash, name, list)
    ensures LoopArgs(hash, LoopWords(name.s, list)) == Some(ScopeMachine.LoopHead(name.s, list))
    ensures WfArgs(LoopWords(name.s, list))
  {
    var args := LoopWords(name.s, list);
    OneElemWf(Lit(true, name.s));
    if Literal(list).Some? {
      assert WfElems(list.elems) && WfElem(list.elems[0]);
      OneElemWf(Lit(true, Literal(list).value));
    }
    if args != [] {
      assert WfAll(args[1..]);
    }
  }

  /** A scope of its own has been entered by a call, with `code` put in front of it. */
  ghost predicate ScopeEntered(base: Scopes, f: Machine, open: Opener, code: seq<Item>) {
    && Opens(f) && f.state.StCtrl? && FlushCond(f) == f && Top(f.scopes).open == open && !open.ThenOf? && !open.Root?
    && !Top(f.scopes).TakesElse()
    && Adds(base, f.scopes[..|f.scopes| - 1], code) && Top(f.scopes[..|f.scopes| - 1]).fork.NoFork?
  }

  /** The scope of a loop entered, behind a line marker. */
  function InLoop(c: Machine, name: HStr, list: Expr): Machine {
    var f := EnterScope(PutLineMarker(c), BodyOf(name, list), true, StCtrl);
    f.(scopes := WithTop(f.scopes, Top(f.scopes).(inLoop := true)))
  }

  lemma {:induction false} LoopCalled(hash: Hash, m: Machine, name: HStr, list: Expr)
    requires m.ok && AcceptColon(m).ok && LoopHasText(hash, name, list)
    ensures ScopeMachine.Step(hash, m, LoopEvent(name, list)) == CallFor(hash, m, LoopWords(name.s, list))
    ensures CallFor(hash, m, LoopWords(name.s, list)) == InLoop(FlushCond(AcceptColon(m)), name, list)
  {
    JumpNames();
    LoopWordsRead(hash, name, list);
    hide FlushCond, PutLineMarker, AcceptColon, LoopArgs, WfArgs;
  }

  /** A loop, in the scope that the tests in front of it open. */
  lemma {:induction false} LoopEntered(hash: Hash, m: Machine, name: HStr, list: Expr, inFunction: bool)
    requires m.ok && Inv(m) && AcceptColon(m).ok && LoopHasText(hash, name, list)
    requires inFunction ==> Top(FlushCond(AcceptColon(m)).scopes).inFunction
    ensures var f := ScopeMachine.Step(hash, m, LoopEvent(name, list));
            ScopeEntered(FlushCond(AcceptColon(m)).scopes, f, BodyOf(name, list), []) && Nests(f.scopes, true, inFunction)
  {
    LoopCalled(hash, m, name, list);
    LoopWordsRead(hash, name, list);
    CallForInv(hash, m, LoopWords(name.s, list));
    var c := FlushCond(AcceptColon(m));
    FlushCondInv(AcceptColon(m));
    FlushCondCalm(m);
    hide FlushCond, CallFor, AcceptColon, ScopeMachine.Step, LoopWords, WfArgs, LoopHasText;
    InLoopEntered(c, name, list);
    NestsInLoop(c, name, list, inFunction);
  }

  lemma {:induction false} FlushCondCalm(m: Machine)
    requires AcceptColon(m).ok
    ensures var c := FlushCond(AcceptColon(m)); c.ok && c.op.NoOperator? && c.invert == 0
  {
  }

  lemma {:induction false} NestsInLoop(c: Machine, name: HStr, list: Expr, inFunction: bool)
    requires Clear(c) && (inFunction ==> Top(c.scopes).inFunction)
    ensures Nests(InLoop(c, name, list).scopes, true, inFunction)
  {
    MarkerAdds(c);
    hide PutLineMarker, Inv;
  }

  lemma {:induction false} InLoopEntered(c: Machine, name: HStr, list: Expr)
    requires Clear(c) && c.ok && c.op.NoOperator? && c.invert == 0 && Inv(InLoop(c, name, list))
    ensures ScopeEntered(c.scopes, InLoop(c, name, list), BodyOf(name, list), [])
  {
    MarkerAdds(c);
    var n := PutLineMarker(c);
    var f := InLoop(c, name, list);
    assert f.scopes[..|f.scopes| - 1] == n.scopes;
    hide PutLineMarker, Inv;
  }

  /** At the beginning of a line. */
  lemma {:induction false} ReadyColon(m: Machine)
    requires Ready(m)
    ensures AcceptColon(m) == m && FlushCond(m).scopes == Base(m)
  {
  }

  lemma {:induction false} FunctionArg(name: HStr)
    requires FitsStr(name.s)
    ensures var args := [Expr.Expr([Lit(true, name.s)])]; WfArgs(args) && PlainArg(args[0]) == Some(name.s)
  {
    OneElemWf(Lit(true, name.s));
    assert [Expr.Expr([Lit(true, name.s)])][1..] == [];
  }

  lemma {:induction false} FunctionEntered(hash: Hash, m: Machine, isTest: bool, name: HStr)
    requires m.ok && Inv(m) && m.invert == 0 && FitsStr(name.s) && name == Hashed(hash, name.s)
    ensures var f := ScopeMachine.Step(hash, m, FunctionEvent(isTest, name));
            ScopeEntered(Base(m), f, DefOf(isTest, name), OperatorItems(FlushScopes(m))) && Nests(f.scopes, false, true)
  {
    var args := [Expr.Expr([Lit(true, name.s)])];
    DefineNames();
    FunctionArg(name);
    CallDefineInv(hash, m, isTest, args);
    var g := MarkerAndOperator(m);
    var f := CallDefine(hash, m, isTest, args);
    assert f.scopes[..|f.scopes| - 1] == g.scopes;
  }

  lemma {:induction false} GlobalEntered(hash: Hash, m: Machine, inLoop: bool)
    requires m.ok && Inv(m) && m.invert == 0 && Nests(m.scopes, inLoop, true) && Nests(Base(m), inLoop, true)
    ensures var f := ScopeMachine.Step(hash, m, GlobalEvent());
            ScopeEntered(Base(m), f, BypassOf, OperatorItems(FlushScopes(m))) && Nests(f.scopes, inLoop, true)
  {
    DefineNames();
    CallBypassInv(m, []);
    var g := MarkerAndOperator(m);
    var f := CallBypass(m, []);
    assert f.scopes[..|f.scopes| - 1] == g.scopes;
  }

  /** What is put in front of a definition. */
  lemma {:induction false} MarkerAndOperator(m: Machine) returns (g: Machine)
    requires m.ok && Inv(m)
    ensures g == PutOperator(PutLineMarker(FlushScopes(m))) && Clear(g) && g.ok && g.invert == m.invert && g.op.NoOperator?
    ensures Adds(Base(m), g.scopes, OperatorItems(FlushScopes(m)))
    ensures Top(g.scopes).inLoop == Top(Base(m)).inLoop && Top(g.scopes).inFunction == Top(Base(m)).inFunction
  {
    FlushScopesInv(m);
    var f := FlushScopes(m);
    MarkerAdds(f);
    var n := PutLineMarker(f);
    OperatorAdds(n);
    g := PutOperator(n);
    AddsTrans(f.scopes, n.scopes, g.scopes, [], OperatorItems(n));
    assert [] + OperatorItems(n) == OperatorItems(f);
  }

  /** How a call opens its scope. */
  function ScopedOpener(d: Scoped): Opener {
    match d
    case Function(isTest, name, _) => DefOf(isTest, name)
    case Globally(_) => BypassOf
  }

  function ScopedEvent(d: Scoped): ScopeMachine.Event {
    match d
    case Function(isTest, name, _) => FunctionEvent(isTest, name)
    case Globally(_) => GlobalEvent()
  }

  predicate BodyInLoop(d: Scoped, inLoop: bool) { d.Globally? && inLoop }

  predicate BodyInFunction(d: Scoped, inFunction: bool) { d.Function? || inFunction }

  lemma {:induction false} ScopedParts(hash: Hash, d: Scoped, inLoop: bool, inFunction: bool)
    requires ScopedHasText(hash, d, inLoop, inFunction)
    ensures ScopedEvents(d) == [ScopedEvent(d)] + BodyEvents(NoWord, d.body)
    ensures CompileScoped(d) == LeftItem(ScopedOpener(d), CompileBody(d.body))
    ensures BodyHasText(hash, d.body, BodyInLoop(d, inLoop), BodyInFunction(d, inFunction))
    ensures OnLine(d.body) && d.Function? ==> !inLoop
  {
  }

  lemma {:induction false} ScopedEntered(hash: Hash, m: Machine, d: Scoped, inLoop: bool, inFunction: bool)
    requires m.ok && Inv(m) && m.invert == 0 && ScopedHasText(hash, d, inLoop, inFunction)
    requires Nests(m.scopes, inLoop, inFunction) && Nests(Base(m), inLoop, inFunction)
    ensures var f := ScopeMachine.Step(hash, m, ScopedEvent(d));
            && ScopeEntered(Base(m), f, ScopedOpener(d), OperatorItems(FlushScopes(m)))
            && Nests(f.scopes, BodyInLoop(d, inLoop), BodyInFunction(d, inFunction))
  {
    hide FlushScopes, Base, ScopeMachine.Step, ScopeEntered, Inv, OperatorItems, BodyHasText;
    match d
    case Function(isTest, name, b) => FunctionEntered(hash, m, isTest, name);
    case Globally(b) => GlobalEntered(hash, m, inLoop);
  }

  /** A statement with a scope of its own, parsed: `z`, once the scopes on top are left. */
  ghost predicate ScopeParsed(base: Scopes, m1: Machine, z: Scopes, code: seq<Item>, inLoop: bool, inFunction: bool) {
    && Ready(m1) && Nests(m1.scopes, inLoop, inFunction)
    && Adds(base, z, code) && Top(z).fork.NoFork? && Unwinds(m1.scopes, z) && !ElseOwn(m1)
  }

  /** The call `e` and the body after it, with `code` put in front of the scope. */
  lemma {:induction false} ScopeDone(hash: Hash, m: Machine, base: Scopes, e: ScopeMachine.Event, open: Opener, b: Body,
                                     code: seq<Item>, bodyLoop: bool, bodyFunction: bool, inLoop: bool, inFunction: bool)
    returns (z: Scopes)
    requires BodyHasText(hash, b, bodyLoop, bodyFunction) && Nests(base, inLoop, inFunction)
    requires open.BodyOf? || open.DefOf? || open.BypassOf?
    requires var f := ScopeMachine.Step(hash, m, e);
             ScopeEntered(base, f, open, code) && Nests(f.scopes, bodyLoop, bodyFunction)
    requires OnLine(b) ==> (inLoop ==> bodyLoop) && (inFunction ==> bodyFunction)
    ensures ScopeParsed(base, Run(hash, m, [e] + BodyEvents(NoWord, b)), z, code + [LeftItem(open, CompileBody(b))],
                        inLoop, inFunction)
    decreases b, 2
  {
    var f := ScopeMachine.Step(hash, m, e);
    var t := BodyDone(hash, f, NoWord, b, bodyLoop, bodyFunction);
    var m2 := Run(hash, f, BodyEvents(NoWord, b));
    assert ([e] + BodyEvents(NoWord, b))[1..] == BodyEvents(NoWord, b);
    assert m2.scopes == LeaveScope(t) || Nests(m2.scopes, inLoop, inFunction);
    z := ScopeItemLeft(base, f, m2, t, open, code, CompileBody(b), inLoop, inFunction);
  }

  /** The scope `t` of a parsed body becomes an item. */
  lemma {:induction false} ScopeItemLeft(base: Scopes, f: Machine, m2: Machine, t: Scopes, open: Opener, front: seq<Item>,
                                         code: seq<Item>, inLoop: bool, inFunction: bool)
    returns (z: Scopes)
    requires ScopeEntered(base, f, open, front) && (open.BodyOf? || open.DefOf? || open.BypassOf?)
    requires Nests(base, inLoop, inFunction)
    requires BodyParsed(f, m2, t, code) && !ElseOwn(m2)
    requires m2.scopes == LeaveScope(t) || Nests(m2.scopes, inLoop, inFunction)
    ensures ScopeParsed(base, m2, z, front + [LeftItem(open, code)], inLoop, inFunction)
  {
    var low: Scopes := f.scopes[..|f.scopes| - 1];
    var body := ScopeLeft(low, f.scopes, t, code);
    var i := LeftItem(open, body);
    z := WithTop(low, AddItem(Top(low), i));
    StripOne(i);
    assert (Top(low).items + [i])[|Top(low).items|..] == [i];
    AddsTrans(base, low, z, front, [LeftItem(open, code)]);
    hide Inv, Flushed, LeaveScope, Unwinds;
  }

  lemma {:induction false} LoopDone(hash: Hash, m: Machine, name: HStr, list: Expr, b: Body, inLoop: bool, inFunction: bool)
    returns (z: Scopes)
    requires m.ok && Inv(m) && AcceptColon(m).ok && LoopHasText(hash, name, list) && BodyHasText(hash, b, true, inFunction)
    requires Nests(FlushCond(AcceptColon(m)).scopes, inLoop, inFunction)
    ensures ScopeParsed(FlushCond(AcceptColon(m)).scopes, Run(hash, m, [LoopEvent(name, list)] + BodyEvents(NoWord, b)), z,
                        [For(name, list, CompileBody(b))], inLoop, inFunction)
    decreases b, 3
  {
    LoopEntered(hash, m, name, list, inFunction);
    hide Inv, FlushCond, ScopeMachine.Step, ScopeEntered, ScopeParsed, BodyHasText;
    z := ScopeDone(hash, m, FlushCond(AcceptColon(m)).scopes, LoopEvent(name, list), BodyOf(name, list), b, [],
                   true, inFunction, inLoop, inFunction);
    assert [] + [For(name, list, CompileBody(b))] == [For(name, list, CompileBody(b))];
  }

  lemma {:induction false} ScopedDone(hash: Hash, m: Machine, d: Scoped, inLoop: bool, inFunction: bool) returns (z: Scopes)
    requires m.ok && Inv(m) && m.invert == 0 && ScopedHasText(hash, d, inLoop, inFunction)
    requires Nests(m.scopes, inLoop, inFunction) && Nests(Base(m), inLoop, inFunction)
    ensures ScopeParsed(Base(m), Run(hash, m, ScopedEvents(d)), z, OperatorItems(FlushScopes(m)) + [CompileScoped(d)],
                        inLoop, inFunction)
    decreases d, 0
  {
    ScopedEntered(hash, m, d, inLoop, inFunction);
    ScopedParts(hash, d, inLoop, inFunction);
    hide Inv, FlushScopes, OperatorItems, ScopeMachine.Step, ScopeEntered, ScopeParsed, BodyHasText, ScopedEvents, Base;
    z := ScopeDone(hash, m, Base(m), ScopedEvent(d), ScopedOpener(d), d.body, OperatorItems(FlushScopes(m)),
                   BodyInLoop(d, inLoop), BodyInFunction(d, inFunction), inLoop, inFunction);
  }

  /** The tests and the operator in front of a definition. */
  lemma {:induction false} GuardRuns(hash: Hash, m: Machine, c: Condition, or: bool, d: Scoped, inLoop: bool, inFunction: bool)
    requires Starts(m) && ConditionHasText(c, inLoop, inFunction) && NestsWell(m, inLoop, inFunction)
    ensures var f := Taken(hash, m, ConditionEvents(c), ConditionWord(c));
            var g := f.(op := if or then OrOperator else AndOperator);
            && g.ok && Inv(g) && g.invert == 0 && Nests(g.scopes, inLoop, inFunction) && Base(g) == f.scopes
            && Adds(Base(m), f.scopes, CompileCondition(c)) && OperatorItems(FlushScopes(g)) == [if or then Or else And]
            && Run(hash, m, StmtEvents(Guarded(c, or, d))) == Run(hash, g, ScopedEvents(d))
  {
    var es, w := ConditionEvents(c), ConditionWord(c);
    ConditionDone(hash, m, c, inLoop, inFunction);
    TakenOk(hash, m, es, w);
    var f := Taken(hash, m, es, w);
    AfterTests(f, if or then OrOperator else AndOperator);
    GuardTaken(hash, m, c, or, d);
    hide Taken, ConditionEvents, ConditionWord, Adds, Base, FlushScopes, OperatorItems, Run, StmtEvents, ScopedEvents;
  }

  lemma {:induction false} GuardTaken(hash: Hash, m: Machine, c: Condition, or: bool, d: Scoped)
    requires var f := Taken(hash, m, ConditionEvents(c), ConditionWord(c));
             f.ok && f.op.NoOperator? && f.invert == 0 && f.state.StCond?
    requires Run(hash, m, ConditionEvents(c)).ok
    ensures Run(hash, m, StmtEvents(Guarded(c, or, d))) ==
            Run(hash, Taken(hash, m, ConditionEvents(c), ConditionWord(c)).(op := if or then OrOperator else AndOperator),
                ScopedEvents(d))
  {
    var es, w := ConditionEvents(c), ConditionWord(c);
    var sep := if or then Pipe(w) else Colon(w);
    GuardStep(hash, Run(hash, m, es), w, or);
    hide FinalizeCond, ScopeMachine.Step, ScopedEvents, ConditionEvents, ConditionWord;
    RunAppend(hash, m, es, [sep] + ScopedEvents(d));
    RunAppend(hash, Run(hash, m, es), [sep], ScopedEvents(d));
    RunOne(hash, Run(hash, m, es), sep);
  }

  lemma {:induction false} GuardStep(hash: Hash, m: Machine, w: Words, or: bool)
    requires m.ok && FinalizeCond(m, w).ok && FinalizeCond(m, w).op.NoOperator? && FinalizeCond(m, w).invert == 0
    requires FinalizeCond(m, w).state.StCond?
    ensures ScopeMachine.Step(hash, m, if or then Pipe(w) else Colon(w)) ==
            FinalizeCond(m, w).(op := if or then OrOperator else AndOperator)
  {
    hide FinalizeCond;
  }

  lemma {:induction false} AfterTests(f: Machine, op: Operator)
    requires f.state.StCond? && !op.NoOperator?
    ensures Base(f.(op := op)) == f.scopes
    ensures OperatorItems(FlushScopes(f.(op := op))) == [if op.OrOperator? then Or else And]
  {
  }

  lemma {:induction false} GuardedDone(hash: Hash, m: Machine, c: Condition, or: bool, d: Scoped, inLoop: bool, inFunction: bool)
    returns (z: Scopes)
    requires Starts(m) && NestsWell(m, inLoop, inFunction) && StmtHasText(hash, Guarded(c, or, d), inLoop, inFunction)
    ensures ScopeParsed(Base(m), Run(hash, m, StmtEvents(Guarded(c, or, d))), z, CompileStmt(Guarded(c, or, d)),
                        inLoop, inFunction)
    decreases d, 1
  {
    var f := Taken(hash, m, ConditionEvents(c), ConditionWord(c));
    var g := f.(op := if or then OrOperator else AndOperator);
    GuardRuns(hash, m, c, or, d, inLoop, inFunction);
    hide Inv, FlushScopes, OperatorItems, Base, Unwinds, StmtEvents, Adds;
    z := ScopedDone(hash, g, d, inLoop, inFunction);
    var op := if or then Or else And;
    AddsTrans(Base(m), f.scopes, z, CompileCondition(c), [op] + [CompileScoped(d)]);
    assert [op] + [CompileScoped(d)] == [op, CompileScoped(d)];
  }

  // ----- a statement as the body of another on its line ----------------------------------------------

  /** In a scope of its own, in the scope of the body. */
  lemma {:induction false} EmbeddedScope(hash: Hash, f: Machine, g: Machine, e: Machine, s: Stmt, inLoop: bool, inFunction: bool)
    returns (t: Scopes)
    requires g == f.(op := AndOperator) && e == FlushCond(f) && AcceptColon(g) == f && Inv(g) && g.ok && f.ok && g.invert == 0
    requires f.state.StCtrl? ==> e == f && Base(g) == f.scopes && OperatorItems(FlushScopes(g)) == [] && Starts(g)
    requires MayFollow(f, s) && !s.If? && StmtHasText(hash, s, inLoop, inFunction) && Nests(e.scopes, inLoop, inFunction)
    ensures ScopeParsed(e.scopes, Run(hash, g, StmtEvents(s)), t, CompileStmt(s), inLoop, inFunction)
    decreases s, 1
  {
    hide FlushScopes, OperatorItems, Inv, Starts, ScopeParsed, ScopedHasText, BodyHasText, Base;
    match s
    case Loop(name, list, b) => t := LoopDone(hash, g, name, list, b, inLoop, inFunction);
    case Own(d) =>
      t := ScopedDone(hash, g, d, inLoop, inFunction);
      assert [] + [CompileScoped(d)] == [CompileScoped(d)];
    case Guarded(c, or, d) => t := GuardedDone(hash, g, c, or, d, inLoop, inFunction);
  }

  /** A choice, in the scope of a loop, a function or a block. */
  lemma {:induction false} EmbeddedChoice(hash: Hash, f: Machine, g: Machine, i: Choice, inLoop: bool, inFunction: bool)
    returns (t: Scopes)
    requires g == f.(op := AndOperator) && Starts(g) && Base(g) == f.scopes && FreshScope(f.scopes)
    requires i.els.Nothing? && !Top(f.scopes).TakesElse() && ChoiceHasText(hash, i, inLoop, inFunction)
    requires Nests(f.scopes, inLoop, inFunction)
    ensures var m1 := Run(hash, g, ChoiceEvents(i));
            BodyParsed(f, m1, t, CompileChoice(i)) && Nests(m1.scopes, inLoop, inFunction) && !ElseOwn(m1)
    decreases i, 2
  {
    t := ChoiceDone(hash, g, i, inLoop, inFunction);
    hide Inv, Unwinds, Adds, Starts, Base;
  }

  lemma {:induction false} EmbeddedDone(hash: Hash, m: Machine, w: Words, s: Stmt, inLoop: bool, inFunction: bool)
    returns (t: Scopes)
    requires m.ok && Opens(FinalizeCond(m, w)) && StmtHasText(hash, s, inLoop, inFunction)
    requires MayFollow(FinalizeCond(m, w), s) && Nests(FlushCond(FinalizeCond(m, w)).scopes, inLoop, inFunction)
    ensures var m1 := Run(hash, m, [Colon(w)] + StmtEvents(s));
            && BodyParsed(FlushCond(FinalizeCond(m, w)), m1, t, CompileStmt(s))
            && Nests(m1.scopes, inLoop, inFunction) && !ElseOwn(m1)
    decreases s, 2
  {
    var f := FinalizeCond(m, w);
    var g, e := f.(op := AndOperator), FlushCond(f);
    Entered(f);
    ColonAccepted(f);
    ColonStep(hash, m, w);
    assert ([Colon(w)] + StmtEvents(s))[1..] == StmtEvents(s);
    if s.If? {
      hide FinalizeCond, ScopeMachine.Step, Unwinds, Base, LeaveScope, Inv;
      t := EmbeddedChoice(hash, f, g, s.i, inLoop, inFunction);
    } else {
      hide FinalizeCond, ScopeMachine.Step, FlushCond, Opens, StmtEvents, CompileStmt, Unwinds, Base, LeaveScope, Inv;
      t := EmbeddedScope(hash, f, g, e, s, inLoop, inFunction);
      ScopeIsBody(e, Run(hash, g, StmtEvents(s)), t, CompileStmt(s), inLoop, inFunction);
    }
  }

  /** The colon in front is no operator to a loop, and to other statements none in an entered scope. */
  lemma {:induction false} ColonAccepted(f: Machine)
    requires Opens(f)
    ensures var g := f.(op := AndOperator);
            && AcceptColon(g) == f && Inv(g) && g.ok && g.invert == 0
            && (f.state.StCtrl? ==> FlushCond(f) == f && Base(g) == f.scopes && OperatorItems(FlushScopes(g)) == [] && Starts(g))
  {
  }

  /** In the scope of the body, the items of a statement are those of the body. */
  lemma {:induction false} ScopeIsBody(e: Machine, m1: Machine, t: Scopes, code: seq<Item>, inLoop: bool, inFunction: bool)
    requires FreshScope(e.scopes) && ScopeParsed(e.scopes, m1, t, code, inLoop, inFunction)
    ensures BodyParsed(e, m1, t, code)
  {
    UnwindsOn(m1.scopes, t);
    hide Unwinds;
  }

  // ----- programs ---------------------------------------------------------------------------------

  /** After a choice, or a statement with a scope of its own. */
  lemma {:induction false} ParsedDone(m: Machine, m1: Machine, z: Scopes, code: seq<Item>, inLoop: bool,
                                      inFunction: bool)
    requires Ready(m) && NestsWell(m, inLoop, inFunction) && ChoiceParsed(m, m1, z, code, inLoop, inFunction)
    ensures Done(m, m1, code, inLoop, inFunction)
  {
    BaseFlat(m);
    BaseFlat(m1);
    AddsFlat(Base(m), z, code);
    FlatFlushed(z);
  }

  /** An empty line. */
  lemma {:induction false} BlankDone(hash: Hash, m: Machine, inLoop: bool, inFunction: bool)
    requires Ready(m) && NestsWell(m, inLoop, inFunction)
    ensures Done(m, Run(hash, m, [Newline(NoWord)]), [], inLoop, inFunction)
  {
    RunOne(hash, m, Newline(NoWord));
    BaseFlat(m);
    AddsNothing(Base(m));
    hide Adds, Inv, Flat;
    FreshLineDone(m, m, [], inLoop, inFunction);
  }

  lemma {:induction false} StmtDone(hash: Hash, m: Machine, s: Stmt, inLoop: bool, inFunction: bool)
    requires Ready(m) && NestsWell(m, inLoop, inFunction) && StmtHasText(hash, s, inLoop, inFunction)
    ensures Done(m, Run(hash, m, StmtEvents(s)), CompileStmt(s), inLoop, inFunction)
    decreases s, 0
  {
    match s
    case Blank =>
      BlankDone(hash, m, inLoop, inFunction);
    case Single(act) =>
      SingleDone(hash, m, act, inLoop, inFunction);
    case If(i) =>
      RootTakesElse(m);
      var z := ChoiceDone(hash, m, i, inLoop, inFunction);
      ParsedDone(m, Run(hash, m, ChoiceEvents(i)), z, CompileChoice(i), inLoop, inFunction);
    case Loop(name, list, b) =>
      ReadyColon(m);
      var z := LoopDone(hash, m, name, list, b, inLoop, inFunction);
      ScopeStmtDone(m, Run(hash, m, StmtEvents(s)), z, CompileStmt(s), inLoop, inFunction);
    case Own(d) =>
      var z := ScopedDone(hash, m, d, inLoop, inFunction);
      assert OperatorItems(FlushScopes(m)) + [CompileScoped(d)] == [CompileScoped(d)];
      ScopeStmtDone(m, Run(hash, m, StmtEvents(s)), z, CompileStmt(s), inLoop, inFunction);
    case Guarded(c, or, d) =>
      var z := GuardedDone(hash, m, c, or, d, inLoop, inFunction);
      ScopeStmtDone(m, Run(hash, m, StmtEvents(s)), z, CompileStmt(s), inLoop, inFunction);
  }

  /** After a statement with a scope of its own. */
  lemma {:induction false} ScopeStmtDone(m: Machine, m1: Machine, z: Scopes, code: seq<Item>, inLoop: bool, inFunction: bool)
    requires Ready(m) && NestsWell(m, inLoop, inFunction) && ScopeParsed(Base(m), m1, z, code, inLoop, inFunction)
    ensures Done(m, m1, code, inLoop, inFunction)
  {
    UnwindsFlushed(m1.scopes, z);
    hide Unwinds, Flushed, Adds, Base, Inv;
    ParsedDone(m, m1, z, code, inLoop, inFunction);
  }

  lemma {:induction false} RootTakesElse(m: Machine)
    requires Ready(m)
    ensures Top(Base(m)).TakesElse()
  {
    BaseFlat(m);
    FlushScopesInv(m);
  }

  lemma {:induction false} ProgramDone(hash: Hash, m: Machine, p: seq<Stmt>, inLoop: bool, inFunction: bool)
    requires Ready(m) && NestsWell(m, inLoop, inFunction) && ProgramHasText(hash, p, inLoop, inFunction)
    ensures Done(m, Run(hash, m, ProgramEvents(p)), CompileProgram(p), inLoop, inFunction)
    decreases p, 0
  {
    if p == [] {
      AddsNothing(Base(m));
    } else {
      StmtDone(hash, m, p[0], inLoop, inFunction);
      var m1 := Run(hash, m, StmtEvents(p[0]));
      ProgramDone(hash, m1, p[1..], inLoop, inFunction);
      var m2 := Run(hash, m1, ProgramEvents(p[1..]));
      RunAppend(hash, m, StmtEvents(p[0]), ProgramEvents(p[1..]));
      hide Inv, Adds, Base, StmtEvents, CompileStmt, Calm;
      AddsTrans(Base(m), Base(m1), Base(m2), CompileStmt(p[0]), CompileProgram(p[1..]));
    }
  }
}
