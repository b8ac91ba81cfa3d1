// Two places where the end of a one-line scope is not what the text suggests.
module OneLineScopes {
  import opened Tokens
  import opened Stream
  import opened ScopeMachine
  import opened ScopeInvariant
  import opened Placement
  import opened Structured
  import opened SourceText
  import opened SourceParse

  // ----- a closing brace right after a one-line body ---------------------------------

  /** In front of an assignment that is a statement or a one-line body, inside braces. */
  ghost predicate InsideBraces(m: Machine) {
    && Starts(m) && (m.state.StCtrl? ==> FreshScope(m.scopes))
    && Top(LeaveOneLiners(m.scopes)).brace > 0
  }

  /** An assignment may be followed by the brace that closes the scope around it, on the same line, if and only if
      it is not the one-line body of an else, a loop, a function definition or bypassNesting(). */
  lemma {:induction false} ClosedOnSameLine(hash: Hash, m: Machine, a: Change)
    requires InsideBraces(m) && ChangeHasText(a)
    ensures ScopeMachine.Step(hash, m, Assignment(Word(a.lhs), a.op, a.hint, a.rhs, AtBrace)).ok <==> !m.state.StCtrl?
  {
    var e := AcceptColon(FlushCond(m));
    FlushCondInv(m);
    ChangePut(e, a);
    assert AcceptColon(e) == e;
    var m1 := PutHeaded(PutLineMarker(e), a.lhs, lhs => Assign(lhs, a.op, a.hint, a.rhs));
    assert Assigned(m, Word(a.lhs), a.op, a.hint, a.rhs) == m1;
    if m.state.StCtrl? {
      CloseInControl(m1);
    } else {
      ToBraces(m, e, m1, CompileChange(a));
    }
  }

  lemma {:induction false} CloseInControl(m: Machine)
    requires m.state.StCtrl? && Top(m.scopes).brace == 0
    ensures !CloseScope(m).ok
  {
  }

  /** What is in the one-line scopes makes no difference to the scope they are flushed to. */
  lemma {:induction false} SameBraces(a: Scopes, b: Scopes)
    requires |a| == |b| && Top(a).brace == Top(b).brace && a[..|a| - 1] == b[..|b| - 1]
    ensures Top(LeaveOneLiners(a)).brace == Top(LeaveOneLiners(b)).brace
    decreases |a|
  {
    if Top(a).brace == 0 && |a| > 1 {
      var c, d := LeaveScope(a), LeaveScope(b);
      assert c[..|c| - 1] == a[..|a| - 1][..|a| - 2] == d[..|d| - 1];
      assert a[..|a| - 1][|a| - 2] == b[..|b| - 1][|a| - 2];
      SameBraces(c, d);
    }
  }

  lemma {:induction false} EnteredBraces(m: Machine)
    requires InsideBraces(m) && !m.state.StCtrl?
    ensures Top(LeaveOneLiners(FlushCond(m).scopes)).brace > 0
  {
    if m.state.StCond? {
      ThenLeaves(m.scopes, FlushCond(m).scopes);
    } else {
      LeaveOneLinersFlat(m.scopes);
      var t := LeaveOneLiners(m.scopes);
      SameBraces(t, WithTop(t, CloseFork(Top(t))));
    }
  }

  lemma {:induction false} ThenLeaves(a: Scopes, b: Scopes)
    requires |b| == |a| + 1 && b[..|a| - 1] == a[..|a| - 1] && b[|a| - 1].brace == Top(a).brace
    requires Top(b).open.ThenOf? && Top(b).brace == 0
    ensures Top(LeaveOneLiners(b)).brace == Top(LeaveOneLiners(a)).brace
  {
    var c := LeaveScope(b);
    assert c[..|c| - 1] == b[..|b| - 2];
    SameBraces(c, a);
  }

  lemma {:induction false} ToBraces(m: Machine, e: Machine, m1: Machine, code: Item)
    requires InsideBraces(m) && !m.state.StCtrl? && e == AcceptColon(FlushCond(m))
    requires Clear(m1) && m1.ok && m1.state == e.state && m1.op.NoOperator? && m1.invert == 0
    requires Adds(e.scopes, m1.scopes, [code])
    ensures CloseScope(m1).ok
  {
    EnteredBraces(m);
    assert e.scopes == FlushCond(m).scopes && m1.state.StNew?;
    hide Inv, InsideBraces, LeaveOneLiners, FlushCond;
    SameBraces(e.scopes, m1.scopes);
    ClosesBrace(m1);
  }

  lemma {:induction false} ClosesBrace(m: Machine)
    requires m.state.StNew? && m.ok && m.op.NoOperator? && m.invert == 0 && Top(LeaveOneLiners(m.scopes)).brace > 0
    ensures CloseScope(m).ok
  {
  }

  /** "{ for(name, list): a }" on one line is refused. */
  lemma {:induction false} LoopClosedOnSameLine(hash: Hash, name: HStr, list: Expr, a: Change)
    requires LoopHasText(hash, name, list) && ChangeHasText(a)
    ensures Parse(hash, [Open(NoWord), LoopEvent(name, list), Colon(NoWord),
                         Assignment(Word(a.lhs), a.op, a.hint, a.rhs, AtBrace)], NoWord) == None
  {
    var e, c := LoopEvent(name, list), Assignment(Word(a.lhs), a.op, a.hint, a.rhs, AtBrace);
    var m := ScopeMachine.Start(1);
    var m1 := OpenScope(m);
    StartReady();
    OpenScopeInv(m);
    assert m1.scopes == [Top(m.scopes).(brace := 1)];
    assert FlushScopes(m1).scopes == m1.scopes;
    ReadyColon(m1);
    LoopEntered(hash, m1, name, list, false);
    var f := ScopeMachine.Step(hash, m1, e);
    LoopInBraces(m1, f);
    hide ScopeMachine.Step, Inv, OpenScope, LeaveOneLiners;
    StepOpen(hash, m);
    ColonStep(hash, f, NoWord);
    var g := f.(op := AndOperator);
    ClosedOnSameLine(hash, g, a);
    RunFour(hash, m, Open(NoWord), e, Colon(NoWord), c);
  }

  lemma {:induction false} LoopInBraces(m: Machine, f: Machine)
    requires |m.scopes| == 1 && Top(m.scopes).brace == 1 && FlushScopes(m).scopes == m.scopes
    requires Opens(f) && f.state.StCtrl? && Adds(Base(m), f.scopes[..|f.scopes| - 1], [])
    ensures Top(LeaveOneLiners(f.scopes)).brace > 0
  {
    assert |f.scopes| == 2 && f.scopes[0] == f.scopes[..1][0] && f.scopes[0].brace == 1;
    assert LeaveScope(f.scopes) == f.scopes[..0] + [Absorb(f.scopes[0], Top(f.scopes).open, CloseFork(Top(f.scopes)).items)];
  }

  lemma {:induction false} StepOpen(hash: Hash, m: Machine)
    requires m.ok
    ensures ScopeMachine.Step(hash, m, Open(NoWord)) == OpenScope(m)
  {
  }

  lemma {:induction false} RunFour(hash: Hash, m: Machine, a: ScopeMachine.Event, b: ScopeMachine.Event,
                                   c: ScopeMachine.Event, d: ScopeMachine.Event)
    ensures Run(hash, m, [a, b, c, d]) ==
            ScopeMachine.Step(hash, ScopeMachine.Step(hash, ScopeMachine.Step(hash, ScopeMachine.Step(hash, m, a), b), c), d)
  {
    hide ScopeMachine.Step;
    var m1 := ScopeMachine.Step(hash, m, a);
    var m2 := ScopeMachine.Step(hash, m1, b);
    assert [a, b, c, d][1..] == [b, c, d] && [b, c, d][1..] == [c, d] && [c, d][1..] == [d];
    assert Run(hash, m, [a, b, c, d]) == Run(hash, m1, [b, c, d]);
    assert Run(hash, m1, [b, c, d]) == Run(hash, m2, [c, d]);
    RunOne(hash, ScopeMachine.Step(hash, m2, c), d);
  }

  // ----- a jump right after a one-line loop ----------------------------------------------

  /** "for(name, list): a" and then "break()" on a line of its own. */
  function LoopThenBreak(name: HStr, list: Expr, a: Change): seq<ScopeMachine.Event> {
    [LoopEvent(name, list)] +
    (BodyEvents(NoWord, OneLine(Changing(a))) + [Event.Invoke(NameWord("break"), []), Newline(NoWord)])
  }

  /** The break() is accepted, because the loop's scope is still on the stack when the parser looks for one; and
      then it is put after the loop, where there is none. */
  lemma {:induction false} BreakAfterLoop(hash: Hash, name: HStr, list: Expr, a: Change)
    requires LoopHasText(hash, name, list) && ChangeHasText(a)
    ensures var o := Parse(hash, LoopThenBreak(name, list, a), NoWord);
            o.Some? && Strip(o.value) == [For(name, list, [CompileChange(a)]), Break] && !Placed(o.value, false, false)
  {
    var m := ScopeMachine.Start(1);
    var e := LoopEvent(name, list);
    var f := ScopeMachine.Step(hash, m, e);
    StartReady();
    ReadyColon(m);
    LoopEntered(hash, m, name, list, false);
    OneLineParsed(hash, f, NoWord, a);
    var m1 := Run(hash, f, BodyEvents(NoWord, OneLine(Changing(a))));
    assert Top(m1.scopes).inLoop;
    var z := ScopeItemLeft(Base(m), f, m1, m1.scopes, BodyOf(name, list), [], [CompileChange(a)], false, false);
    assert [] + [For(name, list, [CompileChange(a)])] == [For(name, list, [CompileChange(a)])];
    UnwindsFlushed(m1.scopes, z);
    RunLoopThenBreak(hash, m, name, list, a);
    BreakPut(hash, m, m1, z, For(name, list, [CompileChange(a)]));
  }

  lemma {:induction false} RunLoopThenBreak(hash: Hash, m: Machine, name: HStr, list: Expr, a: Change)
    ensures var m1 := Run(hash, ScopeMachine.Step(hash, m, LoopEvent(name, list)), BodyEvents(NoWord, OneLine(Changing(a))));
            Run(hash, m, LoopThenBreak(name, list, a)) ==
            ScopeMachine.Step(hash, ScopeMachine.Step(hash, m1, Event.Invoke(NameWord("break"), [])), Newline(NoWord))
  {
    hide LoopEvent, BodyEvents, ScopeMachine.Step;
    var e := LoopEvent(name, list);
    var body, jump := BodyEvents(NoWord, OneLine(Changing(a))), Event.Invoke(NameWord("break"), []);
    var m1 := Run(hash, ScopeMachine.Step(hash, m, e), body);
    RunAppend(hash, m, [e], body + [jump, Newline(NoWord)]);
    RunOne(hash, m, e);
    RunAppend(hash, ScopeMachine.Step(hash, m, e), body, [jump, Newline(NoWord)]);
    RunAppend(hash, m1, [jump], [Newline(NoWord)]);
    assert [jump] + [Newline(NoWord)] == [jump, Newline(NoWord)];
    RunOne(hash, m1, jump);
    RunOne(hash, ScopeMachine.Step(hash, m1, jump), Newline(NoWord));
  }

  lemma {:induction false} BreakPut(hash: Hash, m: Machine, m1: Machine, z: Scopes, loop: Item)
    requires m == ScopeMachine.Start(1) && Ready(m) && Ready(m1) && Top(m1.scopes).inLoop && Base(m) == m.scopes
    requires Adds(Base(m), z, [loop]) && Top(z).fork.NoFork? && Flushed(m1.scopes) == Flushed(z)
    ensures var m2 := ScopeMachine.Step(hash, ScopeMachine.Step(hash, m1, Event.Invoke(NameWord("break"), [])), Newline(NoWord));
            var m3 := Finish(m2, NoWord);
            m2.ok && m3.ok && Strip(Top(m3.scopes).items) == [loop, Break] && !Placed(Top(m3.scopes).items, false, false)
  {
    BaseFlat(m1);
    FlatFlushed(z);
    BreakStep(hash, m1);
    hide FinalizeTest, Inv, Flushed, ScopeMachine.Step, Put;
    TestAdds(m1, Break, false);
    var t := Put(FinalizeTest(m1), Break);
    NewlineStep(hash, t);
    BreakEnds(m.scopes, z, t, loop);
  }

  lemma {:induction false} BreakStep(hash: Hash, m: Machine)
    requires m.ok && Top(m.scopes).inLoop && m.invert == 0
    ensures ScopeMachine.Step(hash, m, Event.Invoke(NameWord("break"), [])) == Put(FinalizeTest(m), Break)
  {
    JumpNames();
    hide FinalizeTest, Put;
  }

  lemma {:induction false} NewlineStep(hash: Hash, m: Machine)
    requires m.ok
    ensures ScopeMachine.Step(hash, m, Newline(NoWord)) == FreshLine(m)
  {
  }

  lemma {:induction false} BreakEnds(s: Scopes, z: Scopes, t: Machine, loop: Item)
    requires s == ScopeMachine.Start(1).scopes && Adds(s, z, [loop])
    requires Clear(t) && Grew(z, t, StCond, [Break])
    ensures var m3 := Finish(FreshLine(t), NoWord);
            m3.ok && Strip(Top(m3.scopes).items) == [loop, Break] && !Placed(Top(m3.scopes).items, false, false)
  {
    AddsTrans(s, z, t.scopes, [loop], [Break]);
    assert [loop] + [Break] == [loop, Break];
    var items := Top(t.scopes).items;
    assert items[0..] == items;
    FlatFlushed(t.scopes);
    StrayBreak(items);
  }

  /** A stray break among the items is misplaced. */
  lemma {:induction false} StrayBreak(items: seq<Item>)
    requires Break in Strip(items)
    ensures !Placed(items, false, false)
  {
    if items != [] {
      if Break in StripItem(items[0]) {
        assert items[0] == Break;
      } else {
        StrayBreak(items[1..]);
      }
    }
  }

  /** The other way round, a break() behind a one-line function definition is refused, in whatever loop it stands. */
  lemma {:induction false} BreakAfterFunction(hash: Hash, m: Machine, isTest: bool, name: HStr, a: Change)
    requires Ready(m) && FitsStr(name.s) && name == Hashed(hash, name.s) && ChangeHasText(a)
    ensures !Run(hash, m, [FunctionEvent(isTest, name)] +
                          (BodyEvents(NoWord, OneLine(Changing(a))) + [Event.Invoke(NameWord("break"), [])])).ok
  {
    var e, jump := FunctionEvent(isTest, name), Event.Invoke(NameWord("break"), []);
    var f := ScopeMachine.Step(hash, m, e);
    FunctionEntered(hash, m, isTest, name);
    FunctionTop(hash, m, isTest, name);
    OneLineParsed(hash, f, NoWord, a);
    var m1 := Run(hash, f, BodyEvents(NoWord, OneLine(Changing(a))));
    assert !Top(m1.scopes).inLoop;
    JumpRefused(hash, m1);
    hide FunctionEvent, BodyEvents, ScopeMachine.Step, Run;
    RunAppend(hash, m, [e], BodyEvents(NoWord, OneLine(Changing(a))) + [jump]);
    RunOne(hash, m, e);
    RunAppend(hash, f, BodyEvents(NoWord, OneLine(Changing(a))), [jump]);
    RunOne(hash, m1, jump);
  }

  lemma {:induction false} FunctionTop(hash: Hash, m: Machine, isTest: bool, name: HStr)
    requires Ready(m) && FitsStr(name.s)
    ensures !Top(ScopeMachine.Step(hash, m, FunctionEvent(isTest, name)).scopes).inLoop
  {
    DefineNames();
    FunctionArg(name);
    hide FlushScopes, PutLineMarker, PutOperator;
  }

  lemma {:induction false} JumpRefused(hash: Hash, m: Machine)
    requires !Top(m.scopes).inLoop
    ensures !ScopeMachine.Step(hash, m, Event.Invoke(NameWord("break"), [])).ok
  {
    JumpNames();
  }
}
