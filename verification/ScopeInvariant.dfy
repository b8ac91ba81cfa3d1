// What every step of the scope machine keeps, and so what every file that is
// accepted without a parse error compiles to.
module ScopeInvariant {
  import opened Tokens
  import opened Stream
  import opened ScopeMachine

  predicate WfBlock(b: Block) { b.Block? ==> WfItems(b.items) }

  lemma {:induction false} AppendWf(a: seq<Item>, i: Item)
    requires WfItems(a) && WfItem(i)
    ensures WfItems(a + [i])
  {
    if a != [] {
      assert (a + [i])[1..] == a[1..] + [i];
      AppendWf(a[1..], i);
    } else {
      assert (a + [i])[1..] == [];
    }
  }

  // ----- the invariant -----------------------------------------------------------

  ghost predicate WfFork(f: Fork) { f.ElseDue? ==> WfBlock(f.thn) }

  ghost predicate WfOpener(o: Opener, inLoop: bool, inFunction: bool) {
    match o
    case ElseOf(thn) => WfBlock(thn)
    case BodyOf(name, list) => FitsStr(name.s) && WfExpr(list) && inLoop
    case DefOf(_, name) => FitsStr(name.s) && !inLoop && inFunction
    case _ => true
  }

  /** A well-formed scope. */
  ghost predicate WfScope(s: Scope) {
    WfItems(s.items) && WfFork(s.fork) && WfOpener(s.open, s.inLoop, s.inFunction)
  }

  /** A scope fits into its parent: an open then block, or a scope of a parent with no branch open. */
  ghost predicate Nested(parent: Scope, child: Scope) {
    && !child.open.Root? && !parent.fork.ElseDue?
    && (parent.fork.ThenOpen? <==> child.open.ThenOf?)
    && (child.open.BodyOf? || child.open.DefOf? || child.inLoop == parent.inLoop)
    && (child.open.DefOf? || child.inFunction == parent.inFunction)
  }

  ghost predicate InvScopes(s: Scopes) {
    && s[0].open.Root? && !s[0].inLoop && !s[0].inFunction && !s[0].special
    && (forall k | 0 <= k < |s| :: WfScope(s[k]))
    && (forall k | 0 < k < |s| :: Nested(s[k - 1], s[k]))
    && !Top(s).fork.ThenOpen?
  }

  ghost predicate Inv(m: Machine) {
    && InvScopes(m.scopes)
    && (!m.state.StNew? || m.canElse ==> Top(m.scopes).fork.NoFork?)
  }

  predicate WfWords(w: Words) { w.Word? ==> WfExpr(w.x) }

  predicate WfEvent(e: Event) {
    match e
    case Colon(w) => WfWords(w)
    case Pipe(w) => WfWords(w)
    case Open(w) => WfWords(w)
    case Close(w) => WfWords(w)
    case Newline(w) => WfWords(w)
    case Invoke(x, args) => WfExpr(x) && WfArgs(args)
    case Assignment(w, _, _, rhs, _) => WfWords(w) && WfExpr(rhs)
    case _ => true
  }

  // ----- preservation --------------------------------------------------------------

  lemma {:induction false} WithTopInv(s: Scopes, t: Scope)
    requires InvScopes(s) && WfScope(t)
    requires t.open == Top(s).open && t.inLoop == Top(s).inLoop && t.inFunction == Top(s).inFunction
    requires t.special == Top(s).special
    requires !t.fork.ThenOpen?
    ensures InvScopes(WithTop(s, t))
  {
    var s' := WithTop(s, t);
    forall k | 0 < k < |s'| ensures Nested(s'[k - 1], s'[k]) {
      assert Nested(s[k - 1], s[k]);
    }
  }

  lemma {:induction false} CloseForkWf(t: Scope)
    requires WfScope(t)
    ensures WfScope(CloseFork(t))
  {
    if t.fork.ElseDue? {
      AppendWf(t.items, Branch(t.fork.thn, NoBlock));
    }
  }

  lemma {:induction false} AbsorbWf(parent: Scope, child: Scope)
    requires WfScope(parent) && WfScope(child) && Nested(parent, child)
    ensures WfScope(Absorb(parent, child.open, child.items))
    ensures !Absorb(parent, child.open, child.items).fork.ThenOpen?
  {
    if !child.open.ThenOf? {
      AppendWf(parent.items, LeftItem(child.open, child.items));
    }
  }

  lemma {:induction false} LeaveInv(s: Scopes)
    requires InvScopes(s) && |s| > 1
    ensures InvScopes(LeaveScope(s)) && |LeaveScope(s)| == |s| - 1
  {
    var n := |s|;
    assert Nested(s[n - 2], s[n - 1]);
    var child := CloseFork(Top(s));
    CloseForkWf(Top(s));
    AbsorbWf(s[n - 2], child);
    var q := Absorb(s[n - 2], child.open, child.items);
    var s' := LeaveScope(s);
    assert s' == s[..n - 2] + [q];
    forall k | 0 < k < |s'| ensures Nested(s'[k - 1], s'[k]) {
      assert Nested(s[k - 1], s[k]);
    }
  }

  lemma {:induction false} LeaveOneLinersInv(s: Scopes)
    requires InvScopes(s)
    ensures InvScopes(LeaveOneLiners(s))
    decreases |s|
  {
    if Top(s).brace == 0 && |s| > 1 {
      LeaveInv(s);
      LeaveOneLinersInv(LeaveScope(s));
    }
  }

  /** The invariant with no branch pending in the top scope. */
  ghost predicate Clear(m: Machine) { Inv(m) && Top(m.scopes).fork.NoFork? }

  lemma {:induction false} FlushScopesInv(m: Machine)
    requires Inv(m)
    ensures Clear(FlushScopes(m)) && FlushScopes(m).ok == m.ok
  {
    if m.state.StNew? {
      LeaveOneLinersInv(m.scopes);
      var s := LeaveOneLiners(m.scopes);
      CloseForkWf(Top(s));
      WithTopInv(s, CloseFork(Top(s)));
    }
  }

  /** The same scope, with more items. */
  ghost predicate SameScope(a: Machine, b: Machine) {
    && |a.scopes| == |b.scopes| && a.ok == b.ok && a.state == b.state
    && Top(a.scopes).inLoop == Top(b.scopes).inLoop && Top(a.scopes).inFunction == Top(b.scopes).inFunction
  }

  lemma {:induction false} PutInv(m: Machine, i: Item)
    requires Clear(m) && WfItem(i)
    ensures Clear(Put(m, i)) && SameScope(m, Put(m, i))
  {
    var t := Top(m.scopes);
    AppendWf(t.items, i);
    WithTopInv(m.scopes, AddItem(t, i));
  }

  lemma {:induction false} PutLineMarkerInv(m: Machine)
    requires Clear(m)
    ensures Clear(PutLineMarker(m)) && SameScope(m, PutLineMarker(m))
  {
    if m.markLine != 0 {
      PutInv(m, Line(Low(m.markLine)));
    }
  }

  lemma {:induction false} PutOperatorInv(m: Machine)
    requires Clear(m)
    ensures Clear(PutOperator(m)) && SameScope(m, PutOperator(m))
  {
    PutInv(m, And);
    PutInv(m, Or);
  }

  /** A scope entered while no branch is pending in the one below it. */
  lemma {:induction false} EnterInv(m: Machine, open: Opener, special: bool, state: LineState, inLoop: bool,
                                    inFunction: bool)
    requires Clear(m) && !open.Root? && !open.ThenOf?
    requires WfOpener(open, inLoop, inFunction)
    requires open.BodyOf? || open.DefOf? || inLoop == Top(m.scopes).inLoop
    requires open.DefOf? || inFunction == Top(m.scopes).inFunction
    ensures var m1 := EnterScope(m, open, special, state);
            Clear(m1.(scopes := WithTop(m1.scopes, Top(m1.scopes).(inLoop := inLoop, inFunction := inFunction))))
  {
    var m1 := EnterScope(m, open, special, state);
    var s := WithTop(m1.scopes, Top(m1.scopes).(inLoop := inLoop, inFunction := inFunction));
    forall k | 0 < k < |s| ensures Nested(s[k - 1], s[k]) {
      if k < |s| - 1 {
        assert Nested(m.scopes[k - 1], m.scopes[k]);
      }
    }
  }

  lemma {:induction false} EnterPlainInv(m: Machine, open: Opener, special: bool, state: LineState)
    requires Clear(m) && (open.ElseOf? || open.BypassOf?)
    requires WfOpener(open, Top(m.scopes).inLoop, Top(m.scopes).inFunction)
    ensures Clear(EnterScope(m, open, special, state))
  {
    var t := Top(m.scopes);
    EnterInv(m, open, special, state, t.inLoop, t.inFunction);
    var m1 := EnterScope(m, open, special, state);
    assert WithTop(m1.scopes, Top(m1.scopes)) == m1.scopes;
  }

  lemma {:induction false} FlushCondInv(m: Machine)
    requires Inv(m)
    ensures Clear(FlushCond(m)) && FlushCond(m).ok == m.ok
  {
    if m.state.StCond? {
      var s := FlushCond(m).scopes;
      var n := |m.scopes|;
      assert WfScope(m.scopes[n - 1]);
      forall k | 0 < k < |s| ensures Nested(s[k - 1], s[k]) {
        if k < n {
          assert Nested(m.scopes[k - 1], m.scopes[k]);
        }
      }
    } else {
      FlushScopesInv(m);
    }
  }

  /** Where a test goes: the scope the flush returns to. */
  function Home(m: Machine): Scope { Top(FlushScopes(m).scopes) }

  lemma {:induction false} FinalizeTestInv(m: Machine)
    requires Inv(m)
    ensures var m1 := FinalizeTest(m);
            && Clear(m1) && m1.ok == m.ok
            && Top(m1.scopes).inLoop == Home(m).inLoop && Top(m1.scopes).inFunction == Home(m).inFunction
  {
    hide InvScopes, PutLineMarker, PutOperator, Put;
    FlushScopesInv(m);
    PutLineMarkerInv(FlushScopes(m));
    var m2 := PutLineMarker(FlushScopes(m));
    PutOperatorInv(m2);
    PutInv(PutOperator(m2), Not);
  }

  lemma {:induction false} PutLinesInv(m: Machine, es: seq<Elem>)
    requires Clear(m) && WfElems(es)
    ensures Clear(PutLines(m, es)) && SameScope(m, PutLines(m, es)) && WfElems(es[LeadingLines(es)..])
    decreases |es|
  {
    if es != [] && es[0].ELine? {
      PutInv(m, Line(es[0].line));
      PutLinesInv(Put(m, Line(es[0].line)), es[1..]);
      assert es[LeadingLines(es)..] == es[1..][LeadingLines(es[1..])..];
    } else {
      assert es[0..] == es;
    }
  }

  lemma {:induction false} PutLinesOk(m: Machine, es: seq<Elem>)
    ensures PutLines(m, es).ok == m.ok
    decreases |es|
  {
    if es != [] && es[0].ELine? {
      PutLinesOk(Put(m, Line(es[0].line)), es[1..]);
    }
  }

  /** A test or an assignment put down with its words. */
  lemma {:induction false} PutHeadedInv(m: Machine, x: Expr, item: Expr -> Item)
    requires Clear(m) && WfExpr(x)
    requires var h := WithoutLines(x); WfHead(h) ==> WfItem(item(h))
    ensures Clear(PutHeaded(m, x, item)) && SameScope(m, PutHeaded(m, x, item))
  {
    PutLinesInv(m, x.elems);
    NoMoreLines(x.elems);
    assert WfHead(WithoutLines(x));
    PutInv(PutLines(m, x.elems), item(WithoutLines(x)));
  }

  lemma {:induction false} NoMoreLines(es: seq<Elem>)
    ensures var h := es[LeadingLines(es)..]; h != [] ==> !h[0].ELine?
  {
    if es != [] && es[0].ELine? {
      NoMoreLines(es[1..]);
      assert es[LeadingLines(es)..] == es[1..][LeadingLines(es[1..])..];
    }
  }

  lemma {:induction false} TakeElseInv(m: Machine)
    requires InvScopes(m.scopes)
    ensures TakeElse(m).ok ==> Clear(TakeElse(m))
    decreases |m.scopes|
  {
    var t := Top(m.scopes);
    if t.fork.ElseDue? && t.TakesElse() {
      WithTopInv(m.scopes, t.(fork := NoFork));
      assert WfScope(t);
      EnterPlainInv(m.(scopes := WithTop(m.scopes, t.(fork := NoFork))), ElseOf(t.fork.thn), false, StCtrl);
    } else if t.brace == 0 && |m.scopes| > 1 {
      LeaveInv(m.scopes);
      TakeElseInv(m.(scopes := LeaveScope(m.scopes)));
    }
  }

  lemma {:induction false} ElseInv(m: Machine)
    requires Inv(m)
    ensures Else(m).ok ==> Clear(Else(m))
  {
    var m1 := FailOperator(m);
    if m1.ok {
      if m1.canElse && Top(m1.scopes).TakesElse() {
        EnterPlainInv(m1, ElseOf(NoBlock), false, StCtrl);
      } else {
        TakeElseInv(m1);
      }
    }
  }

  lemma {:induction false} FinalizeCondInv(m: Machine, w: Words)
    requires Inv(m) && WfWords(w)
    ensures FinalizeCond(m, w).ok ==> Inv(FinalizeCond(m, w))
  {
    if w.Word? {
      if IsElse(w.x) {
        ElseInv(m);
      } else {
        FinalizeTestInv(m);
        PutHeadedInv(FinalizeTest(m), w.x, h => Cond(h));
      }
    }
  }

  lemma {:induction false} CallForInv(hash: Hash, m: Machine, args: seq<Expr>)
    requires Inv(m) && WfArgs(args)
    ensures CallFor(hash, m, args).ok ==> Inv(CallFor(hash, m, args))
  {
    var m1 := AcceptColon(m);
    FlushCondInv(m1);
    PutLineMarkerInv(FlushCond(m1));
    var m2 := PutLineMarker(FlushCond(m1));
    var l := LoopArgs(hash, args);
    if l.Some? {
      LoopArgsWf(hash, args);
      EnterInv(m2, BodyOf(Hashed(hash, l.value.name), l.value.list), true, StCtrl, true, Top(m2.scopes).inFunction);
    }
  }

  lemma {:induction false} PlainFits(x: Expr)
    requires WfExpr(x) && PlainArg(x).Some?
    ensures FitsStr(PlainArg(x).value)
  {
    assert WfElems(x.elems);
    assert WfElem(x.elems[0]);
  }

  lemma {:induction false} OneElemWf(e: Elem)
    requires WfElem(e)
    ensures WfExpr(Expr.Expr([e]))
  {
    assert [e][1..] == [];
  }

  lemma {:induction false} LoopArgsWf(hash: Hash, args: seq<Expr>)
    requires WfArgs(args) && LoopArgs(hash, args).Some?
    ensures var l := LoopArgs(hash, args).value; FitsStr(l.name) && WfExpr(l.list)
  {
    if args != [] {
      assert WfExpr(args[0]);
      assert WfAll(args[1..]);
      if |args| > 1 {
        assert WfExpr(args[1..][0]);
      }
      if PlainArg(args[0]).Some? {
        PlainFits(args[0]);
        OneElemWf(HashLit(false, Hashed(hash, args[0].elems[0].s)));
      }
    }
  }

  lemma {:induction false} CallDefineInv(hash: Hash, m: Machine, isTest: bool, args: seq<Expr>)
    requires Inv(m) && WfArgs(args)
    ensures CallDefine(hash, m, isTest, args).ok ==> Inv(CallDefine(hash, m, isTest, args))
  {
    if m.invert == 0 && |args| == 1 && PlainArg(args[0]).Some? {
      FlushScopesInv(m);
      PutLineMarkerInv(FlushScopes(m));
      var m1 := PutLineMarker(FlushScopes(m));
      PutOperatorInv(m1);
      assert WfExpr(args[0]);
      PlainFits(args[0]);
      EnterInv(PutOperator(m1), DefOf(isTest, Hashed(hash, PlainArg(args[0]).value)), true, StCtrl, false, true);
    }
  }

  lemma {:induction false} CallBypassInv(m: Machine, args: seq<Expr>)
    requires Inv(m)
    ensures CallBypass(m, args).ok ==> Inv(CallBypass(m, args))
  {
    FlushScopesInv(m);
    PutLineMarkerInv(FlushScopes(m));
    var m1 := PutLineMarker(FlushScopes(m));
    PutOperatorInv(m1);
    if CallBypass(m, args).ok {
      EnterPlainInv(PutOperator(m1), BypassOf, true, StCtrl);
    }
  }

  lemma {:induction false} CallReturnInv(m: Machine, args: seq<Expr>)
    requires Inv(m) && WfArgs(args)
    ensures CallReturn(m, args).ok ==> Inv(CallReturn(m, args))
  {
    FinalizeTestInv(m);
    var x := if args == [] then Expr.Expr([]) else args[0];
    assert WfExpr(x);
    if CallReturn(m, args).ok {
      PutHeadedInv(FinalizeTest(m), x, h => Return(h));
    }
  }

  lemma {:induction false} CallJumpInv(m: Machine, args: seq<Expr>, jump: Item)
    requires Inv(m) && (jump.Break? || jump.Next?)
    ensures CallJump(m, args, jump).ok ==> Inv(CallJump(m, args, jump))
  {
    FinalizeTestInv(m);
    if CallJump(m, args, jump).ok {
      PutInv(FinalizeTest(m), jump);
    }
  }

  lemma {:induction false} FinalizeCallInv(hash: Hash, m: Machine, x: Expr, args: seq<Expr>)
    requires Inv(m) && WfExpr(x) && WfArgs(args)
    ensures FinalizeCall(hash, m, x, args).ok ==> Inv(FinalizeCall(hash, m, x, args))
  {
    hide Inv, CallFor, CallDefine, CallBypass, CallReturn, CallJump, FinalizeTest, PutHeaded;
    var name := Literal(x);
    if name == Some(FOR) {
      CallForInv(hash, m, args);
    } else if name == Some(DEFINE_REPLACE) {
      CallDefineInv(hash, m, false, args);
    } else if name == Some(DEFINE_TEST) {
      CallDefineInv(hash, m, true, args);
    } else if name == Some(BYPASS) {
      CallBypassInv(m, args);
    } else if name == Some(RETURN_NAME) {
      CallReturnInv(m, args);
    } else if name == Some(NEXT_NAME) {
      CallJumpInv(m, args, Next);
    } else if name == Some(BREAK_NAME) {
      CallJumpInv(m, args, Break);
    } else if name != Some(OPTION_NAME) {
      FinalizeTestInv(m);
      PutHeadedInv(FinalizeTest(m), x, h => Call(h, args));
    }
  }

  lemma {:induction false} CloseScopeInv(m: Machine)
    requires Inv(m)
    ensures CloseScope(m).ok ==> Inv(CloseScope(m))
  {
    FlushScopesInv(m);
    var m1 := FailOperator(FlushScopes(m));
    var t := Top(m1.scopes);
    if t.brace > 0 {
      WithTopInv(m1.scopes, t.(brace := t.brace - 1));
      var s := WithTop(m1.scopes, t.(brace := t.brace - 1));
      if t.brace == 1 && |s| != 1 {
        LeaveInv(s);
      }
    }
  }

  lemma {:induction false} BraceInv(m: Machine)
    requires Clear(m)
    ensures Inv(m.(state := StNew, scopes := WithTop(m.scopes, Top(m.scopes).(brace := Top(m.scopes).brace + 1))))
  {
    WithTopInv(m.scopes, Top(m.scopes).(brace := Top(m.scopes).brace + 1));
  }

  lemma {:induction false} OpenScopeInv(m: Machine)
    requires Inv(m)
    ensures Inv(OpenScope(m))
  {
    var m0 := FailOperator(if m.op.AndOperator? then m.(op := NoOperator) else m);
    hide InvScopes, FlushCond;
    assert Inv(m0);
    FlushCondInv(m0);
    BraceInv(FlushCond(m0));
    hide Inv;
  }

  lemma {:induction false} AssignedInv(m: Machine, w: Words, op: AssignOp, hint: u16, rhs: Expr)
    requires Inv(m) && WfWords(w) && WfExpr(rhs)
    ensures Assigned(m, w, op, hint, rhs).ok ==> Inv(Assigned(m, w, op, hint, rhs))
  {
    FlushCondInv(m);
    var m1 := AcceptColon(FlushCond(m));
    PutLineMarkerInv(m1);
    if w.Word? {
      PutHeadedInv(PutLineMarker(m1), w.x, lhs => Assign(lhs, op, hint, rhs));
    }
  }

  lemma {:induction false} StepInv(hash: Hash, m: Machine, e: Event)
    requires Inv(m) && WfEvent(e) && m.ok
    ensures var m1 := ScopeMachine.Step(hash, m, e); m1.ok ==> Inv(m1)
  {
    hide InvScopes, FinalizeCond, FinalizeCall, CloseScope, OpenScope, Assigned;
    match e
    case Colon(w) => FinalizeCondInv(m, w);
    case Pipe(w) => FinalizeCondInv(m, w);
    case Open(w) =>
      FinalizeCondInv(m, w);
      if FinalizeCond(m, w).ok { OpenScopeInv(FinalizeCond(m, w)); }
    case Close(w) =>
      FinalizeCondInv(m, w);
      if FinalizeCond(m, w).ok { CloseScopeInv(FinalizeCond(m, w).(state := StNew)); }
    case Newline(w) => FinalizeCondInv(m, w);
    case Invoke(x, args) => FinalizeCallInv(hash, m, x, args);
    case Assignment(w, op, hint, rhs, end) =>
      AssignedInv(m, w, op, hint, rhs);
      var m1 := Assigned(m, w, op, hint, rhs);
      if m1.ok && end.AtBrace? { CloseScopeInv(m1); }
    case _ =>
  }

  // ----- whole files ---------------------------------------------------------------

  predicate WfEvents(es: seq<Event>) { forall e | e in es :: WfEvent(e) }

  lemma {:induction false} FailStays(hash: Hash, m: Machine, es: seq<Event>)
    requires !m.ok
    ensures Run(hash, m, es) == m
    decreases es
  {
    if es != [] {
      FailStays(hash, m, es[1..]);
    }
  }

  lemma {:induction false} RunInv(hash: Hash, m: Machine, es: seq<Event>)
    requires m.ok && Inv(m) && WfEvents(es)
    ensures Run(hash, m, es).ok ==> Inv(Run(hash, m, es))
    decreases es
  {
    if es != [] {
      StepInv(hash, m, es[0]);
      var m1 := ScopeMachine.Step(hash, m, es[0]);
      if m1.ok {
        RunInv(hash, m1, es[1..]);
      } else {
        FailStays(hash, m1, es[1..]);
      }
    }
  }

  lemma {:induction false} FinishInv(m: Machine, w: Words)
    requires m.ok && Inv(m) && WfWords(w)
    ensures var m1 := Finish(m, w); m1.ok ==> |m1.scopes| == 1 && Clear(m1)
  {
    var m0 := FinalizeCond(m, w);
    FinalizeCondInv(m, w);
    if m0.ok {
      FlushScopesInv(WarnOperator(m0));
      var s := FlushScopes(WarnOperator(m0)).scopes;
      CloseForkWf(Top(s));
      WithTopInv(s, CloseFork(Top(s)));
    }
  }

  /** Whatever the events, a file accepted without a parse error compiles to well-formed items. */
  lemma {:induction false} AcceptedIsWellFormed(hash: Hash, es: seq<Event>, last: Words)
    requires WfEvents(es) && WfWords(last) && Parse(hash, es, last).Some?
    ensures WfItems(Parse(hash, es, last).value)
  {
    StartInv();
    RunInv(hash, Start(1), es);
    FinishInv(Run(hash, Start(1), es), last);
  }

  lemma {:induction false} StartInv()
    ensures Inv(Start(1))
  {
  }
}
