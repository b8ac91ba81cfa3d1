// Where break, next, return with a value and bypassNesting come to stand: exactly
// which accepted files have them only in loops and functions.
module Placement {
  import opened Tokens
  import opened ScopeMachine
  import opened ScopeInvariant

  predicate PlacedItem(i: Item, inLoop: bool, inFunction: bool)
    decreases i
  {
    match i
    case Break => inLoop
    case Next => inLoop
    case Return(x) => inFunction || x.elems == []
    case Branch(thn, els) => PlacedBlock(thn, inLoop, inFunction) && PlacedBlock(els, inLoop, inFunction)
    case For(_, _, body) => Placed(body, true, inFunction)
    case Def(_, _, body) => Placed(body, false, true)
    case Bypass(body) => inFunction && Placed(body, inLoop, inFunction)
    case _ => true
  }

  predicate PlacedBlock(b: Block, inLoop: bool, inFunction: bool)
    decreases b
  {
    b.Block? ==> Placed(b.items, inLoop, inFunction)
  }

  predicate Placed(items: seq<Item>, inLoop: bool, inFunction: bool)
    decreases items
  {
    items == [] || (PlacedItem(items[0], inLoop, inFunction) && Placed(items[1..], inLoop, inFunction))
  }

  /** Everything in a scope, and in the block it will become part of, stands where it may. */
  predicate PlacedScope(t: Scope) {
    && Placed(t.items, t.inLoop, t.inFunction)
    && (t.fork.ElseDue? ==> PlacedBlock(t.fork.thn, t.inLoop, t.inFunction))
    && (t.open.ElseOf? ==> PlacedBlock(t.open.thn, t.inLoop, t.inFunction))
    && (t.open.BypassOf? ==> t.inFunction)
  }

  predicate AllPlaced(s: seq<Scope>) { forall k | 0 <= k < |s| :: PlacedScope(s[k]) }

  // ----- what a step does to the placement: a misplaced item stays misplaced -----------

  lemma {:induction false} PlacedAppend(a: seq<Item>, i: Item, inLoop: bool, inFunction: bool)
    ensures Placed(a + [i], inLoop, inFunction) <==> Placed(a, inLoop, inFunction) && PlacedItem(i, inLoop, inFunction)
  {
    if a == [] {
      assert a + [i] == [i] && [i][1..] == [];
    } else {
      assert (a + [i])[1..] == a[1..] + [i];
      PlacedAppend(a[1..], i, inLoop, inFunction);
    }
  }

  /** The scopes below the top, and the top. */
  lemma {:induction false} AllPlacedTop(s: Scopes)
    ensures AllPlaced(s) <==> AllPlaced(s[..|s| - 1]) && PlacedScope(Top(s))
  {
    hide PlacedScope;
    var low := s[..|s| - 1];
    if AllPlaced(low) && PlacedScope(Top(s)) {
      forall k | 0 <= k < |s| ensures PlacedScope(s[k]) {
        if k < |s| - 1 {
          assert low[k] == s[k];
        }
      }
    }
  }

  lemma {:induction false} WithTopPlaced(s: Scopes, t: Scope)
    ensures AllPlaced(WithTop(s, t)) <==> AllPlaced(s[..|s| - 1]) && PlacedScope(t)
  {
    hide PlacedScope;
    AllPlacedTop(WithTop(s, t));
    assert WithTop(s, t)[..|s| - 1] == s[..|s| - 1];
  }

  lemma {:induction false} CloseForkPlaced(t: Scope)
    ensures PlacedScope(CloseFork(t)) <==> PlacedScope(t)
  {
    if t.fork.ElseDue? {
      PlacedAppend(t.items, Branch(t.fork.thn, NoBlock), t.inLoop, t.inFunction);
    }
  }

  lemma {:induction false} AbsorbPlaced(parent: Scope, child: Scope)
    requires Nested(parent, child) && WfScope(child) && !child.fork.ElseDue?
    ensures PlacedScope(Absorb(parent, child.open, child.items)) <==> PlacedScope(parent) && PlacedScope(child)
  {
    if !child.open.ThenOf? {
      PlacedAppend(parent.items, LeftItem(child.open, child.items), parent.inLoop, parent.inFunction);
    }
  }

  lemma {:induction false} LeavePlaced(s: Scopes)
    requires InvScopes(s) && |s| > 1
    ensures AllPlaced(LeaveScope(s)) <==> AllPlaced(s)
  {
    var n := |s|;
    var child := CloseFork(Top(s));
    assert Nested(s[n - 2], s[n - 1]);
    CloseForkWf(Top(s));
    CloseForkPlaced(Top(s));
    AbsorbPlaced(s[n - 2], child);
    assert LeaveScope(s) == WithTop(s[..n - 1], Absorb(s[n - 2], child.open, child.items));
    hide PlacedScope, CloseFork, Absorb, LeaveScope, InvScopes;
    AllPlacedTop(s);
    AllPlacedTop(s[..n - 1]);
    WithTopPlaced(s[..n - 1], Absorb(s[n - 2], child.open, child.items));
  }

  lemma {:induction false} LeaveOneLinersPlaced(s: Scopes)
    requires InvScopes(s)
    ensures AllPlaced(LeaveOneLiners(s)) <==> AllPlaced(s)
    decreases |s|
  {
    if Top(s).brace == 0 && |s| > 1 {
      LeaveInv(s);
      LeavePlaced(s);
      LeaveOneLinersPlaced(LeaveScope(s));
    }
  }

  lemma {:induction false} FlushScopesPlaced(m: Machine)
    requires Inv(m)
    ensures AllPlaced(FlushScopes(m).scopes) <==> AllPlaced(m.scopes)
  {
    if m.state.StNew? {
      LeaveOneLinersPlaced(m.scopes);
      var s := LeaveOneLiners(m.scopes);
      hide AllPlaced, PlacedScope, LeaveOneLiners;
      CloseForkPlaced(Top(s));
      WithTopPlaced(s, CloseFork(Top(s)));
      AllPlacedTop(s);
    }
  }

  lemma {:induction false} PutPlaced(m: Machine, i: Item)
    ensures AllPlaced(Put(m, i).scopes) <==>
            AllPlaced(m.scopes) && PlacedItem(i, Top(m.scopes).inLoop, Top(m.scopes).inFunction)
  {
    var t := Top(m.scopes);
    PlacedAppend(t.items, i, t.inLoop, t.inFunction);
    assert PlacedScope(AddItem(t, i)) <==> PlacedScope(t) && PlacedItem(i, t.inLoop, t.inFunction);
    hide AllPlaced, PlacedScope;
    WithTopPlaced(m.scopes, AddItem(t, i));
    AllPlacedTop(m.scopes);
  }

  /** The same scope on top as to loops and functions, and the placement as it was. */
  ghost predicate SamePlaced(a: Machine, b: Machine) {
    && (AllPlaced(b.scopes) <==> AllPlaced(a.scopes))
    && Top(a.scopes).inLoop == Top(b.scopes).inLoop && Top(a.scopes).inFunction == Top(b.scopes).inFunction
  }

  /** An item that may stand anywhere. */
  lemma {:induction false} PutAnywhere(m: Machine, i: Item)
    requires i.Line? || i.And? || i.Or? || i.Not?
    ensures SamePlaced(m, Put(m, i))
  {
    PutPlaced(m, i);
  }

  lemma {:induction false} PutLineMarkerPlaced(m: Machine)
    ensures SamePlaced(m, PutLineMarker(m))
  {
    if m.markLine != 0 {
      PutAnywhere(m, Line(Low(m.markLine)));
    }
  }

  lemma {:induction false} PutOperatorPlaced(m: Machine)
    ensures SamePlaced(m, PutOperator(m))
  {
    PutAnywhere(m, And);
    PutAnywhere(m, Or);
  }

  lemma {:induction false} FinalizeTestPlaced(m: Machine)
    requires Inv(m)
    ensures SamePlaced(FlushScopes(m), FinalizeTest(m))
    ensures AllPlaced(FinalizeTest(m).scopes) <==> AllPlaced(m.scopes)
  {
    FlushScopesPlaced(m);
    PutLineMarkerPlaced(FlushScopes(m));
    var m2 := PutLineMarker(FlushScopes(m));
    PutOperatorPlaced(m2);
    PutAnywhere(PutOperator(m2), Not);
    hide AllPlaced, FlushScopes, PutLineMarker, PutOperator;
  }

  lemma {:induction false} PutLinesPlaced(m: Machine, es: seq<Elem>)
    ensures SamePlaced(m, PutLines(m, es))
    decreases |es|
  {
    if es != [] && es[0].ELine? {
      PutAnywhere(m, Line(es[0].line));
      PutLinesPlaced(Put(m, Line(es[0].line)), es[1..]);
    }
  }

  lemma {:induction false} PutHeadedPlaced(m: Machine, x: Expr, item: Expr -> Item)
    ensures AllPlaced(PutHeaded(m, x, item).scopes) <==>
            AllPlaced(m.scopes) && PlacedItem(item(WithoutLines(x)), Top(m.scopes).inLoop, Top(m.scopes).inFunction)
  {
    PutLinesPlaced(m, x.elems);
    PutPlaced(PutLines(m, x.elems), item(WithoutLines(x)));
  }

  /** A scope that is entered is empty: what counts is what it was opened with. */
  lemma {:induction false} EnterPlaced(m: Machine, open: Opener, special: bool, state: LineState)
    ensures var t := Top(m.scopes);
            AllPlaced(EnterScope(m, open, special, state).scopes) <==>
            AllPlaced(m.scopes) && (open.ElseOf? ==> PlacedBlock(open.thn, t.inLoop, t.inFunction))
                                && (open.BypassOf? ==> t.inFunction)
  {
    var s := EnterScope(m, open, special, state).scopes;
    hide AllPlaced;
    AllPlacedTop(s);
    assert s[..|s| - 1] == m.scopes;
  }

  lemma {:induction false} FlushCondPlaced(m: Machine)
    requires Inv(m)
    ensures AllPlaced(FlushCond(m).scopes) <==> AllPlaced(m.scopes)
  {
    if m.state.StCond? {
      var t := Top(m.scopes);
      var low := m.(scopes := WithTop(m.scopes, t.(fork := ThenOpen)));
      assert t.fork.NoFork? && (PlacedScope(t.(fork := ThenOpen)) <==> PlacedScope(t));
      hide AllPlaced, PlacedScope;
      WithTopPlaced(m.scopes, t.(fork := ThenOpen));
      AllPlacedTop(m.scopes);
      EnterPlaced(low, ThenOf, false, StNew);
    } else {
      FlushScopesPlaced(m);
    }
  }

  lemma {:induction false} TakeElsePlaced(m: Machine)
    requires InvScopes(m.scopes)
    ensures TakeElse(m).ok ==> (AllPlaced(TakeElse(m).scopes) <==> AllPlaced(m.scopes))
    decreases |m.scopes|
  {
    var t := Top(m.scopes);
    if t.fork.ElseDue? && t.TakesElse() {
      ElseTaken(m, t);
    } else if t.brace == 0 && |m.scopes| > 1 {
      LeaveInv(m.scopes);
      LeavePlaced(m.scopes);
      TakeElsePlaced(m.(scopes := LeaveScope(m.scopes)));
    }
  }

  lemma {:induction false} ElseTaken(m: Machine, t: Scope)
    requires t == Top(m.scopes) && t.fork.ElseDue?
    ensures var low := m.(scopes := WithTop(m.scopes, t.(fork := NoFork)));
            AllPlaced(EnterScope(low, ElseOf(t.fork.thn), false, StCtrl).scopes) <==> AllPlaced(m.scopes)
  {
    var low := m.(scopes := WithTop(m.scopes, t.(fork := NoFork)));
    assert PlacedScope(t) <==> PlacedScope(t.(fork := NoFork)) && PlacedBlock(t.fork.thn, t.inLoop, t.inFunction);
    hide AllPlaced, PlacedScope, PlacedBlock;
    WithTopPlaced(m.scopes, t.(fork := NoFork));
    AllPlacedTop(m.scopes);
    EnterPlaced(low, ElseOf(t.fork.thn), false, StCtrl);
  }

  lemma {:induction false} FinalizeCondPlaced(m: Machine, w: Words)
    requires Inv(m)
    ensures FinalizeCond(m, w).ok ==> (AllPlaced(FinalizeCond(m, w).scopes) <==> AllPlaced(m.scopes))
  {
    if w.Word? {
      if IsElse(w.x) {
        var m1 := FailOperator(m);
        EnterPlaced(m1, ElseOf(NoBlock), false, StCtrl);
        TakeElsePlaced(m1);
      } else {
        hide AllPlaced;
        FinalizeTestPlaced(m);
        PutHeadedPlaced(FinalizeTest(m), w.x, h => Cond(h));
      }
    }
  }

  // ----- calls ---------------------------------------------------------------------------

  /** The calls that may stand in loops or functions only. */
  predicate IsPlaced(e: Event) {
    e.Invoke? && Literal(e.x).Some?
    && (var name := Literal(e.x).value;
        name == BYPASS || name == RETURN_NAME || name == NEXT_NAME || name == BREAK_NAME)
  }

  /** Such a call may stand where the parser puts it, in the scope the flush returns to. */
  predicate Allowed(m: Machine, e: Event)
    requires IsPlaced(e)
  {
    var name := Literal(e.x).value;
    if name == BYPASS then Home(m).inFunction
    else if name == RETURN_NAME then Home(m).inFunction || WithoutLines(ReturnWords(e.args)).elems == []
    else Home(m).inLoop
  }

  lemma {:induction false} CallForPlaced(hash: Hash, m: Machine, args: seq<Expr>)
    requires Inv(m)
    ensures CallFor(hash, m, args).ok ==> (AllPlaced(CallFor(hash, m, args).scopes) <==> AllPlaced(m.scopes))
  {
    var m1 := AcceptColon(m);
    FlushCondPlaced(m1);
    PutLineMarkerPlaced(FlushCond(m1));
    var m2 := PutLineMarker(FlushCond(m1));
    var l := LoopArgs(hash, args);
    if l.Some? {
      var open := BodyOf(Hashed(hash, l.value.name), l.value.list);
      EnterPlaced(m2, open, true, StCtrl);
      EnteredAs(m2, open, StCtrl, true, Top(m2.scopes).inFunction);
    }
  }

  /** The loop or function an empty scope belongs to makes no difference. */
  lemma {:induction false} EnteredAs(m: Machine, open: Opener, state: LineState, inLoop: bool, inFunction: bool)
    requires !open.ElseOf? && !open.BypassOf?
    ensures var s := EnterScope(m, open, true, state).scopes;
            AllPlaced(WithTop(s, Top(s).(inLoop := inLoop, inFunction := inFunction))) <==> AllPlaced(s)
  {
    var s := EnterScope(m, open, true, state).scopes;
    var t := Top(s).(inLoop := inLoop, inFunction := inFunction);
    assert PlacedScope(t) && PlacedScope(Top(s));
    hide AllPlaced, PlacedScope;
    WithTopPlaced(s, t);
    AllPlacedTop(s);
  }

  lemma {:induction false} CallDefinePlaced(hash: Hash, m: Machine, isTest: bool, args: seq<Expr>)
    requires Inv(m)
    ensures CallDefine(hash, m, isTest, args).ok ==>
              (AllPlaced(CallDefine(hash, m, isTest, args).scopes) <==> AllPlaced(m.scopes))
  {
    if m.invert == 0 && |args| == 1 && PlainArg(args[0]).Some? {
      FlushScopesPlaced(m);
      PutLineMarkerPlaced(FlushScopes(m));
      var m1 := PutLineMarker(FlushScopes(m));
      PutOperatorPlaced(m1);
      var open := DefOf(isTest, Hashed(hash, PlainArg(args[0]).value));
      EnterPlaced(PutOperator(m1), open, true, StCtrl);
      EnteredAs(PutOperator(m1), open, StCtrl, false, true);
    }
  }

  lemma {:induction false} CallBypassPlaced(m: Machine, args: seq<Expr>)
    requires Inv(m)
    ensures CallBypass(m, args).ok ==>
            (AllPlaced(CallBypass(m, args).scopes) <==> AllPlaced(m.scopes) && Home(m).inFunction)
  {
    FlushScopesPlaced(m);
    PutLineMarkerPlaced(FlushScopes(m));
    var m1 := PutLineMarker(FlushScopes(m));
    PutOperatorPlaced(m1);
    EnterPlaced(PutOperator(m1), BypassOf, true, StCtrl);
  }

  lemma {:induction false} CallReturnPlaced(m: Machine, args: seq<Expr>)
    requires Inv(m)
    ensures CallReturn(m, args).ok ==>
            (AllPlaced(CallReturn(m, args).scopes) <==>
             AllPlaced(m.scopes) && (Home(m).inFunction || WithoutLines(ReturnWords(args)).elems == []))
  {
    hide *;
    ReturnIs(m, args);
    ReturnPlaced(m, ReturnWords(args), Home(m).inFunction);
  }

  lemma {:induction false} ReturnIs(m: Machine, args: seq<Expr>)
    ensures CallReturn(m, args).ok ==>
            CallReturn(m, args) == PutHeaded(FinalizeTest(m), ReturnWords(args), h => Return(h))
  {
    hide FinalizeTest, PutHeaded;
  }

  lemma {:induction false} ReturnPlaced(m: Machine, x: Expr, inFunction: bool)
    requires Inv(m) && inFunction == Home(m).inFunction
    ensures AllPlaced(PutHeaded(FinalizeTest(m), x, h => Return(h)).scopes) <==>
            AllPlaced(m.scopes) && (inFunction || WithoutLines(x).elems == [])
  {
    hide AllPlaced, FinalizeTest, PutHeaded, Inv, WithoutLines, Home;
    FinalizeTestPlaced(m);
    FinalizeTestInv(m);
    PutHeadedPlaced(FinalizeTest(m), x, h => Return(h));
  }

  lemma {:induction false} CallJumpPlaced(m: Machine, args: seq<Expr>, jump: Item)
    requires Inv(m) && (jump.Break? || jump.Next?)
    ensures CallJump(m, args, jump).ok ==>
            (AllPlaced(CallJump(m, args, jump).scopes) <==> AllPlaced(m.scopes) && Home(m).inLoop)
  {
    FinalizeTestPlaced(m);
    PutPlaced(FinalizeTest(m), jump);
  }

  lemma {:induction false} NamesDiffer()
    ensures |FOR| == 3 && |DEFINE_TEST| == 10 && |DEFINE_REPLACE| == 13 && |BYPASS| == 13 && |RETURN_NAME| == 6
    ensures |NEXT_NAME| == 4 && |BREAK_NAME| == 5 && |OPTION_NAME| == 6
    ensures DEFINE_REPLACE[0] != BYPASS[0] && RETURN_NAME[0] != OPTION_NAME[0]
  {
  }

  lemma {:induction false} FinalizeCallPlaced(hash: Hash, m: Machine, x: Expr, args: seq<Expr>)
    requires Inv(m)
    ensures var e := Invoke(x, args);
            var m1 := FinalizeCall(hash, m, x, args);
            m1.ok ==> (AllPlaced(m1.scopes) <==> AllPlaced(m.scopes) && (IsPlaced(e) ==> Allowed(m, e)))
  {
    NamesDiffer();
    hide AllPlaced, Inv, CallFor, CallDefine, CallBypass, CallReturn, CallJump, FinalizeTest, PutHeaded, Home, WithoutLines;
    var name := Literal(x);
    if name == Some(FOR) {
      CallForPlaced(hash, m, args);
    } else if name == Some(DEFINE_REPLACE) {
      CallDefinePlaced(hash, m, false, args);
    } else if name == Some(DEFINE_TEST) {
      CallDefinePlaced(hash, m, true, args);
    } else if name == Some(BYPASS) {
      CallBypassPlaced(m, args);
    } else if name == Some(RETURN_NAME) {
      CallReturnPlaced(m, args);
    } else if name == Some(NEXT_NAME) {
      CallJumpPlaced(m, args, Next);
    } else if name == Some(BREAK_NAME) {
      CallJumpPlaced(m, args, Break);
    } else if name != Some(OPTION_NAME) {
      FinalizeTestPlaced(m);
      PutHeadedPlaced(FinalizeTest(m), x, h => Call(h, args));
    }
  }

  // ----- the other events ------------------------------------------------------------------

  lemma {:induction false} CloseScopePlaced(m: Machine)
    requires Inv(m)
    ensures CloseScope(m).ok ==> (AllPlaced(CloseScope(m).scopes) <==> AllPlaced(m.scopes))
  {
    FlushScopesInv(m);
    FlushScopesPlaced(m);
    var m1 := FailOperator(FlushScopes(m));
    var t := Top(m1.scopes);
    if t.brace > 0 {
      var s := WithTop(m1.scopes, t.(brace := t.brace - 1));
      BracePlaced(m1.scopes, t.brace - 1);
      WithTopInv(m1.scopes, t.(brace := t.brace - 1));
      if t.brace == 1 && |s| != 1 {
        LeavePlaced(s);
      }
    }
  }

  lemma {:induction false} BracePlaced(s: Scopes, n: nat)
    ensures AllPlaced(WithTop(s, Top(s).(brace := n))) <==> AllPlaced(s)
  {
    assert PlacedScope(Top(s).(brace := n)) <==> PlacedScope(Top(s));
    hide AllPlaced, PlacedScope;
    WithTopPlaced(s, Top(s).(brace := n));
    AllPlacedTop(s);
  }

  lemma {:induction false} OpenScopePlaced(m: Machine)
    requires Inv(m)
    ensures AllPlaced(OpenScope(m).scopes) <==> AllPlaced(m.scopes)
  {
    var m0 := FailOperator(if m.op.AndOperator? then m.(op := NoOperator) else m);
    hide AllPlaced, FlushCond, InvScopes;
    assert Inv(m0);
    FlushCondPlaced(m0);
    hide Inv;
    BracePlaced(FlushCond(m0).scopes, Top(FlushCond(m0).scopes).brace + 1);
  }

  lemma {:induction false} AssignedPlaced(m: Machine, w: Words, op: AssignOp, hint: u16, rhs: Expr)
    requires Inv(m)
    ensures var m1 := Assigned(m, w, op, hint, rhs); m1.ok ==> (AllPlaced(m1.scopes) <==> AllPlaced(m.scopes))
  {
    FlushCondPlaced(m);
    var m1 := AcceptColon(FlushCond(m));
    PutLineMarkerPlaced(m1);
    if w.Word? {
      PutHeadedPlaced(PutLineMarker(m1), w.x, lhs => Assign(lhs, op, hint, rhs));
    }
  }

  /** An event leaves everything placed if and only if everything was, and the call, if it is one, may stand there. */
  lemma {:induction false} StepPlaced(hash: Hash, m: Machine, e: Event)
    requires Inv(m) && WfEvent(e) && m.ok
    ensures var m1 := ScopeMachine.Step(hash, m, e);
            m1.ok ==> (AllPlaced(m1.scopes) <==> AllPlaced(m.scopes) && (IsPlaced(e) ==> Allowed(m, e)))
  {
    hide AllPlaced, InvScopes, FinalizeCond, FinalizeCall, CloseScope, OpenScope, Assigned, IsPlaced, Allowed;
    assert IsPlaced(e) ==> e.Invoke? by { hide *; OnlyCalls(e); }
    match e
    case Colon(w) => FinalizeCondPlaced(m, w);
    case Pipe(w) => FinalizeCondPlaced(m, w);
    case Open(w) =>
      FinalizeCondPlaced(m, w);
      FinalizeCondInv(m, w);
      if FinalizeCond(m, w).ok { OpenScopePlaced(FinalizeCond(m, w)); }
    case Close(w) =>
      FinalizeCondPlaced(m, w);
      FinalizeCondInv(m, w);
      if FinalizeCond(m, w).ok { CloseScopePlaced(FinalizeCond(m, w).(state := StNew)); }
    case Newline(w) => FinalizeCondPlaced(m, w);
    case Invoke(x, args) => FinalizeCallPlaced(hash, m, x, args);
    case Assignment(w, op, hint, rhs, end) =>
      AssignedPlaced(m, w, op, hint, rhs);
      AssignedInv(m, w, op, hint, rhs);
      var m1 := Assigned(m, w, op, hint, rhs);
      if m1.ok && end.AtBrace? { CloseScopePlaced(m1); }
    case _ =>
  }

  lemma {:induction false} OnlyCalls(e: Event)
    ensures IsPlaced(e) ==> e.Invoke?
  {
  }

  // ----- whole files -------------------------------------------------------------------------

  /** Along the run, each call may stand where it is put. */
  predicate AllowedAlong(hash: Hash, m: Machine, es: seq<Event>)
    decreases es
  {
    es == [] || ((IsPlaced(es[0]) ==> Allowed(m, es[0])) && AllowedAlong(hash, ScopeMachine.Step(hash, m, es[0]), es[1..]))
  }

  lemma {:induction false} RunPlaced(hash: Hash, m: Machine, es: seq<Event>)
    requires m.ok && Inv(m) && WfEvents(es) && Run(hash, m, es).ok
    ensures AllPlaced(Run(hash, m, es).scopes) <==> AllPlaced(m.scopes) && AllowedAlong(hash, m, es)
    decreases es
  {
    if es != [] {
      var m1 := ScopeMachine.Step(hash, m, es[0]);
      if !m1.ok {
        FailStays(hash, m1, es[1..]);
      }
      StepPlaced(hash, m, es[0]);
      StepInv(hash, m, es[0]);
      RunPlaced(hash, m1, es[1..]);
    }
  }

  lemma {:induction false} FinishPlaced(m: Machine, w: Words)
    requires m.ok && Inv(m) && WfWords(w) && Finish(m, w).ok
    ensures Placed(Top(Finish(m, w).scopes).items, false, false) <==> AllPlaced(m.scopes)
  {
    var m0 := WarnOperator(FinalizeCond(m, w));
    FinalizeCondPlaced(m, w);
    FinalizeCondInv(m, w);
    FlushScopesPlaced(m0);
    FlushScopesInv(m0);
    var s := FlushScopes(m0).scopes;
    CloseForkPlaced(Top(s));
    AllPlacedTop(s);
    assert |s| == 1 && s[..0] == [] && AllPlaced(s[..0]);
    assert Top(s).open.Root? && !Top(s).inLoop && !Top(s).inFunction;
  }

  /** In an accepted file each break and next stands in a loop, and each bypassNesting and return of a value in a
      function, if and only if each of these calls could stand in the scope it was put into. */
  lemma {:induction false} AcceptedIsPlaced(hash: Hash, es: seq<Event>, last: Words)
    requires WfEvents(es) && WfWords(last) && Parse(hash, es, last).Some?
    ensures Placed(Parse(hash, es, last).value, false, false) <==> AllowedAlong(hash, Start(1), es)
  {
    var m := Start(1);
    StartInv();
    assert AllPlaced(m.scopes);
    hide AllPlaced, Finish, AllowedAlong, Inv;
    RunInv(hash, m, es);
    RunPlaced(hash, m, es);
    FinishPlaced(Run(hash, m, es), last);
  }

  // ----- the check against the scope on top -----------------------------------------------------

  /** The scopes that are still there when the finished one-line scopes on top are left. */
  function Resting(s: Scopes): Scopes
    decreases |s|
  {
    if Top(s).brace == 0 && |s| > 1 then Resting(s[..|s| - 1]) else s
  }

  datatype Nearest = NoneWaiting | LoopWaiting | FunctionWaiting

  /** The innermost of the finished one-line loops and functions that wait on top to be left. */
  function Waiting(s: Scopes): Nearest
    decreases |s|
  {
    if Top(s).brace > 0 || |s| == 1 then NoneWaiting
    else if Top(s).open.BodyOf? then LoopWaiting
    else if Top(s).open.DefOf? then FunctionWaiting
    else Waiting(s[..|s| - 1])
  }

  lemma {:induction false} SameRest(a: Scopes, b: Scopes)
    requires |a| == |b| && a[..|a| - 1] == b[..|b| - 1]
    requires Top(a).brace == Top(b).brace && Top(a).inLoop == Top(b).inLoop && Top(a).inFunction == Top(b).inFunction
    ensures Top(Resting(a)).inLoop == Top(Resting(b)).inLoop && Top(Resting(a)).inFunction == Top(Resting(b)).inFunction
  {
  }

  lemma {:induction false} RestsAt(s: Scopes)
    ensures var t, r := Top(LeaveOneLiners(s)), Top(Resting(s)); t.inLoop == r.inLoop && t.inFunction == r.inFunction
    decreases |s|
  {
    if Top(s).brace == 0 && |s| > 1 {
      var l, low := LeaveScope(s), s[..|s| - 1];
      assert |l| == |low| && l[..|l| - 1] == low[..|low| - 1] && Top(low) == s[|s| - 2];
      var t := Top(l);
      assert t.brace == Top(low).brace && t.inLoop == Top(low).inLoop && t.inFunction == Top(low).inFunction;
      hide LeaveScope, CloseFork;
      RestsAt(l);
      SameRest(l, low);
    }
  }

  /** Whether a finished one-line function waits on top. */
  predicate FunctionWaits(s: Scopes)
    decreases |s|
  {
    Top(s).brace == 0 && |s| > 1 && (Top(s).open.DefOf? || FunctionWaits(s[..|s| - 1]))
  }

  ghost predicate Chain(s: Scopes) {
    && (forall k | 0 <= k < |s| :: WfScope(s[k]))
    && (forall k | 0 < k < |s| :: Nested(s[k - 1], s[k]))
  }

  /** What the top scope is part of: the nearest finished loop or function, or else the scope the flush returns to. */
  lemma {:induction false} NestOnTop(s: Scopes)
    requires Chain(s)
    ensures match Waiting(s)
            case NoneWaiting => Top(s).inLoop == Top(Resting(s)).inLoop
            case LoopWaiting => Top(s).inLoop
            case FunctionWaiting => !Top(s).inLoop
    ensures Top(s).inFunction <==> FunctionWaits(s) || Top(Resting(s)).inFunction
    decreases |s|
  {
    if Top(s).brace == 0 && |s| > 1 {
      var low := s[..|s| - 1];
      assert Nested(s[|s| - 2], s[|s| - 1]) && WfScope(Top(s));
      forall k | 0 < k < |low| ensures Nested(low[k - 1], low[k]) {
        assert Nested(s[k - 1], s[k]);
      }
      NestOnTop(low);
    }
  }

  /** Where a call is put, by what the parser knows in front of it. */
  lemma {:induction false} HomeIs(m: Machine)
    ensures m.state.StNew? ==> Home(m).inLoop == Top(Resting(m.scopes)).inLoop
                               && Home(m).inFunction == Top(Resting(m.scopes)).inFunction
    ensures !m.state.StNew? ==> Home(m) == Top(m.scopes)
  {
    RestsAt(m.scopes);
  }

  predicate IsJump(x: Expr) { Literal(x) == Some(NEXT_NAME) || Literal(x) == Some(BREAK_NAME) }

  /** A break() or next() without a negation is accepted if and only if the scope on top is in a loop; it is then put
      into the scope the flush returns to. It is refused inside a loop exactly if a finished one-line function waits
      there nearest to the top, and accepted outside exactly if a finished one-line loop does. */
  lemma {:induction false} JumpsExactly(hash: Hash, m: Machine, x: Expr)
    requires m.ok && Inv(m) && m.invert == 0 && IsJump(x)
    ensures var m1 := ScopeMachine.Step(hash, m, Invoke(x, []));
            && (m1.ok <==> Top(m.scopes).inLoop)
            && (m1.ok ==> m1 == Put(FinalizeTest(m), if Literal(x) == Some(NEXT_NAME) then Next else Break)
                          && Top(FinalizeTest(m).scopes).inLoop == Home(m).inLoop)
            && (Home(m).inLoop && !m1.ok <==>
                m.state.StNew? && Waiting(m.scopes).FunctionWaiting? && Top(Resting(m.scopes)).inLoop)
            && (!Home(m).inLoop && m1.ok <==>
                m.state.StNew? && Waiting(m.scopes).LoopWaiting? && !Top(Resting(m.scopes)).inLoop)
  {
    NamesDiffer();
    hide FinalizeTest, Home, Waiting, Resting, Inv;
    ChainOf(m);
    NestOnTop(m.scopes);
    HomeIs(m);
    FinalizeTestInv(m);
  }

  lemma {:induction false} ChainOf(m: Machine)
    requires Inv(m)
    ensures Chain(m.scopes)
  {
  }

  /** The same for bypassNesting() and a return() with a value, which are never refused inside a function. */
  lemma {:induction false} FunctionCallsExactly(hash: Hash, m: Machine, x: Expr, args: seq<Expr>)
    requires m.ok && Inv(m) && m.invert == 0
    requires (Literal(x) == Some(BYPASS) && args == []) || (Literal(x) == Some(RETURN_NAME) && |args| == 1)
    ensures var m1 := ScopeMachine.Step(hash, m, Invoke(x, args));
            && (m1.ok <==> Top(m.scopes).inFunction)
            && (Home(m).inFunction ==> m1.ok)
            && (!Home(m).inFunction && m1.ok <==>
                m.state.StNew? && FunctionWaits(m.scopes) && !Top(Resting(m.scopes)).inFunction)
  {
    NamesDiffer();
    ChainOf(m);
    NestOnTop(m.scopes);
    HomeIs(m);
    if args == [] {
      BypassOk(m);
    } else {
      ReturnOk(m, args);
    }
    hide Home, FunctionWaits, Resting, Inv, CallBypass, CallReturn;
  }

  lemma {:induction false} BypassOk(m: Machine)
    requires m.ok && Inv(m) && m.invert == 0
    ensures CallBypass(m, []).ok <==> Top(m.scopes).inFunction
  {
    FlushScopesInv(m);
  }

  lemma {:induction false} ReturnOk(m: Machine, args: seq<Expr>)
    requires m.ok && Inv(m) && m.invert == 0 && |args| == 1
    ensures CallReturn(m, args).ok <==> Top(m.scopes).inFunction
  {
    FinalizeTestInv(m);
    PutLinesOk(FinalizeTest(m), args[0].elems);
    hide FinalizeTest, PutLines;
  }
}
