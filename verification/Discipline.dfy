// What every evaluation keeps: the depth of the variable stack, the caller's
// frames, and a bound on the nesting of calls.
module Discipline {
  import opened Tokens
  import opened Stream
  import opened ValueStack
  import opened Semantics

  /** The names a log exports. */
  function Exported(env: Env, log: seq<Event>): set<Str> {
    if log == [] then {}
    else
      (match log[0]
       case Builtin(f, args) => if f == EXPORT && |args| == 1 then {env.alias(args[0])} else {}
       case _ => {}) + Exported(env, log[1..])
  }

  lemma {:induction false} ExportedAppend(env: Env, a: seq<Event>, b: seq<Event>)
    ensures Exported(env, a + b) == Exported(env, a) + Exported(env, b)
  {
    if a == [] {
      assert a + b == b;
    } else {
      assert (a + b)[1..] == a[1..] + b;
      ExportedAppend(env, a[1..], b);
    }
  }

  /** `b` is `a` with some of `names` removed and nothing else changed. */
  ghost predicate Shrinks(a: Frame, b: Frame, names: set<Str>) {
    && b.Keys <= a.Keys
    && a.Keys - b.Keys <= names
    && forall k | k in b :: b[k] == a[k]
  }

  /** The depth is as before, and below `top` only exported names went from the frames above the global one. */
  ghost predicate Keeps(env: Env, st: State, st': State, top: nat) {
    && |st'.stack| == |st.stack|
    && st.log <= st'.log
    && forall i | 0 < i < top && i < |st.stack| :: Shrinks(st.stack[i], st'.stack[i], Exported(env, st'.log[|st.log|..]))
  }

  lemma {:induction false} KeepsTrans(env: Env, a: State, b: State, c: State, top: nat)
    requires Keeps(env, a, b, top) && Keeps(env, b, c, top)
    ensures Keeps(env, a, c, top)
  {
    assert c.log[|a.log|..] == b.log[|a.log|..] + c.log[|b.log|..];
    ExportedAppend(env, b.log[|a.log|..], c.log[|b.log|..]);
  }

  lemma {:induction false} KeepsLogged(env: Env, a: State, b: State, e: Event, top: nat)
    requires Keeps(env, a, b, top)
    ensures Keeps(env, a, b.(log := b.log + [e]), top)
  {
    KeepsTrans(env, a, b, b.(log := b.log + [e]), top);
  }

  // ----- programs without bypassNesting -------------------------------------

  predicate TameItem(i: Item)
    decreases i
  {
    match i
    case Bypass(_) => false
    case Branch(thn, els) => (thn.Block? ==> Tame(thn.items)) && (els.Block? ==> Tame(els.items))
    case For(_, _, body) => Tame(body)
    case Def(_, _, body) => Tame(body)
    case _ => true
  }

  /** No bypassNesting block anywhere in the items. */
  predicate Tame(items: seq<Item>)
    decreases items
  {
    items == [] || (TameItem(items[0]) && Tame(items[1..]))
  }

  ghost predicate TameDefs(st: State) {
    && (forall f | f in st.testDefs :: Tame(st.testDefs[f]))
    && (forall f | f in st.replaceDefs :: Tame(st.replaceDefs[f]))
  }

  /** Fuel for every call the depth limit still allows. */
  predicate Enough(fuel: nat, st: State) { fuel + |st.stack| >= MAX_DEPTH }

  /** What one evaluation keeps; if `tame` holds of its code, it does not use up enough fuel. */
  ghost predicate Good(env: Env, fuel: nat, tame: bool, st: State, ret: Ret, st': State, top: nat) {
    && Keeps(env, st, st', top)
    && (tame && TameDefs(st) ==> TameDefs(st'))
    && (tame && TameDefs(st) && Enough(fuel, st) ==> !ret.ROverflow?)
  }

  lemma {:induction false} GoodTrans(env: Env, fuel: nat, tame: bool, a: State, r: Ret, b: State, r': Ret, c: State,
                                     top: nat)
    requires Good(env, fuel, tame, a, r, b, top) && Good(env, fuel, tame, b, r', c, top)
    ensures Good(env, fuel, tame, a, r', c, top)
  {
    KeepsTrans(env, a, b, c, top);
  }

  lemma {:induction false} ElemsGood(env: Env, fuel: nat, es: seq<Elem>, st: State, a: Acc, joined: bool)
    ensures var o := Elems(env, fuel, es, st, a, joined); Good(env, fuel, true, st, o.ret, o.st, |st.stack|)
    decreases fuel, 1, es, 0
  {
    if es != [] {
      if es[0].Fn? {
        ExpandGood(env, fuel, es[0].h.s, es[0].args, st);
      }
      var o := Element(env, fuel, es[0], st, a, joined);
      if !o.ret.Fatal() {
        ElemsGood(env, fuel, es[1..], o.st, o.v, joined);
        var p := Elems(env, fuel, es[1..], o.st, o.v, joined);
        GoodTrans(env, fuel, true, st, o.ret, o.st, p.ret, p.st, |st.stack|);
      }
    }
  }

  lemma {:induction false} WordsGood(env: Env, fuel: nat, x: Expr, st: State, joined: bool)
    ensures var o := Words(env, fuel, x, st, joined); Good(env, fuel, true, st, o.ret, o.st, |st.stack|)
    decreases fuel, 1, x, 1
  {
    ElemsGood(env, fuel, x.elems, st, Acc(if joined then [[]] else [], false), joined);
  }

  lemma {:induction false} JoinedArgsGood(env: Env, fuel: nat, args: seq<Expr>, st: State, acc: seq<Str>)
    ensures var o := JoinedArgsFrom(env, fuel, args, st, acc); Good(env, fuel, true, st, o.ret, o.st, |st.stack|)
    decreases fuel, 1, args, 0
  {
    if args != [] {
      WordsGood(env, fuel, args[0], st, true);
      var o := Words(env, fuel, args[0], st, true);
      if !o.ret.Fatal() {
        JoinedArgsGood(env, fuel, args[1..], o.st, acc + o.v);
        var p := JoinedArgsFrom(env, fuel, args[1..], o.st, acc + o.v);
        GoodTrans(env, fuel, true, st, o.ret, o.st, p.ret, p.st, |st.stack|);
      }
    }
  }

  lemma {:induction false} ListArgsGood(env: Env, fuel: nat, args: seq<Expr>, st: State, acc: seq<seq<Str>>)
    ensures var o := ListArgs(env, fuel, args, st, acc); Good(env, fuel, true, st, o.ret, o.st, |st.stack|)
    decreases fuel, 1, args, 0
  {
    if args != [] {
      WordsGood(env, fuel, args[0], st, false);
      var o := Words(env, fuel, args[0], st, false);
      if !o.ret.Fatal() {
        ListArgsGood(env, fuel, args[1..], o.st, acc + [o.v]);
        var p := ListArgs(env, fuel, args[1..], o.st, acc + [o.v]);
        GoodTrans(env, fuel, true, st, o.ret, o.st, p.ret, p.st, |st.stack|);
      }
    }
  }

  /** A call of a user function leaves every frame of its caller but the global one, up to exports. */
  lemma {:induction false} CallUserGood(env: Env, fuel: nat, body: seq<Item>, args: seq<seq<Str>>, st: State)
    ensures var o := CallUser(env, fuel, body, args, st);
            Good(env, fuel, Tame(body), st, o.ret, o.st, |st.stack|)
    decreases fuel, 0
  {
    if |st.stack| < MAX_DEPTH && fuel > 0 {
      var st1 := st.(stack := Push(st.stack, ArgFrame(args)));
      VisitGood(env, fuel - 1, body, Flags(true, false, false), st1);
    }
  }

  lemma {:induction false} ExpandGood(env: Env, fuel: nat, name: Str, args: seq<Expr>, st: State)
    ensures var o := Expand(env, fuel, name, args, st); Good(env, fuel, true, st, o.ret, o.st, |st.stack|)
    decreases fuel, 1, args, 2
  {
    if env.isExpand(name) {
      JoinedArgsGood(env, fuel, args, st, []);
    } else if name in st.replaceDefs {
      ListArgsGood(env, fuel, args, st, []);
      var o := ListArgs(env, fuel, args, st, []);
      if !o.ret.Fatal() {
        CallUserGood(env, fuel, st.replaceDefs[name], o.v, o.st);
        var c := CallUser(env, fuel, st.replaceDefs[name], o.v, o.st);
        KeepsTrans(env, st, o.st, c.st, |st.stack|);
      }
    }
  }

  lemma {:induction false} BuiltinGood(env: Env, fuel: nat, name: Str, args: seq<Str>, st: State)
    ensures var r := BuiltinCall(env, name, args, st); Good(env, fuel, true, st, r.ret, r.st, |st.stack| - 1)
  {
    var r := BuiltinCall(env, name, args, st);
    assert r.st.log[|st.log|..] == [Builtin(name, args)];
    if name == EXPORT && |args| == 1 {
      assert env.alias(args[0]) in Exported(env, [Builtin(name, args)]);
    }
  }

  lemma {:induction false} TestGood(env: Env, fuel: nat, name: Str, args: seq<Expr>, st: State)
    ensures var r := Test(env, fuel, name, args, st); Good(env, fuel, true, st, r.ret, r.st, |st.stack| - 1)
    decreases fuel, 1, args, 2
  {
    if IsTest(env, name) {
      JoinedArgsGood(env, fuel, args, st, []);
      var o := JoinedArgs(env, fuel, args, st);
      if !o.ret.Fatal() {
        BuiltinGood(env, fuel, name, o.v, o.st);
        var r := BuiltinCall(env, name, o.v, o.st);
        KeepsTrans(env, st, o.st, r.st, |st.stack| - 1);
      }
    } else if name in st.testDefs {
      ListArgsGood(env, fuel, args, st, []);
      var o := ListArgs(env, fuel, args, st, []);
      if !o.ret.Fatal() {
        var st1 := o.st.(log := o.st.log + [User(name, o.v)]);
        CallUserGood(env, fuel, st.testDefs[name], o.v, st1);
        var c := CallUser(env, fuel, st.testDefs[name], o.v, st1);
        KeepsTrans(env, st, o.st, st1, |st.stack| - 1);
        KeepsTrans(env, st, st1, c.st, |st.stack| - 1);
      }
    }
  }

  lemma {:induction false} AssignmentGood(env: Env, fuel: nat, lhs: seq<Str>, op: AssignOp, rhs: Expr, st: State)
    ensures var r := Assignment(env, fuel, lhs, op, rhs, st); Good(env, fuel, true, st, r.ret, r.st, |st.stack| - 1)
    decreases fuel, 1, rhs, 2
  {
    hide AssignTo;
    WordsGood(env, fuel, rhs, st, op.Replace?);
    var o := Words(env, fuel, rhs, st, op.Replace?);
    if |lhs| != 1 {
      Unchanged(env, fuel, true, st, RTrue);
    } else if !o.ret.Fatal() {
      hide *;
      AssignTop(env, env.alias(lhs[0]), op, o.v, o.st.stack);
      TopGood(env, fuel, true, st, o.ret, o.st, AssignTo(env, env.alias(lhs[0]), op, o.v, o.st.stack));
    }
  }

  lemma {:induction false} AssignTop(env: Env, name: Str, op: AssignOp, vals: seq<Str>, s: Stack)
    ensures var t := AssignTo(env, name, op, vals, s); |t| == |s| && t[..|s| - 1] == s[..|s| - 1]
  {
  }

  /** A change in the innermost frame alone. */
  lemma {:induction false} TopGood(env: Env, fuel: nat, tame: bool, st: State, ret: Ret, now: State, s: Stack)
    requires Good(env, fuel, tame, st, ret, now, |st.stack|) || Good(env, fuel, tame, st, ret, now, |st.stack| - 1)
    requires |s| == |now.stack| && s[..|s| - 1] == now.stack[..|s| - 1]
    ensures Good(env, fuel, tame, st, ret, now.(stack := s), |st.stack| - 1)
    ensures !ret.Fatal() ==> Good(env, fuel, tame, st, RTrue, now.(stack := s), |st.stack| - 1)
  {
    forall i | 0 < i < |s| - 1 ensures s[i] == now.stack[i] {
      assert s[i] == s[..|s| - 1][i];
    }
  }

  lemma {:induction false} BindGood(env: Env, fuel: nat, tame: bool, name: Str, endless: bool, list: seq<Str>,
                                    index: nat,
                 ret: Ret, st: State)
    requires ret.Plain()
    ensures Good(env, fuel, tame, st, ret, st.(stack := BindLoopVar(st.stack, name, endless, list, index)),
                 |st.stack| - 1)
    ensures |BindLoopVar(st.stack, name, endless, list, index)| == |st.stack|
  {
  }

  lemma {:induction false} IterateGood(env: Env, fuel: nat, name: Str, endless: bool, list: seq<Str>, index: nat,
                                       body: seq<Item>, ret: Ret, st: State)
    requires endless ==> index <= MAX_ITERATIONS
    requires ret.Plain()
    ensures var r := Iterate(env, fuel, name, endless, list, index, body, ret, st);
            Good(env, fuel, Tame(body), st, r.ret, r.st, |st.stack| - 1)
    decreases fuel, 1, body, 1, if endless then MAX_ITERATIONS - index else |list| - index
  {
    var st1 := st.(stack := BindLoopVar(st.stack, name, endless, list, index));
    var top := |st.stack| - 1;
    BindGood(env, fuel, Tame(body), name, endless, list, index, ret, st);
    hide Keeps, TameDefs, Tame, BindLoopVar;
    if (if endless then index == MAX_ITERATIONS else index >= |list|) {
    } else if !endless && list[index] == [] {
      IterateGood(env, fuel, name, endless, list, index + 1, body, ret, st1);
    } else {
      VisitGood(env, fuel, body, Flags(true, false, false), st1);
      var o := Visit(env, fuel, body, Flags(true, false, false), st1);
      assert Good(env, fuel, Tame(body), st, o.ret, o.st, top) by {
        GoodTrans(env, fuel, Tame(body), st, ret, st1, o.ret, o.st, top);
      }
      if o.ret.Plain() || o.ret.RNext? {
        var ret' := if o.ret.RNext? then RTrue else o.ret;
        IterateGood(env, fuel, name, endless, list, index + 1, body, ret', o.st);
        var r := Iterate(env, fuel, name, endless, list, index + 1, body, ret', o.st);
        assert Iterate(env, fuel, name, endless, list, index, body, ret, st) == r;
        GoodTrans(env, fuel, Tame(body), st, o.ret, o.st, r.ret, r.st, top);
      }
    }
  }

  lemma {:induction false} SetTopLow(s: Stack, name: Str, v: Val)
    ensures var t := SetTop(s, name, v); |t| == |s| && t[..|s| - 1] == s[..|s| - 1]
  {
  }

  /** What is good for all frames is good for those below the top. */
  lemma {:induction false} LowerGood(env: Env, fuel: nat, tame: bool, st: State, ret: Ret, now: State)
    requires Good(env, fuel, true, st, ret, now, |st.stack|)
    ensures |now.stack| == |st.stack| && Good(env, fuel, tame, st, ret, now, |now.stack| - 1)
  {
  }

  lemma {:induction false} LoopGood(env: Env, fuel: nat, name: HStr, list: Expr, body: seq<Item>, st: State)
    ensures var r := Loop(env, fuel, name, list, body, st);
            Good(env, fuel, Tame(body), st, r.ret, r.st, |st.stack| - 1)
    decreases fuel, 1, Item.For(name, list, body), 0
  {
    WordsGood(env, fuel, list, st, true);
    var o := Words(env, fuel, list, st, true);
    var word := Last(o.v);
    if !o.ret.Fatal() && (name.s != [] || word == EVER) {
      var key := if name.s == [] then FOREVER else word;
      var variable := if name.s == [] then [] else env.alias(name.s);
      var bound := Values(o.st.stack, key);
      var endless := bound == [] && key == FOREVER;
      var values := if bound == [] then Range(env, key) else bound;
      IterateGood(env, fuel, variable, endless, values, 0, body, RTrue, o.st);
      var r := Iterate(env, fuel, variable, endless, values, 0, body, RTrue, o.st);
      var was := Values(o.st.stack, variable);
      assert Semantics.Loop(env, fuel, name, list, body, st) ==
             if variable == [] then r else Result(r.ret, r.st.(stack := SetTop(r.st.stack, variable, Vals(was)))) by {
        hide Iterate, Words, Range, Values, SetTop;
      }
      hide *;
      LowerGood(env, fuel, Tame(body), st, o.ret, o.st);
      GoodTrans(env, fuel, Tame(body), st, o.ret, o.st, r.ret, r.st, |st.stack| - 1);
      SetTopLow(r.st.stack, variable, Vals(was));
      TopGood(env, fuel, Tame(body), st, r.ret, r.st, SetTop(r.st.stack, variable, Vals(was)));
    }
  }

  /** Every evaluation of a block, however it ends, obeys the discipline. */
  lemma {:induction false} VisitGood(env: Env, fuel: nat, items: seq<Item>, f: Flags, st: State)
    ensures var r := Visit(env, fuel, items, f, st); Good(env, fuel, Tame(items), st, r.ret, r.st, |st.stack| - 1)
    decreases fuel, 1, items, 0
  {
    if items != [] {
      StepGood(env, fuel, items[0], f, st);
      var s := Semantics.Step(env, fuel, items[0], f, st);
      if s.res.ret.Plain() {
        VisitGood(env, fuel, items[1..], s.flags, s.res.st);
        var r := Visit(env, fuel, items[1..], s.flags, s.res.st);
        KeepsTrans(env, st, s.res.st, r.st, |st.stack| - 1);
      }
    }
  }

  lemma {:induction false} BypassGood(env: Env, fuel: nat, body: seq<Item>, st: State)
    ensures var r := VisitGlobally(env, fuel, body, st); Good(env, fuel, false, st, r.ret, r.st, |st.stack| - 1)
    decreases fuel, 1, body, 1
  {
    VisitGood(env, fuel, body, Flags(true, false, false), st.(stack := [st.stack[0]]));
  }

  lemma {:induction false} Unchanged(env: Env, fuel: nat, tame: bool, st: State, ret: Ret)
    requires !ret.ROverflow?
    ensures Good(env, fuel, tame, st, ret, st, |st.stack| - 1)
    ensures forall v :: Good(env, fuel, tame, st, ret, st.(returnValue := v), |st.stack| - 1)
  {
  }

  lemma {:induction false} LoggedGood(env: Env, fuel: nat, tame: bool, st: State, e: Event)
    ensures Good(env, fuel, tame, st, RTrue, st.(log := st.log + [e]), |st.stack| - 1)
  {
    KeepsLogged(env, st, st, e, |st.stack| - 1);
  }

  lemma {:induction false} DefineGood(env: Env, fuel: nat, isTest: bool, name: Str, body: seq<Item>, st: State)
    ensures Good(env, fuel, Tame(body), st, RTrue, Define(isTest, name, body, st), |st.stack| - 1)
  {
  }

  lemma {:induction false} ActGood(env: Env, fuel: nat, i: Item, curr: seq<Str>, f: Flags, st: State)
    ensures var s := Act(env, fuel, i, curr, f, st);
            Good(env, fuel, TameItem(i), st, s.res.ret, s.res.st, |st.stack| - 1)
    decreases fuel, 1, i, 1
  {
    hide Keeps, TameDefs, Visit, Loop, Assignment, Test;
    if f.Live() || i.Assign? || i.Branch? || i.Return? {
    } else {
      Unchanged(env, fuel, TameItem(i), st, RTrue);
    }
    match i
    case Assign(_, op, _, rhs) =>
      AssignmentGood(env, fuel, curr, op, rhs, st);
    case Branch(thn, els) =>
      var b := if f.okey then thn else els;
      if b.Block? {
        VisitGood(env, fuel, b.items, Flags(true, false, false), st);
      } else {
        Unchanged(env, fuel, TameItem(i), st, RTrue);
      }
    case For(name, list, body) =>
      LoopGood(env, fuel, name, list, body, st);
    case Bypass(body) =>
      BypassGood(env, fuel, body, st);
    case Cond(_) =>
      if |curr| == 1 {
        LoggedGood(env, fuel, true, st, Event.Tested(curr[0]));
      }
      Unchanged(env, fuel, true, st, RTrue);
    case Call(_, args) =>
      if |curr| == 1 {
        TestGood(env, fuel, curr[0], args, st);
      } else {
        Unchanged(env, fuel, true, st, RTrue);
      }
    case Def(isTest, name, body) =>
      DefineGood(env, fuel, isTest, name.s, body, st);
    case _ =>
      Unchanged(env, fuel, TameItem(i), st, Act(env, fuel, i, curr, f, st).res.ret);
  }

  lemma {:induction false} StepGood(env: Env, fuel: nat, i: Item, f: Flags, st: State)
    ensures var s := Semantics.Step(env, fuel, i, f, st);
            Good(env, fuel, TameItem(i), st, s.res.ret, s.res.st, |st.stack| - 1)
    decreases fuel, 1, i, 2
  {
    if HasHead(i) {
      WordsGood(env, fuel, Head(i), st, false);
      var o := Words(env, fuel, Head(i), st, false);
      if !o.ret.Fatal() {
        ActGood(env, fuel, i, o.v, f, o.st);
        var s := Act(env, fuel, i, o.v, f, o.st);
        KeepsTrans(env, st, o.st, s.res.st, |st.stack| - 1);
      }
    } else {
      ActGood(env, fuel, i, [], f, st);
    }
  }

  // ----- the main results ---------------------------------------------------

  /** Scope discipline: whatever code runs, and however it ends, the depth is restored, and the frames of
      all callers lose exported names only. */
  lemma {:induction false} ScopeDiscipline(env: Env, fuel: nat, items: seq<Item>, st: State)
    ensures var r := Visit(env, fuel, items, Flags(true, false, false), st);
            Keeps(env, st, r.st, |st.stack| - 1)
  {
    VisitGood(env, fuel, items, Flags(true, false, false), st);
  }

  /** Termination: without bypassNesting, 100 nested calls are always enough. */
  lemma {:induction false} CallsAreBounded(env: Env, fuel: nat, items: seq<Item>, st: State)
    requires Tame(items) && TameDefs(st)
    requires fuel + |st.stack| >= MAX_DEPTH
    ensures !Visit(env, fuel, items, Flags(true, false, false), st).ret.ROverflow?
  {
    VisitGood(env, fuel, items, Flags(true, false, false), st);
  }

  // ----- why bypassNesting is left out of the bound -----------------------------

  function Word(s: Str): Expr { Expr.Expr([HashLit(true, HStr(0, 0, s))]) }

  /** The body "bypassNesting() { f() }" of a test function f. */
  function CallsItself(f: Str): seq<Item> { [Bypass([Call(Word(f), [])])] }

  lemma {:induction false} WordIs(env: Env, fuel: nat, s: Str, st: State)
    ensures Words(env, fuel, Word(s), st, false) == Out(RTrue, st, [s])
  {
    var e := HashLit(true, HStr(0, 0, s));
    assert [e][1..] == [];
    var a := Acc([], false);
    assert [] + [s] == [s];
    assert Element(env, fuel, e, st, a, false) == Out(RTrue, st, Acc([s], true));
    assert Elems(env, fuel, [], st, Acc([s], true), false) == Out(RTrue, st, Acc([s], true));
  }

  /** It recurses past the depth limit: no call budget is enough. */
  lemma {:induction false} BypassNeverEnds(env: Env, fuel: nat, f: Str, st: State)
    requires !IsTest(env, f) && f in st.testDefs && st.testDefs[f] == CallsItself(f) && |st.stack| == 1
    ensures Semantics.Test(env, fuel, f, [], st).ret == ROverflow
    decreases fuel
  {
    var st1 := st.(log := st.log + [User(f, [])]);
    if fuel > 0 {
      var st2 := st1.(stack := Push(st.stack, ArgFrame([])));
      var st3 := st2.(stack := [st2.stack[0]]);
      BypassNeverEnds(env, fuel - 1, f, st3);
      WordIs(env, fuel - 1, f, st3);
      var body := [Call(Word(f), [])];
      VisitFirst(env, fuel - 1, Call(Word(f), []), st3);
      assert VisitGlobally(env, fuel - 1, body, st2).ret == ROverflow;
      hide Visit, VisitGlobally, Words;
      VisitFirst(env, fuel - 1, Bypass(body), st2);
    }
  }

  lemma {:induction false} VisitFirst(env: Env, fuel: nat, i: Item, st: State)
    requires Semantics.Step(env, fuel, i, Flags(true, false, false), st).res.ret == ROverflow
    ensures Visit(env, fuel, [i], Flags(true, false, false), st).ret == ROverflow
  {
  }
}
