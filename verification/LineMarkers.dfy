// Line markers in a compiled stream have no effect on what it does: stripping them
// commutes with every function of the evaluator.
module LineMarkers {
  import opened Tokens
  import opened Stream
  import opened ValueStack
  import opened Semantics
  import opened SourceText
  import opened Meaning

  function StripDefs(defs: map<Str, seq<Item>>): map<Str, seq<Item>> { map f | f in defs :: Strip(defs[f]) }

  /** The state without line markers in the bodies of the functions defined. */
  function Bare(st: State): State {
    st.(testDefs := StripDefs(st.testDefs), replaceDefs := StripDefs(st.replaceDefs))
  }

  function BareOut<T>(o: Out<T>): Out<T> { o.(st := Bare(o.st)) }

  function BareResult(r: Result): Result { Result(r.ret, Bare(r.st)) }

  function BareStep(s: StepOut): StepOut { StepOut(BareResult(s.res), s.flags) }

  // ----- expressions and calls ------------------------------------------------------------

  lemma {:induction false} ElemsStripped(env: Env, fuel: nat, es: seq<Elem>, st: State, a: Acc, joined: bool)
    ensures Elems(env, fuel, es, Bare(st), a, joined) == BareOut(Elems(env, fuel, es, st, a, joined))
    decreases fuel, 1, es, 0
  {
    if es != [] {
      ElementStripped(env, fuel, es[0], st, a, joined);
      var o := Element(env, fuel, es[0], st, a, joined);
      if !o.ret.Fatal() {
        ElemsStripped(env, fuel, es[1..], o.st, o.v, joined);
      }
      hide Element, StripDefs;
    }
  }

  lemma {:induction false} ElementStripped(env: Env, fuel: nat, e: Elem, st: State, a: Acc, joined: bool)
    ensures Element(env, fuel, e, Bare(st), a, joined) == BareOut(Element(env, fuel, e, st, a, joined))
    decreases fuel, 1, e, 0
  {
    hide Expand, StripDefs;
    if e.Fn? {
      ExpandStripped(env, fuel, e.h.s, e.args, st);
    }
  }

  lemma {:induction false} WordsStripped(env: Env, fuel: nat, x: Expr, st: State, joined: bool)
    ensures Words(env, fuel, x, Bare(st), joined) == BareOut(Words(env, fuel, x, st, joined))
    decreases fuel, 1, x, 1
  {
    hide Elems, StripDefs;
    ElemsStripped(env, fuel, x.elems, st, Acc(if joined then [[]] else [], false), joined);
  }

  lemma {:induction false} JoinedArgsStripped(env: Env, fuel: nat, args: seq<Expr>, st: State, acc: seq<Str>)
    ensures JoinedArgsFrom(env, fuel, args, Bare(st), acc) == BareOut(JoinedArgsFrom(env, fuel, args, st, acc))
    decreases fuel, 1, args, 0
  {
    if args != [] {
      WordsStripped(env, fuel, args[0], st, true);
      var o := Words(env, fuel, args[0], st, true);
      if !o.ret.Fatal() {
        JoinedArgsStripped(env, fuel, args[1..], o.st, acc + o.v);
      }
      hide Words, StripDefs;
    }
  }

  lemma {:induction false} ListArgsStripped(env: Env, fuel: nat, args: seq<Expr>, st: State, acc: seq<seq<Str>>)
    ensures ListArgs(env, fuel, args, Bare(st), acc) == BareOut(ListArgs(env, fuel, args, st, acc))
    decreases fuel, 1, args, 0
  {
    if args != [] {
      WordsStripped(env, fuel, args[0], st, false);
      var o := Words(env, fuel, args[0], st, false);
      if !o.ret.Fatal() {
        ListArgsStripped(env, fuel, args[1..], o.st, acc + [o.v]);
      }
      hide Words, StripDefs;
    }
  }

  lemma {:induction false} CallStripped(env: Env, fuel: nat, body: seq<Item>, args: seq<seq<Str>>, st: State)
    ensures CallUser(env, fuel, Strip(body), args, Bare(st)) == BareOut(CallUser(env, fuel, body, args, st))
    decreases fuel, 0
  {
    hide Visit, StripDefs, Strip, ArgFrame;
    if |st.stack| < MAX_DEPTH && fuel > 0 {
      VisitStripped(env, fuel - 1, body, Flags(true, false, false), st.(stack := Push(st.stack, ArgFrame(args))));
    }
  }

  lemma {:induction false} ExpandStripped(env: Env, fuel: nat, name: Str, args: seq<Expr>, st: State)
    ensures Expand(env, fuel, name, args, Bare(st)) == BareOut(Expand(env, fuel, name, args, st))
    decreases fuel, 1, args, 2
  {
    JoinedArgsStripped(env, fuel, args, st, []);
    ListArgsStripped(env, fuel, args, st, []);
    if !env.isExpand(name) && name in st.replaceDefs {
      var o := ListArgs(env, fuel, args, st, []);
      CallStripped(env, fuel, st.replaceDefs[name], o.v, o.st);
    }
    hide JoinedArgsFrom, ListArgs, CallUser, Strip;
  }

  lemma {:induction false} BuiltinStripped(env: Env, name: Str, args: seq<Str>, st: State)
    ensures BuiltinCall(env, name, args, Bare(st)) == BareResult(BuiltinCall(env, name, args, st))
  {
    hide StripDefs, BuiltinEffect;
  }

  lemma {:induction false} TestStripped(env: Env, fuel: nat, name: Str, args: seq<Expr>, st: State)
    ensures Semantics.Test(env, fuel, name, args, Bare(st)) == BareResult(Semantics.Test(env, fuel, name, args, st))
    decreases fuel, 1, args, 2
  {
    if IsTest(env, name) {
      JoinedArgsStripped(env, fuel, args, st, []);
      var o := JoinedArgs(env, fuel, args, st);
      BuiltinStripped(env, name, o.v, o.st);
    } else if name in st.testDefs {
      ListArgsStripped(env, fuel, args, st, []);
      var o := ListArgs(env, fuel, args, st, []);
      CallStripped(env, fuel, st.testDefs[name], o.v, o.st.(log := o.st.log + [User(name, o.v)]));
    }
    hide JoinedArgsFrom, ListArgs, CallUser, BuiltinCall, Strip, IsTest;
  }

  // ----- items --------------------------------------------------------------------------------

  lemma {:induction false} AssignmentStripped(env: Env, fuel: nat, lhs: seq<Str>, op: AssignOp, rhs: Expr, st: State)
    ensures Assignment(env, fuel, lhs, op, rhs, Bare(st)) == BareResult(Assignment(env, fuel, lhs, op, rhs, st))
    decreases fuel, 1, rhs, 2
  {
    hide Words, StripDefs, AssignTo;
    WordsStripped(env, fuel, rhs, st, op.Replace?);
  }

  lemma {:induction false} BlockStripped(env: Env, fuel: nat, b: Block, st: State)
    ensures VisitBlock(env, fuel, StripBlock(b), Bare(st)) == BareResult(VisitBlock(env, fuel, b, st))
    decreases fuel, 1, b, 1
  {
    hide Visit, StripDefs, Strip;
    if b.Block? {
      VisitStripped(env, fuel, b.items, Flags(true, false, false), st);
    }
  }

  lemma {:induction false} IterateStripped(env: Env, fuel: nat, name: Str, endless: bool, list: seq<Str>, index: nat,
                                           body: seq<Item>, ret: Ret, st: State)
    requires endless ==> index <= MAX_ITERATIONS
    ensures Iterate(env, fuel, name, endless, list, index, Strip(body), ret, Bare(st)) ==
            BareResult(Iterate(env, fuel, name, endless, list, index, body, ret, st))
    decreases fuel, 1, body, 1, if endless then MAX_ITERATIONS - index else |list| - index
  {
    hide Visit, Strip, BindLoopVar, StripDefs;
    var st1 := st.(stack := BindLoopVar(st.stack, name, endless, list, index));
    if (if endless then index == MAX_ITERATIONS else index >= |list|) {
    } else if !endless && list[index] == [] {
      IterateStripped(env, fuel, name, endless, list, index + 1, body, ret, st1);
    } else {
      VisitStripped(env, fuel, body, Flags(true, false, false), st1);
      var o := Visit(env, fuel, body, Flags(true, false, false), st1);
      if o.ret.Plain() || o.ret.RNext? {
        IterateStripped(env, fuel, name, endless, list, index + 1, body, if o.ret.RFalse? then RFalse else RTrue, o.st);
      }
    }
  }

  lemma {:induction false} LoopStripped(env: Env, fuel: nat, name: HStr, list: Expr, body: seq<Item>, st: State)
    ensures Semantics.Loop(env, fuel, name, list, Strip(body), Bare(st)) ==
            BareResult(Semantics.Loop(env, fuel, name, list, body, st))
    decreases fuel, 1, Item.For(name, list, body), 0
  {
    hide Iterate, Words, Strip, StripDefs, Values;
    WordsStripped(env, fuel, list, st, true);
    var o := Words(env, fuel, list, st, true);
    var word := Last(o.v);
    if !o.ret.Fatal() && (name.s != [] || word == EVER) {
      var key := if name.s == [] then FOREVER else word;
      var variable := if name.s == [] then [] else env.alias(name.s);
      var bound := Values(o.st.stack, key);
      IterateStripped(env, fuel, variable, bound == [] && key == FOREVER, if bound == [] then Range(env, key) else bound, 0,
                      body, RTrue, o.st);
    }
  }

  lemma {:induction false} GloballyStripped(env: Env, fuel: nat, body: seq<Item>, st: State)
    ensures VisitGlobally(env, fuel, Strip(body), Bare(st)) == BareResult(VisitGlobally(env, fuel, body, st))
    decreases fuel, 1, body, 1
  {
    hide Visit, Strip, StripDefs;
    VisitStripped(env, fuel, body, Flags(true, false, false), st.(stack := [st.stack[0]]));
  }

  lemma {:induction false} DefineStripped(isTest: bool, name: Str, body: seq<Item>, st: State)
    ensures Define(isTest, name, Strip(body), Bare(st)) == Bare(Define(isTest, name, body, st))
  {
    hide Strip;
    var defs := if isTest then st.testDefs else st.replaceDefs;
    assert StripDefs(defs)[name := Strip(body)] == StripDefs(defs[name := body]);
  }

  /** The one item other than a line marker is stripped to. */
  function BareItem(i: Item): Item
    requires !i.Line?
  {
    StripItem(i)[0]
  }

  lemma {:induction false} ActStripped(env: Env, fuel: nat, i: Item, curr: seq<Str>, f: Flags, st: State)
    requires !i.Line?
    ensures Act(env, fuel, BareItem(i), curr, f, Bare(st)) == BareStep(Act(env, fuel, i, curr, f, st))
    decreases fuel, 1, i, 3
  {
    hide VisitBlock, Loop, VisitGlobally, Assignment, Semantics.Test, Define, Strip, StripBlock, StripDefs;
    match i
    case Assign(_, op, _, rhs) => AssignmentStripped(env, fuel, curr, op, rhs, st);
    case Branch(thn, els) => BlockStripped(env, fuel, if f.okey then thn else els, st);
    case For(name, list, body) => LoopStripped(env, fuel, name, list, body, st);
    case Def(isTest, name, body) => DefineStripped(isTest, name.s, body, st);
    case Bypass(body) => GloballyStripped(env, fuel, body, st);
    case Call(_, args) =>
      if |curr| == 1 { TestStripped(env, fuel, curr[0], args, st); }
    case _ =>
  }

  lemma {:induction false} StepStripped(env: Env, fuel: nat, i: Item, f: Flags, st: State)
    requires !i.Line?
    ensures Semantics.Step(env, fuel, BareItem(i), f, Bare(st)) == BareStep(Semantics.Step(env, fuel, i, f, st))
    decreases fuel, 1, i, 4
  {
    hide Act, Words, Strip, StripBlock, StripDefs;
    if HasHead(i) {
      assert HasHead(BareItem(i)) && Head(BareItem(i)) == Head(i);
      WordsStripped(env, fuel, Head(i), st, false);
      var o := Words(env, fuel, Head(i), st, false);
      if !o.ret.Fatal() {
        ActStripped(env, fuel, i, o.v, f, o.st);
      }
    } else {
      assert !HasHead(BareItem(i));
      ActStripped(env, fuel, i, [], f, st);
    }
  }

  lemma {:induction false} StrippedCons(items: seq<Item>)
    requires items != [] && !items[0].Line?
    ensures Strip(items) == [BareItem(items[0])] + Strip(items[1..])
  {
  }

  lemma {:induction false} LineSkipped(env: Env, fuel: nat, items: seq<Item>, f: Flags, st: State)
    requires items != [] && items[0].Line?
    ensures Visit(env, fuel, items, f, st) == Visit(env, fuel, items[1..], f, st) && Strip(items) == Strip(items[1..])
  {
    assert [] + Strip(items[1..]) == Strip(items[1..]);
    assert items == [items[0]] + items[1..];
    VisitCons(env, fuel, items[0], items[1..], f, st);
    assert Semantics.Step(env, fuel, items[0], f, st) == StepOut(Result(RTrue, st), f);
  }

  /** Visiting the stripped items in the stripped state gives the stripped result. */
  lemma {:induction false} VisitStripped(env: Env, fuel: nat, items: seq<Item>, f: Flags, st: State)
    ensures Visit(env, fuel, Strip(items), f, Bare(st)) == BareResult(Visit(env, fuel, items, f, st))
    decreases fuel, 1, items, 0
  {
    if items != [] {
      var i, rest := items[0], items[1..];
      if i.Line? {
        VisitStripped(env, fuel, rest, f, st);
        LineSkipped(env, fuel, items, f, st);
      } else {
        var s := Semantics.Step(env, fuel, i, f, st);
        StepStripped(env, fuel, i, f, st);
        if s.res.ret.Plain() {
          VisitStripped(env, fuel, rest, s.flags, s.res.st);
        }
        StrippedCons(items);
        VisitCons(env, fuel, BareItem(i), Strip(rest), f, Bare(st));
        assert items == [i] + rest;
        VisitCons(env, fuel, i, rest, f, st);
        hide Semantics.Step, Strip, StripItem, Visit, BareItem, StripDefs;
      }
    }
  }
}
