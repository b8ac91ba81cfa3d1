// The call budget of the model is no part of the meaning: a result that does not
// overflow it is the result for every larger budget.
module CallBudget {
  import opened Tokens
  import opened Stream
  import opened ValueStack
  import opened Semantics
  import opened Discipline

  /** The second result is the first, unless that is an overflow. */
  predicate SameOut<T(==)>(a: Out<T>, b: Out<T>) { a.ret.ROverflow? || a == b }

  predicate Same(a: Result, b: Result) { a.ret.ROverflow? || a == b }

  lemma {:induction false} ElemsSame(env: Env, fuel: nat, es: seq<Elem>, st: State, a: Acc, joined: bool)
    ensures SameOut(Elems(env, fuel, es, st, a, joined), Elems(env, fuel + 1, es, st, a, joined))
    decreases fuel, 1, es, 0
  {
    if es != [] {
      ElementSame(env, fuel, es[0], st, a, joined);
      var o := Element(env, fuel, es[0], st, a, joined);
      if !o.ret.Fatal() {
        ElemsSame(env, fuel, es[1..], o.st, o.v, joined);
      }
      hide Element;
    }
  }

  lemma {:induction false} ElementSame(env: Env, fuel: nat, e: Elem, st: State, a: Acc, joined: bool)
    ensures SameOut(Element(env, fuel, e, st, a, joined), Element(env, fuel + 1, e, st, a, joined))
    decreases fuel, 1, e, 0
  {
    hide Expand;
    if e.Fn? {
      ExpandSame(env, fuel, e.h.s, e.args, st);
    }
  }

  lemma {:induction false} WordsSame(env: Env, fuel: nat, x: Expr, st: State, joined: bool)
    ensures SameOut(Words(env, fuel, x, st, joined), Words(env, fuel + 1, x, st, joined))
    decreases fuel, 1, x, 1
  {
    hide Elems;
    ElemsSame(env, fuel, x.elems, st, Acc(if joined then [[]] else [], false), joined);
  }

  lemma {:induction false} JoinedArgsSame(env: Env, fuel: nat, args: seq<Expr>, st: State, acc: seq<Str>)
    ensures SameOut(JoinedArgsFrom(env, fuel, args, st, acc), JoinedArgsFrom(env, fuel + 1, args, st, acc))
    decreases fuel, 1, args, 0
  {
    if args != [] {
      WordsSame(env, fuel, args[0], st, true);
      var o := Words(env, fuel, args[0], st, true);
      if !o.ret.Fatal() {
        JoinedArgsSame(env, fuel, args[1..], o.st, acc + o.v);
      }
      hide Words;
    }
  }

  lemma {:induction false} ListArgsSame(env: Env, fuel: nat, args: seq<Expr>, st: State, acc: seq<seq<Str>>)
    ensures SameOut(ListArgs(env, fuel, args, st, acc), ListArgs(env, fuel + 1, args, st, acc))
    decreases fuel, 1, args, 0
  {
    if args != [] {
      WordsSame(env, fuel, args[0], st, false);
      var o := Words(env, fuel, args[0], st, false);
      if !o.ret.Fatal() {
        ListArgsSame(env, fuel, args[1..], o.st, acc + [o.v]);
      }
      hide Words;
    }
  }

  lemma {:induction false} CallSame(env: Env, fuel: nat, body: seq<Item>, args: seq<seq<Str>>, st: State)
    ensures SameOut(CallUser(env, fuel, body, args, st), CallUser(env, fuel + 1, body, args, st))
    decreases fuel, 0
  {
    hide Visit, ArgFrame;
    if |st.stack| < MAX_DEPTH && fuel > 0 {
      VisitSame(env, fuel - 1, body, Flags(true, false, false), st.(stack := Push(st.stack, ArgFrame(args))));
    }
  }

  lemma {:induction false} ExpandSame(env: Env, fuel: nat, name: Str, args: seq<Expr>, st: State)
    ensures SameOut(Expand(env, fuel, name, args, st), Expand(env, fuel + 1, name, args, st))
    decreases fuel, 1, args, 2
  {
    JoinedArgsSame(env, fuel, args, st, []);
    ListArgsSame(env, fuel, args, st, []);
    if !env.isExpand(name) && name in st.replaceDefs {
      var o := ListArgs(env, fuel, args, st, []);
      CallSame(env, fuel, st.replaceDefs[name], o.v, o.st);
    }
    hide JoinedArgsFrom, ListArgs, CallUser;
  }

  lemma {:induction false} TestSame(env: Env, fuel: nat, name: Str, args: seq<Expr>, st: State)
    ensures Same(Semantics.Test(env, fuel, name, args, st), Semantics.Test(env, fuel + 1, name, args, st))
    decreases fuel, 1, args, 2
  {
    JoinedArgsSame(env, fuel, args, st, []);
    ListArgsSame(env, fuel, args, st, []);
    if !IsTest(env, name) && name in st.testDefs {
      var o := ListArgs(env, fuel, args, st, []);
      CallSame(env, fuel, st.testDefs[name], o.v, o.st.(log := o.st.log + [User(name, o.v)]));
    }
    hide JoinedArgsFrom, ListArgs, CallUser, BuiltinCall, IsTest;
  }

  lemma {:induction false} AssignmentSame(env: Env, fuel: nat, lhs: seq<Str>, op: AssignOp, rhs: Expr, st: State)
    ensures Same(Assignment(env, fuel, lhs, op, rhs, st), Assignment(env, fuel + 1, lhs, op, rhs, st))
    decreases fuel, 1, rhs, 2
  {
    hide Words, AssignTo;
    WordsSame(env, fuel, rhs, st, op.Replace?);
  }

  lemma {:induction false} BlockSame(env: Env, fuel: nat, b: Block, st: State)
    ensures Same(VisitBlock(env, fuel, b, st), VisitBlock(env, fuel + 1, b, st))
    decreases fuel, 1, b, 1
  {
    hide Visit;
    if b.Block? {
      VisitSame(env, fuel, b.items, Flags(true, false, false), st);
    }
  }

  lemma {:induction false} IterateSame(env: Env, fuel: nat, name: Str, endless: bool, list: seq<Str>, index: nat,
                                       body: seq<Item>, ret: Ret, st: State)
    requires endless ==> index <= MAX_ITERATIONS
    ensures Same(Iterate(env, fuel, name, endless, list, index, body, ret, st),
                 Iterate(env, fuel + 1, name, endless, list, index, body, ret, st))
    decreases fuel, 1, body, 1, if endless then MAX_ITERATIONS - index else |list| - index
  {
    hide Visit, BindLoopVar;
    var st1 := st.(stack := BindLoopVar(st.stack, name, endless, list, index));
    if (if endless then index == MAX_ITERATIONS else index >= |list|) {
    } else if !endless && list[index] == [] {
      IterateSame(env, fuel, name, endless, list, index + 1, body, ret, st1);
    } else {
      VisitSame(env, fuel, body, Flags(true, false, false), st1);
      var o := Visit(env, fuel, body, Flags(true, false, false), st1);
      if o.ret.Plain() || o.ret.RNext? {
        IterateSame(env, fuel, name, endless, list, index + 1, body, if o.ret.RFalse? then RFalse else RTrue, o.st);
      }
    }
  }

  lemma {:induction false} LoopSame(env: Env, fuel: nat, name: HStr, list: Expr, body: seq<Item>, st: State)
    ensures Same(Semantics.Loop(env, fuel, name, list, body, st), Semantics.Loop(env, fuel + 1, name, list, body, st))
    decreases fuel, 1, Item.For(name, list, body), 0
  {
    hide Iterate, Words, Values;
    WordsSame(env, fuel, list, st, true);
    var o := Words(env, fuel, list, st, true);
    var word := Last(o.v);
    if !o.ret.Fatal() && (name.s != [] || word == EVER) {
      var key := if name.s == [] then FOREVER else word;
      var variable := if name.s == [] then [] else env.alias(name.s);
      var bound := Values(o.st.stack, key);
      IterateSame(env, fuel, variable, bound == [] && key == FOREVER, if bound == [] then Range(env, key) else bound, 0,
                  body, RTrue, o.st);
    }
  }

  lemma {:induction false} ActSame(env: Env, fuel: nat, i: Item, curr: seq<Str>, f: Flags, st: State)
    ensures var a, b := Act(env, fuel, i, curr, f, st), Act(env, fuel + 1, i, curr, f, st);
            a.res.ret.ROverflow? || a == b
    decreases fuel, 1, i, 3
  {
    hide VisitBlock, Loop, Visit, Assignment, Semantics.Test, Define;
    match i
    case Assign(_, op, _, rhs) => AssignmentSame(env, fuel, curr, op, rhs, st);
    case Branch(thn, els) => BlockSame(env, fuel, if f.okey then thn else els, st);
    case For(name, list, body) => LoopSame(env, fuel, name, list, body, st);
    case Bypass(body) => VisitSame(env, fuel, body, Flags(true, false, false), st.(stack := [st.stack[0]]));
    case Call(_, args) =>
      if |curr| == 1 { TestSame(env, fuel, curr[0], args, st); }
    case _ =>
  }

  lemma {:induction false} StepSame(env: Env, fuel: nat, i: Item, f: Flags, st: State)
    ensures var a, b := Semantics.Step(env, fuel, i, f, st), Semantics.Step(env, fuel + 1, i, f, st);
            a.res.ret.ROverflow? || a == b
    decreases fuel, 1, i, 4
  {
    hide Act, Words;
    if HasHead(i) {
      WordsSame(env, fuel, Head(i), st, false);
      var o := Words(env, fuel, Head(i), st, false);
      if !o.ret.Fatal() {
        ActSame(env, fuel, i, o.v, f, o.st);
      }
    } else {
      ActSame(env, fuel, i, [], f, st);
    }
  }

  /** One more call in the budget makes no difference to a result that does not overflow it. */
  lemma {:induction false} VisitSame(env: Env, fuel: nat, items: seq<Item>, f: Flags, st: State)
    ensures Same(Visit(env, fuel, items, f, st), Visit(env, fuel + 1, items, f, st))
    decreases fuel, 1, items, 0
  {
    if items != [] {
      StepSame(env, fuel, items[0], f, st);
      var s := Semantics.Step(env, fuel, items[0], f, st);
      if s.res.ret.Plain() {
        VisitSame(env, fuel, items[1..], s.flags, s.res.st);
      }
      hide Semantics.Step;
    }
  }

  lemma {:induction false} LargerSame(env: Env, fuel: nat, larger: nat, items: seq<Item>, f: Flags, st: State)
    requires fuel <= larger
    ensures Same(Visit(env, fuel, items, f, st), Visit(env, larger, items, f, st))
    decreases larger - fuel
  {
    if fuel < larger {
      VisitSame(env, fuel, items, f, st);
      LargerSame(env, fuel + 1, larger, items, f, st);
    }
  }

  /** Without bypassNesting every budget of 100 calls or more gives one and the same result, and never an overflow:
      the evaluation of the code itself, which has no budget. */
  lemma {:induction false} OneResult(env: Env, fuel: nat, larger: nat, items: seq<Item>, st: State)
    requires Tame(items) && TameDefs(st) && MAX_DEPTH <= fuel <= larger
    ensures var r := Visit(env, fuel, items, Flags(true, false, false), st);
            r == Visit(env, larger, items, Flags(true, false, false), st) && !r.ret.ROverflow?
  {
    CallsAreBounded(env, fuel, items, st);
    LargerSame(env, fuel, larger, items, Flags(true, false, false), st);
  }
}
