// Running the items a structured program compiles to gives the program's meaning.
module Meaning {
  import opened Tokens
  import opened Stream
  import opened ValueStack
  import opened Semantics
  import opened Structured

  // ----- the two kinds of state -------------------------------------------------------

  function CompileDefs(defs: map<Str, Body>): map<Str, seq<Item>> { map f | f in defs :: CompileBody(defs[f]) }

  /** The evaluator's state: functions are defined by the items their bodies compile to. */
  function Compiled(st: Setting): State {
    State(st.stack, CompileDefs(st.tests), CompileDefs(st.expansions), st.returnValue, st.log)
  }

  function CompiledOut<T>(o: Got<T>): Out<T> { Out(o.ret, Compiled(o.st), o.v) }

  function Ended(f: Flow): Result {
    match f
    case Goes(v, st) => Result(Bool(v), Compiled(st))
    case Stops(r, st) => Result(r, Compiled(st))
  }

  /** The flags after a test with truth value `v`: the next test is to be evaluated. */
  function After(v: bool): Flags { Flags(v, !v, false) }

  /** Going on with the items `rest` after a statement. */
  function Then(env: Env, fuel: nat, f: Flow, rest: seq<Item>): Result {
    match f
    case Goes(v, st) => Visit(env, fuel, rest, After(v), Compiled(st))
    case Stops(r, st) => Result(r, Compiled(st))
  }

  predicate Final(f: Flow) { f.Stops? ==> !f.ret.Plain() }

  lemma {:induction false} VisitCons(env: Env, fuel: nat, i: Item, rest: seq<Item>, f: Flags, st: State)
    ensures var s := Semantics.Step(env, fuel, i, f, st);
            Visit(env, fuel, [i] + rest, f, st) ==
            if s.res.ret.Plain() then Visit(env, fuel, rest, s.flags, s.res.st) else s.res
  {
    assert ([i] + rest)[1..] == rest;
  }

  // ----- expressions and calls ---------------------------------------------------------

  lemma {:induction false} ElemsMean(env: Env, fuel: nat, es: seq<Elem>, st: Setting, a: Acc, joined: bool)
    ensures Elems(env, fuel, es, Compiled(st), a, joined) == CompiledOut(SemElems(env, fuel, es, st, a, joined))
    decreases fuel, 1, es, 0
  {
    if es != [] {
      ElementMeans(env, fuel, es[0], st, a, joined);
      var o := SemElement(env, fuel, es[0], st, a, joined);
      if !o.ret.Fatal() {
        ElemsMean(env, fuel, es[1..], o.st, o.v, joined);
      }
      hide Element, SemElement, CompileDefs;
    }
  }

  lemma {:induction false} ElementMeans(env: Env, fuel: nat, e: Elem, st: Setting, a: Acc, joined: bool)
    ensures Element(env, fuel, e, Compiled(st), a, joined) == CompiledOut(SemElement(env, fuel, e, st, a, joined))
    decreases fuel, 1, e, 0
  {
    hide Expand, SemExpand, CompileDefs, Simple;
    if e.Fn? {
      ExpandMeans(env, fuel, e.h.s, e.args, st);
    }
  }

  lemma {:induction false} WordsMean(env: Env, fuel: nat, x: Expr, st: Setting, joined: bool)
    ensures Words(env, fuel, x, Compiled(st), joined) == CompiledOut(SemWords(env, fuel, x, st, joined))
    decreases fuel, 1, x, 1
  {
    hide Elems, SemElems, CompileDefs;
    ElemsMean(env, fuel, x.elems, st, Acc(if joined then [[]] else [], false), joined);
  }

  lemma {:induction false} JoinedMean(env: Env, fuel: nat, args: seq<Expr>, st: Setting, acc: seq<Str>)
    ensures JoinedArgsFrom(env, fuel, args, Compiled(st), acc) == CompiledOut(SemJoined(env, fuel, args, st, acc))
    decreases fuel, 1, args, 0
  {
    if args != [] {
      WordsMean(env, fuel, args[0], st, true);
      var o := SemWords(env, fuel, args[0], st, true);
      if !o.ret.Fatal() {
        JoinedMean(env, fuel, args[1..], o.st, acc + o.v);
      }
      hide Words, SemWords, CompileDefs;
    }
  }

  lemma {:induction false} ArgsMean(env: Env, fuel: nat, args: seq<Expr>, st: Setting)
    ensures JoinedArgs(env, fuel, args, Compiled(st)) == CompiledOut(SemArgs(env, fuel, args, st))
    decreases fuel, 1, args, 1
  {
    hide JoinedArgsFrom, SemJoined, CompileDefs;
    JoinedMean(env, fuel, args, st, []);
  }

  lemma {:induction false} ListsMean(env: Env, fuel: nat, args: seq<Expr>, st: Setting, acc: seq<seq<Str>>)
    ensures ListArgs(env, fuel, args, Compiled(st), acc) == CompiledOut(SemLists(env, fuel, args, st, acc))
    decreases fuel, 1, args, 0
  {
    if args != [] {
      WordsMean(env, fuel, args[0], st, false);
      var o := SemWords(env, fuel, args[0], st, false);
      if !o.ret.Fatal() {
        ListsMean(env, fuel, args[1..], o.st, acc + [o.v]);
      }
      hide Words, SemWords, CompileDefs;
    }
  }

  /** A call of a defined function means what its body means. */
  lemma {:induction false} CallMeans(env: Env, fuel: nat, b: Body, args: seq<seq<Str>>, st: Setting)
    ensures CallUser(env, fuel, CompileBody(b), args, Compiled(st)) == CompiledOut(SemCall(env, fuel, b, args, st))
    decreases fuel, 0
  {
    hide Visit, SemBody, CompileDefs, CompileBody, ArgFrame;
    if |st.stack| < MAX_DEPTH && fuel > 0 {
      RunBody(env, fuel - 1, b, st.(stack := Push(st.stack, ArgFrame(args))));
    }
  }

  lemma {:induction false} ExpandMeans(env: Env, fuel: nat, name: Str, args: seq<Expr>, st: Setting)
    ensures Expand(env, fuel, name, args, Compiled(st)) == CompiledOut(SemExpand(env, fuel, name, args, st))
    decreases fuel, 1, args, 2
  {
    ArgsMean(env, fuel, args, st);
    ListsMean(env, fuel, args, st, []);
    if !env.isExpand(name) && name in st.expansions {
      var o := SemLists(env, fuel, args, st, []);
      if !o.ret.Fatal() {
        CallMeans(env, fuel, st.expansions[name], o.v, o.st);
      }
    }
    hide JoinedArgs, SemArgs, ListArgs, SemLists, CallUser, SemCall, CompileBody;
  }

  lemma {:induction false} TestMeans(env: Env, fuel: nat, name: Str, args: seq<Expr>, st: Setting)
    ensures var o := SemTest(env, fuel, name, args, st);
            Semantics.Test(env, fuel, name, args, Compiled(st)) == Result(o.ret, Compiled(o.st))
    decreases fuel, 1, args, 2
  {
    if IsTest(env, name) {
      ArgsMean(env, fuel, args, st);
    } else if name in st.tests {
      ListsMean(env, fuel, args, st, []);
      var o := SemLists(env, fuel, args, st, []);
      if !o.ret.Fatal() {
        CallMeans(env, fuel, st.tests[name], o.v, o.st.(log := o.st.log + [User(name, o.v)]));
      }
    }
    hide JoinedArgs, SemArgs, ListArgs, SemLists, CallUser, SemCall, CompileBody, BuiltinEffect, IsTest, TruthOf;
  }

  // ----- tests --------------------------------------------------------------------

  lemma {:induction false} OperandCode(o: Operand)
    ensures CompileOperand(o) == (if IsNegated(o) then [Not] else []) + [OperandItem(o)]
  {
  }

  /** A test item runs as its meaning says, evaluated or skipped; `f.invert` is its negation. */
  lemma {:induction false} TestStep(env: Env, fuel: nat, o: Operand, f: Flags, rest: seq<Item>, st: Setting)
    requires f.invert == IsNegated(o)
    ensures var m := if f.Live() then SemOperand(env, fuel, o, st) else Skip(env, fuel, o, f.okey, st);
            Final(m) && Visit(env, fuel, [OperandItem(o)] + rest, f, Compiled(st)) == Then(env, fuel, m, rest)
    decreases fuel, 1, o, 0
  {
    var i := OperandItem(o);
    VisitCons(env, fuel, i, rest, f, Compiled(st));
    if HasHead(i) {
      WordsMean(env, fuel, Head(i), st, false);
    }
    if o.Invoke? && f.Live() {
      var w := SemWords(env, fuel, o.x, st, false);
      if !w.ret.Fatal() && |w.v| == 1 {
        TestMeans(env, fuel, w.v[0], o.args, w.st);
      }
    }
    hide Visit, Words, SemWords, Semantics.Test, SemTest, CompileDefs;
  }

  lemma {:induction false} RunOperand(env: Env, fuel: nat, o: Operand, f: Flags, rest: seq<Item>, st: Setting)
    requires !f.invert
    ensures var m := if f.Live() then SemOperand(env, fuel, o, st) else Skip(env, fuel, o, f.okey, st);
            Final(m) && Visit(env, fuel, CompileOperand(o) + rest, f, Compiled(st)) == Then(env, fuel, m, rest)
    decreases fuel, 1, o, 1
  {
    OperandCode(o);
    hide SemOperand, Skip, CompileOperand, Compiled;
    var i := OperandItem(o);
    if IsNegated(o) {
      assert CompileOperand(o) + rest == [Not] + ([i] + rest);
      VisitCons(env, fuel, Not, [i] + rest, f, Compiled(st));
      TestStep(env, fuel, o, f.(invert := true), rest, st);
    } else {
      assert CompileOperand(o) + rest == [i] + rest;
      TestStep(env, fuel, o, f, rest, st);
    }
  }

  /** An operator and its second operand, after the first came out as `f`. */
  lemma {:induction false} RunSecond(env: Env, fuel: nat, or: bool, f: Flow, o: Operand, rest: seq<Item>)
    requires Final(f)
    ensures var m := if f.Stops? then f
                     else if f.v == or then Skip(env, fuel, o, f.v, f.st) else SemOperand(env, fuel, o, f.st);
            Final(m) &&
            Then(env, fuel, f, [if or then Or else And] + (CompileOperand(o) + rest)) == Then(env, fuel, m, rest)
    decreases fuel, 1, o, 2
  {
    if f.Goes? {
      hide SemOperand, Skip, CompileOperand, Compiled;
      VisitCons(env, fuel, if or then Or else And, CompileOperand(o) + rest, After(f.v), Compiled(f.st));
      RunOperand(env, fuel, o, After(f.v).(orOp := or), rest, f.st);
    }
  }

  lemma {:induction false} RunCondition(env: Env, fuel: nat, c: Condition, v: bool, rest: seq<Item>, st: Setting)
    ensures var m := SemCondition(env, fuel, c, st);
            Final(m) && Visit(env, fuel, CompileCondition(c) + rest, After(v), Compiled(st)) == Then(env, fuel, m, rest)
    decreases fuel, 1, c, 0
  {
    hide SemOperand, Skip, CompileOperand, Compiled, Visit;
    match c
    case One(o) => RunOperand(env, fuel, o, After(v), rest, st);
    case Both(d, o) =>
      assert CompileCondition(c) + rest == CompileCondition(d) + ([And] + (CompileOperand(o) + rest));
      RunCondition(env, fuel, d, v, [And] + (CompileOperand(o) + rest), st);
      RunSecond(env, fuel, false, SemCondition(env, fuel, d, st), o, rest);
    case Either(d, o) =>
      assert CompileCondition(c) + rest == CompileCondition(d) + ([Or] + (CompileOperand(o) + rest));
      RunCondition(env, fuel, d, v, [Or] + (CompileOperand(o) + rest), st);
      RunSecond(env, fuel, true, SemCondition(env, fuel, d, st), o, rest);
  }

  lemma {:induction false} RunChange(env: Env, fuel: nat, a: Change, v: bool, rest: seq<Item>, st: Setting)
    ensures var m := SemChange(env, fuel, a, v, st);
            Final(m) && Visit(env, fuel, [CompileChange(a)] + rest, After(v), Compiled(st)) == Then(env, fuel, m, rest)
    decreases fuel, 1, a, 0
  {
    VisitCons(env, fuel, CompileChange(a), rest, After(v), Compiled(st));
    WordsMean(env, fuel, a.lhs, st, false);
    var w := SemWords(env, fuel, a.lhs, st, false);
    if !w.ret.Fatal() {
      AssignMeans(env, fuel, w.v, a, v, w.st);
    }
    hide Visit, Words, SemWords, CompileDefs, Assignment, SemAssign;
  }

  lemma {:induction false} AssignMeans(env: Env, fuel: nat, lhs: seq<Str>, a: Change, v: bool, st: Setting)
    ensures var m := SemAssign(env, fuel, lhs, a, v, st);
            var r := Assignment(env, fuel, lhs, a.op, a.rhs, Compiled(st));
            Final(m) && r.st == Compiled(m.st) && (if m.Goes? then m.v == v && r.ret == RTrue else r.ret == m.ret)
    decreases fuel, 1, a.rhs, 2
  {
    WordsMean(env, fuel, a.rhs, st, a.op.Replace?);
    hide Words, SemWords, CompileDefs, AssignTo;
  }

  // ----- statements -----------------------------------------------------------------

  lemma {:induction false} RunAction(env: Env, fuel: nat, act: Action, v: bool, rest: seq<Item>, st: Setting)
    ensures var m := SemAction(env, fuel, act, v, st);
            Final(m) && Visit(env, fuel, CompileAction(act) + rest, After(v), Compiled(st)) == Then(env, fuel, m, rest)
    decreases fuel, 1, act, 0
  {
    hide SemChange, SemCondition, CompileCondition, CompileChange, Compiled, Visit;
    match act
    case Changing(a) => RunChange(env, fuel, a, v, rest, st);
    case Testing(c) => RunCondition(env, fuel, c, v, rest, st);
  }

  /** The end of a block. */
  lemma {:induction false} Ends(env: Env, fuel: nat, f: Flow, code: seq<Item>)
    ensures Then(env, fuel, f, []) == Ended(f) && code + [] == code
  {
    hide Compiled;
  }

  /** A whole block. */
  lemma {:induction false} RunBody(env: Env, fuel: nat, b: Body, st: Setting)
    ensures var m := SemBody(env, fuel, b, st);
            Final(m) && Visit(env, fuel, CompileBody(b), After(true), Compiled(st)) == Ended(m)
    decreases fuel, 1, b, 1
  {
    hide SemProgram, SemAction, SemStmt, CompileProgram, CompileAction, CompileStmt, Compiled, Visit, Then, Ended;
    Ends(env, fuel, SemBody(env, fuel, b, st), CompileBody(b));
    match b
    case Braces(p) => RunProgram(env, fuel, p, true, [], st);
    case Inline(p, act) =>
      assert CompileBody(b) == CompileProgram(p) + (CompileAction(act) + []);
      var f := SemProgram(env, fuel, p, true, st);
      RunProgram(env, fuel, p, true, CompileAction(act) + [], st);
      if f.Goes? {
        RunAction(env, fuel, act, f.v, [], f.st);
      }
      InlineThen(env, fuel, f, act);
    case OneLine(act) => RunAction(env, fuel, act, true, [], st);
    case Embedded(s) => RunStmt(env, fuel, s, true, [], st);
  }

  lemma {:induction false} InlineThen(env: Env, fuel: nat, f: Flow, act: Action)
    requires f.Goes? ==>
      Visit(env, fuel, CompileAction(act) + [], After(f.v), Compiled(f.st)) == Then(env, fuel, SemAction(env, fuel, act, f.v, f.st), [])
    ensures Then(env, fuel, f, CompileAction(act) + []) ==
            Then(env, fuel, if f.Goes? then SemAction(env, fuel, act, f.v, f.st) else f, [])
  {
    hide Visit, SemAction, CompileAction, Compiled;
  }

  lemma {:induction false} RunElse(env: Env, fuel: nat, i: Choice, st: Setting)
    ensures var m := match i.els
                     case Nothing => Goes(true, st)
                     case Do(b) => Settled(SemBody(env, fuel, b, st))
                     case Elif(j) => Settled(SemChoice(env, fuel, j, st));
            var r := VisitBlock(env, fuel, CompileElse(i.els), Compiled(st));
            Final(m) && r.st == Compiled(m.st) && (if r.ret.Plain() then m.Goes? && m.v else m.Stops? && m.ret == r.ret)
    decreases fuel, 1, i, 0
  {
    hide SemBody, SemChoice, CompileBody, CompileChoice, Compiled, Visit;
    match i.els
    case Nothing =>
    case Do(b) => RunBody(env, fuel, b, st);
    case Elif(j) =>
      RunChoice(env, fuel, j, true, [], st);
      Ends(env, fuel, SemChoice(env, fuel, j, st), CompileChoice(j));
  }

  lemma {:induction false} RunThen(env: Env, fuel: nat, i: Choice, st: Setting)
    ensures var m := if i.thn.None? then Goes(true, st) else Settled(SemBody(env, fuel, i.thn.value, st));
            var r := VisitBlock(env, fuel, CompileThen(i.thn), Compiled(st));
            Final(m) && r.st == Compiled(m.st) && (if r.ret.Plain() then m.Goes? && m.v else m.Stops? && m.ret == r.ret)
    decreases fuel, 1, i, 0
  {
    hide SemBody, CompileBody, Compiled, Visit;
    if i.thn.Some? {
      RunBody(env, fuel, i.thn.value, st);
    }
  }

  lemma {:induction false} RunChoice(env: Env, fuel: nat, i: Choice, v: bool, rest: seq<Item>, st: Setting)
    ensures var m := SemChoice(env, fuel, i, st);
            Final(m) && Visit(env, fuel, CompileChoice(i) + rest, After(v), Compiled(st)) == Then(env, fuel, m, rest)
    decreases fuel, 1, i, 1
  {
    var b := Branch(CompileThen(i.thn), CompileElse(i.els));
    assert CompileChoice(i) + rest == CompileCondition(i.c) + ([b] + rest);
    RunCondition(env, fuel, i.c, v, [b] + rest, st);
    var f := SemCondition(env, fuel, i.c, st);
    if f.Goes? {
      VisitCons(env, fuel, b, rest, After(f.v), Compiled(f.st));
      if f.v {
        RunThen(env, fuel, i, f.st);
      } else {
        RunElse(env, fuel, i, f.st);
      }
    }
    hide SemBody, SemCondition, CompileBody, CompileChoice, CompileThen, CompileElse, VisitBlock, Visit, Compiled;
  }

  lemma {:induction false} RunIterate(env: Env, fuel: nat, name: Str, endless: bool, list: seq<Str>, index: nat,
                                      body: Body, v: bool, st: Setting)
    requires endless ==> index <= MAX_ITERATIONS
    ensures var m := SemIterate(env, fuel, name, endless, list, index, body, v, st);
            Final(m) && Iterate(env, fuel, name, endless, list, index, CompileBody(body), Bool(v), Compiled(st)) == Ended(m)
    decreases fuel, 1, body, 2, if endless then MAX_ITERATIONS - index else |list| - index
  {
    hide Visit, SemBody, CompileBody, BindLoopVar, CompileDefs;
    var st1 := st.(stack := BindLoopVar(st.stack, name, endless, list, index));
    if (if endless then index == MAX_ITERATIONS else index >= |list|) {
    } else if !endless && list[index] == [] {
      RunIterate(env, fuel, name, endless, list, index + 1, body, v, st1);
    } else {
      RunBody(env, fuel, body, st1);
      var f := SemBody(env, fuel, body, st1);
      if f.Goes? {
        RunIterate(env, fuel, name, endless, list, index + 1, body, f.v, f.st);
      } else if f.ret.RNext? {
        RunIterate(env, fuel, name, endless, list, index + 1, body, true, f.st);
      }
    }
  }

  lemma {:induction false} RunLoop(env: Env, fuel: nat, name: HStr, list: Expr, body: Body, st: Setting)
    ensures var m := SemLoop(env, fuel, name, list, body, st);
            Final(m) && Semantics.Loop(env, fuel, name, list, CompileBody(body), Compiled(st)) == Ended(m)
    decreases fuel, 1, Stmt.Loop(name, list, body), 0
  {
    hide Iterate, SemIterate, Words, SemWords, CompileBody, CompileDefs, Values, Range, SetTop;
    WordsMean(env, fuel, list, st, true);
    var o := SemWords(env, fuel, list, st, true);
    var word := Last(o.v);
    if !o.ret.Fatal() && (name.s != [] || word == EVER) {
      var key := if name.s == [] then FOREVER else word;
      var variable := if name.s == [] then [] else env.alias(name.s);
      var bound := Values(o.st.stack, key);
      RunIterate(env, fuel, variable, bound == [] && key == FOREVER, if bound == [] then Range(env, key) else bound, 0,
                 body, true, o.st);
    }
  }

  lemma {:induction false} RunGlobally(env: Env, fuel: nat, body: Body, st: Setting)
    ensures var m := SemGlobally(env, fuel, body, st);
            Final(m) && VisitGlobally(env, fuel, CompileBody(body), Compiled(st)) == Ended(m)
    decreases fuel, 1, body, 3
  {
    hide Visit, SemBody, CompileBody, CompileDefs;
    RunBody(env, fuel, body, st.(stack := [st.stack[0]]));
  }

  lemma {:induction false} DefineMeans(isTest: bool, name: Str, body: Body, st: Setting)
    ensures Define(isTest, name, CompileBody(body), Compiled(st)) == Compiled(SemDefine(isTest, name, body, st))
  {
    hide CompileBody;
    var defs := if isTest then st.tests else st.expansions;
    assert CompileDefs(defs)[name := CompileBody(body)] == CompileDefs(defs[name := body]);
  }

  /** A definition or a block that is live under the flags. */
  lemma {:induction false} RunScoped(env: Env, fuel: nat, d: Scoped, f: Flags, rest: seq<Item>, st: Setting)
    requires !f.invert && f.Live()
    ensures var m := SemScoped(env, fuel, d, st);
            Final(m) && Visit(env, fuel, [CompileScoped(d)] + rest, f, Compiled(st)) == Then(env, fuel, m, rest)
    decreases fuel, 1, d, 0
  {
    hide SemGlobally, VisitGlobally, CompileBody, Compiled, Visit, Define;
    VisitCons(env, fuel, CompileScoped(d), rest, f, Compiled(st));
    match d
    case Function(isTest, name, body) => DefineMeans(isTest, name.s, body, st);
    case Globally(body) => RunGlobally(env, fuel, body, st);
  }

  /** Behind tests, under the operator that joins it to them. */
  lemma {:induction false} RunGuarded(env: Env, fuel: nat, or: bool, f: Flow, d: Scoped, rest: seq<Item>)
    requires Final(f)
    ensures var m := if f.Stops? then f else if f.v != or then SemScoped(env, fuel, d, f.st) else Goes(true, f.st);
            Final(m) &&
            Then(env, fuel, f, [if or then Or else And] + ([CompileScoped(d)] + rest)) == Then(env, fuel, m, rest)
    decreases fuel, 1, d, 1
  {
    if f.Goes? {
      VisitCons(env, fuel, if or then Or else And, [CompileScoped(d)] + rest, After(f.v), Compiled(f.st));
      var g := After(f.v).(orOp := or);
      if f.v != or {
        RunScoped(env, fuel, d, g, rest, f.st);
      } else {
        VisitCons(env, fuel, CompileScoped(d), rest, g, Compiled(f.st));
      }
      hide SemScoped, CompileBody, Compiled, Visit, VisitGlobally, Define;
    }
  }

  lemma {:induction false} RunStmt(env: Env, fuel: nat, s: Stmt, v: bool, rest: seq<Item>, st: Setting)
    ensures var m := SemStmt(env, fuel, s, v, st);
            Final(m) && Visit(env, fuel, CompileStmt(s) + rest, After(v), Compiled(st)) == Then(env, fuel, m, rest)
    decreases fuel, 1, s, 1
  {
    hide SemAction, SemChoice, SemLoop, SemScoped, SemCondition, Semantics.Loop, CompileBody, CompileAction, CompileChoice;
    hide CompileScoped, CompileCondition, Compiled, Visit;
    match s
    case Blank => assert [] + rest == rest;
    case Single(act) => RunAction(env, fuel, act, v, rest, st);
    case If(i) => RunChoice(env, fuel, i, v, rest, st);
    case Loop(name, list, body) =>
      RunLoop(env, fuel, name, list, body, st);
      VisitCons(env, fuel, For(name, list, CompileBody(body)), rest, After(v), Compiled(st));
    case Own(d) => RunOwn(env, fuel, d, v, rest, st);
    case Guarded(c, or, d) =>
      var op := if or then Or else And;
      assert CompileCondition(c) + [op, CompileScoped(d)] + rest == CompileCondition(c) + ([op] + ([CompileScoped(d)] + rest));
      RunCondition(env, fuel, c, v, [op] + ([CompileScoped(d)] + rest), st);
      RunGuarded(env, fuel, or, SemCondition(env, fuel, c, st), d, rest);
  }

  /** At the beginning of a statement it is live, whatever came before. */
  lemma {:induction false} RunOwn(env: Env, fuel: nat, d: Scoped, v: bool, rest: seq<Item>, st: Setting)
    ensures var m := SemScoped(env, fuel, d, st);
            Final(m) && Visit(env, fuel, [CompileScoped(d)] + rest, After(v), Compiled(st)) == Then(env, fuel, m, rest)
    decreases fuel, 1, d, 1
  {
    RunScoped(env, fuel, d, After(v), rest, st);
    hide SemScoped, CompileScoped, Compiled, Visit;
  }

  lemma {:induction false} RunProgram(env: Env, fuel: nat, p: seq<Stmt>, v: bool, rest: seq<Item>, st: Setting)
    ensures var m := SemProgram(env, fuel, p, v, st);
            Final(m) && Visit(env, fuel, CompileProgram(p) + rest, After(v), Compiled(st)) == Then(env, fuel, m, rest)
    decreases fuel, 1, p, 0
  {
    if p == [] {
      assert CompileProgram(p) + rest == rest;
    } else {
      var tail := CompileProgram(p[1..]) + rest;
      assert CompileProgram(p) + rest == CompileStmt(p[0]) + tail;
      RunStmt(env, fuel, p[0], v, tail, st);
      var f := SemStmt(env, fuel, p[0], v, st);
      if f.Goes? {
        RunProgram(env, fuel, p[1..], f.v, rest, f.st);
      }
      hide SemStmt, CompileStmt, Visit, Compiled;
    }
  }

  /** The flag machine over a program's items, and over those of the functions it calls, computes its meaning. */
  lemma {:induction false} CompiledMeans(env: Env, fuel: nat, p: seq<Stmt>, st: Setting)
    ensures Visit(env, fuel, CompileProgram(p), Flags(true, false, false), Compiled(st))
         == Ended(SemProgram(env, fuel, p, true, st))
  {
    hide SemProgram, CompileProgram, Visit, Compiled;
    RunProgram(env, fuel, p, true, [], st);
    Ends(env, fuel, SemProgram(env, fuel, p, true, st), CompileProgram(p));
  }
}
