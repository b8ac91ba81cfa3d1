// Structured programs: what they mean, read directly, and the items they compile to.
module Structured {
  import opened Tokens
  import opened ValueStack
  import opened Semantics

  datatype Jump = Leave | Again | Give(value: Expr)

  /** A test, negated or not, or a jump. */
  datatype Operand = Check(neg: bool, x: Expr) | Invoke(neg: bool, x: Expr, args: seq<Expr>) | Go(jump: Jump)

  /** Tests joined by ':' and '|', left to right and with equal precedence. */
  datatype Condition = One(o: Operand) | Both(c: Condition, o: Operand) | Either(c: Condition, o: Operand)

  datatype Change = Change(lhs: Expr, op: AssignOp, hint: u16, rhs: Expr)

  /** What stands on a line of its own, or on the line of what it is the body of. */
  datatype Action = Changing(a: Change) | Testing(c: Condition)

  /** Braces around statements, the last of which may share its line with the closing brace; or one action, or another
      statement, on the line of what it is the body of. */
  datatype Body = Braces(p: seq<Stmt>) | Inline(p: seq<Stmt>, act: Action) | OneLine(act: Action) | Embedded(s: Stmt)

  /** Tests with a then body, or on a line of their own. With `nextLine` a line ends in front of the else. */
  datatype Choice = Choice(c: Condition, thn: Option<Body>, nextLine: bool, els: Otherwise)

  datatype Otherwise = Nothing | Do(b: Body) | Elif(i: Choice)

  datatype Stmt =
    | Blank
    | Single(act: Action)
    | If(i: Choice)
    | Loop(name: HStr, list: Expr, body: Body)
    | Own(d: Scoped)
    | Guarded(c: Condition, or: bool, d: Scoped)

  /** A function definition, or a bypassNesting block. It may stand behind tests, as one more operand. */
  datatype Scoped = Function(isTest: bool, name: HStr, body: Body) | Globally(body: Body)

  // ----- the meaning ------------------------------------------------------------

  /** The state of a program that is read directly: the functions defined are bodies. */
  datatype Setting = Setting(
    stack: Stack,
    tests: map<Str, Body>,
    expansions: map<Str, Body>,
    returnValue: seq<Str>,
    log: seq<Event>)

  /** A statement goes on with a truth value, or stops the block. */
  datatype Flow = Goes(v: bool, st: Setting) | Stops(ret: Ret, st: Setting)

  /** What evaluating an expression or a call comes out as. */
  datatype Got<T> = Got(ret: Ret, st: Setting, v: T)

  datatype Said = Said(ret: Ret, st: Setting)

  function JumpRet(j: Jump): Ret {
    match j
    case Leave => RBreak
    case Again => RNext
    case Give(_) => RReturn
  }

  function SemElems(env: Env, fuel: nat, es: seq<Elem>, st: Setting, a: Acc, joined: bool): Got<Acc>
    decreases fuel, 1, es, 0
  {
    if es == [] then Got(RTrue, st, a)
    else
      var o := SemElement(env, fuel, es[0], st, a, joined);
      if o.ret.Fatal() then o else SemElems(env, fuel, es[1..], o.st, o.v, joined)
  }

  function SemElement(env: Env, fuel: nat, e: Elem, st: Setting, a: Acc, joined: bool): Got<Acc>
    decreases fuel, 1, e, 0
  {
    var b := if e.ELine? || !e.newStr then a else a.(pending := false);
    if e.Fn? then
      var o := SemExpand(env, fuel, e.h.s, e.args, st);
      Got(if o.ret.Fatal() then o.ret else RTrue, o.st, AddList(b, o.v, e.quoted, joined))
    else Got(RTrue, st, Simple(env, e, st.stack, b, joined))
  }

  /** The words of an expression. */
  function SemWords(env: Env, fuel: nat, x: Expr, st: Setting, joined: bool): Got<seq<Str>>
    decreases fuel, 1, x, 1
  {
    var o := SemElems(env, fuel, x.elems, st, Acc(if joined then [[]] else [], false), joined);
    Got(o.ret, o.st, o.v.ret)
  }

  /** The arguments of a built-in function, one word each. */
  function SemJoined(env: Env, fuel: nat, args: seq<Expr>, st: Setting, acc: seq<Str>): Got<seq<Str>>
    decreases fuel, 1, args, 0
  {
    if args == [] then Got(RTrue, st, acc)
    else
      var o := SemWords(env, fuel, args[0], st, true);
      if o.ret.Fatal() then Got(o.ret, o.st, acc) else SemJoined(env, fuel, args[1..], o.st, acc + o.v)
  }

  /** No argument is one empty word. */
  function SemArgs(env: Env, fuel: nat, args: seq<Expr>, st: Setting): Got<seq<Str>>
    decreases fuel, 1, args, 1
  {
    if args == [] then Got(RTrue, st, [[]]) else SemJoined(env, fuel, args, st, [])
  }

  /** The arguments of a defined function, one list each. */
  function SemLists(env: Env, fuel: nat, args: seq<Expr>, st: Setting, acc: seq<seq<Str>>): Got<seq<seq<Str>>>
    decreases fuel, 1, args, 0
  {
    if args == [] then Got(RTrue, st, acc)
    else
      var o := SemWords(env, fuel, args[0], st, false);
      if o.ret.Fatal() then Got(o.ret, o.st, acc) else SemLists(env, fuel, args[1..], o.st, acc + [o.v])
  }

  /** Calling a function: its body, in a frame of its own, up to its return. */
  function SemCall(env: Env, fuel: nat, b: Body, args: seq<seq<Str>>, st: Setting): Got<seq<Str>>
    decreases fuel, 0
  {
    if |st.stack| >= MAX_DEPTH then Got(RError, st, [])
    else if fuel == 0 then Got(ROverflow, st, [])
    else
      var f := SemBody(env, fuel - 1, b, st.(stack := Push(st.stack, ArgFrame(args))));
      var left := f.st.(stack := Pop(f.st.stack), returnValue := []);
      if f.Goes? then Got(Bool(f.v), left, if f.v then f.st.returnValue else [])
      else if f.ret.RReturn? then Got(RTrue, left, f.st.returnValue)
      else Got(f.ret, left, [])
  }

  /** A replace function in an expression: built-in, defined, or unknown. */
  function SemExpand(env: Env, fuel: nat, name: Str, args: seq<Expr>, st: Setting): Got<seq<Str>>
    decreases fuel, 1, args, 2
  {
    if env.isExpand(name) then
      var o := SemArgs(env, fuel, args, st);
      if o.ret.Fatal() then Got(o.ret, o.st, [])
      else
        var v := env.expand(name, o.v, o.st.stack);
        if v.None? then Got(RError, o.st, []) else Got(RTrue, o.st, v.value)
    else if name in st.expansions then
      var o := SemLists(env, fuel, args, st, []);
      if o.ret.Fatal() then Got(o.ret, o.st, []) else SemCall(env, fuel, st.expansions[name], o.v, o.st)
    else Got(RFalse, st, [])
  }

  /** A test function: built-in, defined, or unknown. */
  function SemTest(env: Env, fuel: nat, name: Str, args: seq<Expr>, st: Setting): Said
    decreases fuel, 1, args, 2
  {
    if IsTest(env, name) then
      var o := SemArgs(env, fuel, args, st);
      if o.ret.Fatal() then Said(o.ret, o.st)
      else
        var b := BuiltinEffect(env, name, o.v, o.st.stack);
        Said(b.ret, o.st.(stack := b.stack, log := o.st.log + [Builtin(name, o.v)]))
    else if name in st.tests then
      var o := SemLists(env, fuel, args, st, []);
      if o.ret.Fatal() then Said(o.ret, o.st)
      else
        var c := SemCall(env, fuel, st.tests[name], o.v, o.st.(log := o.st.log + [User(name, o.v)]));
        Said(TruthOf(env, c.ret, c.v), c.st)
    else Said(RFalse, st.(log := st.log + [Unknown(name)]))
  }

  /** A test that is evaluated. */
  function SemOperand(env: Env, fuel: nat, o: Operand, st: Setting): Flow
    decreases fuel, 1, o, 0
  {
    match o
    case Check(neg, x) =>
      var w := SemWords(env, fuel, x, st, false);
      if w.ret.Fatal() then Stops(w.ret, w.st)
      else if |w.v| != 1 then Goes(false, w.st)
      else Goes(env.active(w.v[0], w.st.stack) != neg, w.st.(log := w.st.log + [Tested(w.v[0])]))
    case Invoke(neg, x, args) =>
      var w := SemWords(env, fuel, x, st, false);
      if w.ret.Fatal() then Stops(w.ret, w.st)
      else if |w.v| != 1 then Goes(false, w.st)
      else
        var r := SemTest(env, fuel, w.v[0], args, w.st);
        if r.ret.Plain() then Goes(r.ret.RTrue? != neg, r.st) else Stops(r.ret, r.st)
    case Go(Give(x)) =>
      var w := SemWords(env, fuel, x, st, false);
      if w.ret.Fatal() then Stops(w.ret, w.st) else Stops(RReturn, w.st.(returnValue := w.v))
    case Go(j) => Stops(JumpRet(j), st)
  }

  /** A test short-circuited away while the truth value is `v`: its words are expanded all the same, a skipped
      return has set the return value, and a skipped jump counts as a failed test. */
  function Skip(env: Env, fuel: nat, o: Operand, v: bool, st: Setting): Flow
    decreases fuel, 1, o, 0
  {
    match o
    case Check(_, x) =>
      var w := SemWords(env, fuel, x, st, false);
      if w.ret.Fatal() then Stops(w.ret, w.st) else Goes(v, w.st)
    case Invoke(_, x, _) =>
      var w := SemWords(env, fuel, x, st, false);
      if w.ret.Fatal() then Stops(w.ret, w.st) else Goes(v, w.st)
    case Go(Give(x)) =>
      var w := SemWords(env, fuel, x, st, false);
      if w.ret.Fatal() then Stops(w.ret, w.st) else Goes(false, w.st.(returnValue := w.v))
    case Go(_) => Goes(false, st)
  }

  function SemCondition(env: Env, fuel: nat, c: Condition, st: Setting): Flow
    decreases fuel, 1, c, 0
  {
    match c
    case One(o) => SemOperand(env, fuel, o, st)
    case Both(d, o) =>
      var f := SemCondition(env, fuel, d, st);
      if f.Stops? then f
      else if f.v then SemOperand(env, fuel, o, f.st) else Skip(env, fuel, o, f.v, f.st)
    case Either(d, o) =>
      var f := SemCondition(env, fuel, d, st);
      if f.Stops? then f
      else if f.v then Skip(env, fuel, o, f.v, f.st) else SemOperand(env, fuel, o, f.st)
  }

  /** An assignment leaves the truth value as it was. */
  function SemChange(env: Env, fuel: nat, a: Change, v: bool, st: Setting): Flow
    decreases fuel, 1, a, 0
  {
    var w := SemWords(env, fuel, a.lhs, st, false);
    if w.ret.Fatal() then Stops(w.ret, w.st) else SemAssign(env, fuel, w.v, a, v, w.st)
  }

  /** Unless one name stands on the left, nothing is assigned. */
  function SemAssign(env: Env, fuel: nat, lhs: seq<Str>, a: Change, v: bool, st: Setting): Flow
    decreases fuel, 1, a.rhs, 2
  {
    if |lhs| != 1 then Goes(v, st)
    else
      var o := SemWords(env, fuel, a.rhs, st, a.op.Replace?);
      if o.ret.Fatal() then Stops(o.ret, o.st)
      else Goes(v, o.st.(stack := AssignTo(env, env.alias(lhs[0]), a.op, o.v, o.st.stack)))
  }

  function SemAction(env: Env, fuel: nat, act: Action, v: bool, st: Setting): Flow
    decreases fuel, 1, act, 0
  {
    match act
    case Changing(a) => SemChange(env, fuel, a, v, st)
    case Testing(c) => SemCondition(env, fuel, c, st)
  }

  /** Blocks and loops leave the truth value true. */
  function Settled(f: Flow): Flow { if f.Goes? then Goes(true, f.st) else f }

  function SemBody(env: Env, fuel: nat, b: Body, st: Setting): Flow
    decreases fuel, 1, b, 1
  {
    match b
    case Braces(p) => SemProgram(env, fuel, p, true, st)
    case Inline(p, act) =>
      var f := SemProgram(env, fuel, p, true, st);
      if f.Goes? then SemAction(env, fuel, act, f.v, f.st) else f
    case OneLine(act) => SemAction(env, fuel, act, true, st)
    case Embedded(s) => SemStmt(env, fuel, s, true, st)
  }

  function SemChoice(env: Env, fuel: nat, i: Choice, st: Setting): Flow
    decreases fuel, 1, i, 1
  {
    var f := SemCondition(env, fuel, i.c, st);
    if f.Stops? then f
    else if f.v then (if i.thn.None? then f else Settled(SemBody(env, fuel, i.thn.value, f.st)))
    else
      match i.els
      case Nothing => Goes(true, f.st)
      case Do(b) => Settled(SemBody(env, fuel, b, f.st))
      case Elif(j) => Settled(SemChoice(env, fuel, j, f.st))
  }

  function SemIterate(env: Env, fuel: nat, name: Str, endless: bool, list: seq<Str>, index: nat, body: Body,
                      v: bool, st: Setting): Flow
    requires endless ==> index <= MAX_ITERATIONS
    decreases fuel, 1, body, 2, if endless then MAX_ITERATIONS - index else |list| - index
  {
    var st1 := st.(stack := BindLoopVar(st.stack, name, endless, list, index));
    if endless && index == MAX_ITERATIONS then Goes(v, st1)
    else if !endless && index >= |list| then Goes(v, st1)
    else if !endless && list[index] == [] then SemIterate(env, fuel, name, endless, list, index + 1, body, v, st1)
    else
      var f := SemBody(env, fuel, body, st1);
      if f.Goes? then SemIterate(env, fuel, name, endless, list, index + 1, body, f.v, f.st)
      else if f.ret.RNext? then SemIterate(env, fuel, name, endless, list, index + 1, body, true, f.st)
      else if f.ret.RBreak? then Goes(true, f.st)
      else f
  }

  function SemLoop(env: Env, fuel: nat, name: HStr, list: Expr, body: Body, st: Setting): Flow
    decreases fuel, 1, Stmt.Loop(name, list, body), 0
  {
    var o := SemWords(env, fuel, list, st, true);
    if o.ret.Fatal() then Stops(o.ret, o.st)
    else
      var word := Last(o.v);
      if name.s == [] && word != EVER then Goes(false, o.st)
      else
        var key := if name.s == [] then FOREVER else word;
        var variable := if name.s == [] then [] else env.alias(name.s);
        var was := Values(o.st.stack, variable);
        var bound := Values(o.st.stack, key);
        var endless := bound == [] && key == FOREVER;
        var f := SemIterate(env, fuel, variable, endless, if bound == [] then Range(env, key) else bound, 0, body,
                            true, o.st);
        if variable == [] then f else f.(st := f.st.(stack := SetTop(f.st.stack, variable, Vals(was))))
  }

  /** A bypassNesting block sees the global frame only. */
  function SemGlobally(env: Env, fuel: nat, body: Body, st: Setting): Flow
    decreases fuel, 1, body, 3
  {
    var f := SemBody(env, fuel, body, st.(stack := [st.stack[0]]));
    f.(st := f.st.(stack := [f.st.stack[0]] + st.stack[1..]))
  }

  function SemDefine(isTest: bool, name: Str, body: Body, st: Setting): Setting {
    if isTest then st.(tests := st.tests[name := body]) else st.(expansions := st.expansions[name := body])
  }

  function SemScoped(env: Env, fuel: nat, d: Scoped, st: Setting): Flow
    decreases fuel, 1, d, 0
  {
    match d
    case Function(isTest, name, body) => Goes(true, SemDefine(isTest, name.s, body, st))
    case Globally(body) => Settled(SemGlobally(env, fuel, body, st))
  }

  function SemStmt(env: Env, fuel: nat, s: Stmt, v: bool, st: Setting): Flow
    decreases fuel, 1, s, 1
  {
    match s
    case Blank => Goes(v, st)
    case Single(act) => SemAction(env, fuel, act, v, st)
    case If(i) => SemChoice(env, fuel, i, st)
    case Loop(name, list, body) => Settled(SemLoop(env, fuel, name, list, body, st))
    case Own(d) => SemScoped(env, fuel, d, st)
    case Guarded(c, or, d) =>
      var f := SemCondition(env, fuel, c, st);
      if f.Stops? then f else if f.v != or then SemScoped(env, fuel, d, f.st) else Goes(true, f.st)
  }

  function SemProgram(env: Env, fuel: nat, p: seq<Stmt>, v: bool, st: Setting): Flow
    decreases fuel, 1, p, 0
  {
    if p == [] then Goes(v, st)
    else
      var f := SemStmt(env, fuel, p[0], v, st);
      if f.Goes? then SemProgram(env, fuel, p[1..], f.v, f.st) else f
  }

  // ----- the items a program compiles to ------------------------------------------

  /** The item of a test, without its negation. */
  function OperandItem(o: Operand): Item {
    match o
    case Check(_, x) => Cond(x)
    case Invoke(_, x, args) => Call(x, args)
    case Go(Leave) => Break
    case Go(Again) => Next
    case Go(Give(x)) => Return(x)
  }

  predicate IsNegated(o: Operand) { !o.Go? && o.neg }

  function CompileOperand(o: Operand): seq<Item> {
    match o
    case Check(neg, x) => (if neg then [Not] else []) + [Cond(x)]
    case Invoke(neg, x, args) => (if neg then [Not] else []) + [Call(x, args)]
    case Go(Leave) => [Break]
    case Go(Again) => [Next]
    case Go(Give(x)) => [Return(x)]
  }

  function CompileCondition(c: Condition): seq<Item> {
    match c
    case One(o) => CompileOperand(o)
    case Both(d, o) => CompileCondition(d) + [And] + CompileOperand(o)
    case Either(d, o) => CompileCondition(d) + [Or] + CompileOperand(o)
  }

  function CompileChange(a: Change): Item { Assign(a.lhs, a.op, a.hint, a.rhs) }

  function CompileAction(act: Action): seq<Item> {
    match act
    case Changing(a) => [CompileChange(a)]
    case Testing(c) => CompileCondition(c)
  }

  function CompileBody(b: Body): seq<Item>
    decreases b, 1
  {
    match b
    case Braces(p) => CompileProgram(p)
    case Inline(p, act) => CompileProgram(p) + CompileAction(act)
    case OneLine(act) => CompileAction(act)
    case Embedded(s) => CompileStmt(s)
  }

  function CompileThen(b: Option<Body>): Block
    decreases b, 1
  {
    if b.None? then NoBlock else Block.Block(CompileBody(b.value))
  }

  function CompileElse(e: Otherwise): Block
    decreases e, 1
  {
    match e
    case Nothing => NoBlock
    case Do(b) => Block.Block(CompileBody(b))
    case Elif(i) => Block.Block(CompileChoice(i))
  }

  function CompileChoice(i: Choice): seq<Item>
    decreases i, 1
  {
    CompileCondition(i.c) + [Branch(CompileThen(i.thn), CompileElse(i.els))]
  }

  function CompileScoped(d: Scoped): Item
    decreases d, 0
  {
    match d
    case Function(isTest, name, body) => Def(isTest, name, CompileBody(body))
    case Globally(body) => Bypass(CompileBody(body))
  }

  function CompileStmt(s: Stmt): seq<Item>
    decreases s, 0
  {
    match s
    case Blank => []
    case Single(act) => CompileAction(act)
    case If(i) => CompileChoice(i)
    case Loop(name, list, body) => [For(name, list, CompileBody(body))]
    case Own(d) => [CompileScoped(d)]
    case Guarded(c, or, d) => CompileCondition(c) + [if or then Or else And, CompileScoped(d)]
  }

  function CompileProgram(p: seq<Stmt>): seq<Item>
    decreases p, 0
  {
    if p == [] then [] else CompileStmt(p[0]) + CompileProgram(p[1..])
  }
}
