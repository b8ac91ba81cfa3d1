// What evaluating a compiled program means, over the tree of its token stream.
module Semantics {
  import opened Tokens
  import opened Stream
  import opened ValueStack

  /** VisitReturn. `ROverflow` is the model's own: the call budget was used up. */
  datatype Ret = RFalse | RTrue | RError | RBreak | RNext | RReturn | ROverflow {
    /** ReturnError and the model's own overflow end every evaluation. */
    predicate Fatal() { RError? || ROverflow? }
    predicate Plain() { RFalse? || RTrue? }
  }

  function Bool(b: bool): Ret { if b then RTrue else RFalse }

  datatype BuiltinTest = BuiltinTest(result: Option<bool>, sets: map<Str, seq<Str>>)

  /** What the evaluator gets from elsewhere. A result of None is an error. */
  datatype Env = Env(
    alias: Str -> Str,
    property: Str -> Str,
    environ: Str -> Str,
    isExpand: Str -> bool,
    expand: (Str, seq<Str>, seq<Frame>) -> Option<seq<Str>>,
    isTest: Str -> bool,
    test: (Str, seq<Str>, seq<Frame>) -> BuiltinTest,
    active: (Str, seq<Frame>) -> bool,
    toInt: Str -> Option<int>,
    substitute: (Str, seq<Str>) -> Option<seq<Str>>,
    hook: (Str, seq<Str>) -> seq<Str>)

  datatype Event =
    | Tested(cond: Str)
    | Builtin(name: Str, args: seq<Str>)
    | User(name: Str, lists: seq<seq<Str>>)
    | Unknown(name: Str)

  /** Evaluator state. `log` is the sequence of tests evaluated so far. */
  datatype State = State(
    stack: Stack,
    testDefs: map<Str, seq<Item>>,
    replaceDefs: map<Str, seq<Item>>,
    returnValue: seq<Str>,
    log: seq<Event>)

  const MAX_DEPTH := 100
  const MAX_ITERATIONS := 1000

  // ----- strings and lists --------------------------------------------------

  const SPACE: Str := [32]

  function JoinSpaced(l: seq<Str>): Str {
    if l == [] then [] else if |l| == 1 then l[0] else l[0] + SPACE + JoinSpaced(l[1..])
  }

  function RemoveEmpty(l: seq<Str>): (r: seq<Str>)
    ensures forall s :: s in r <==> s in l && s != []
  {
    if l == [] then [] else (if l[0] == [] then [] else [l[0]]) + RemoveEmpty(l[1..])
  }

  function RemoveAll(l: seq<Str>, x: Str): (r: seq<Str>)
    ensures forall s :: s in r <==> s in l && s != x
  {
    if l == [] then [] else (if l[0] == x then [] else [l[0]]) + RemoveAll(l[1..], x)
  }

  function RemoveEach(l: seq<Str>, xs: seq<Str>): seq<Str>
    decreases xs
  {
    if xs == [] then l
    else RemoveEach(if xs[0] == [] then l else RemoveAll(l, xs[0]), xs[1..])
  }

  function InsertUnique(l: seq<Str>, xs: seq<Str>): seq<Str>
    decreases xs
  {
    if xs == [] then l
    else InsertUnique(if xs[0] == [] || xs[0] in l then l else l + [xs[0]], xs[1..])
  }

  /** A list under construction; `pending` says whether its last word is still open. */
  datatype Acc = Acc(ret: seq<Str>, pending: bool)

  function Last(ret: seq<Str>): Str { if ret == [] then [] else ret[|ret| - 1] }

  function SetLast(ret: seq<Str>, s: Str): seq<Str> {
    if ret == [] then [s] else ret[|ret| - 1 := s]
  }

  function AddStr(a: Acc, s: Str, joined: bool): Acc {
    if joined then
      if s == [] then a
      else if Last(a.ret) == [] then Acc(SetLast(a.ret, s), true)
      else Acc(SetLast(a.ret, Last(a.ret) + (if a.pending then [] else SPACE) + s), true)
    else if !a.pending then Acc(a.ret + [s], true)
    else Acc(SetLast(a.ret, Last(a.ret) + s), true)
  }

  function AddList(a: Acc, l: seq<Str>, quoted: bool, joined: bool): Acc {
    if l == [] then a
    else if joined then
      var eat := !a.pending && !quoted && l[0] == [];
      if eat && |l| == 1 then a
      else
        var rest := if eat then l[1..] else l;
        var last := Last(a.ret);
        if last == [] && |rest| == 1 then Acc(SetLast(a.ret, rest[0]), true)
        else Acc(SetLast(a.ret, last + (if !a.pending && last != [] then SPACE else []) + JoinSpaced(rest)), true)
    else if quoted then
      var ret := if a.pending then a.ret else a.ret + [[]];
      Acc(SetLast(ret, Last(ret) + JoinSpaced(l)), true)
    else if a.pending then Acc(SetLast(a.ret, Last(a.ret) + l[0]) + l[1..], true)
    else if l[0] != [] then Acc(a.ret + l, true)
    else Acc(a.ret + l[1..], |l| > 1)
  }

  function Digits(n: nat): Str {
    (if n < 10 then [] else Digits(n / 10)) + [48 + n % 10]
  }

  function Number(i: int): Str {
    if i < 0 then [45] + Digits(-i) else Digits(i)
  }

  /** Index of the first "..", or -1. */
  function FindDots(s: Str): (r: int)
    ensures -1 <= r
    ensures r >= 0 ==> r + 2 <= |s|
  {
    if |s| < 2 then -1
    else if s[0] == 46 && s[1] == 46 then 0
    else var r := FindDots(s[1..]); if r < 0 then -1 else r + 1
  }

  function Counting(from: int, to: int): seq<Str>
    decreases if from <= to then to - from else from - to
  {
    if from == to then [Number(from)]
    else [Number(from)] + Counting(if from < to then from + 1 else from - 1, to)
  }

  /** The list "a..b" stands for; empty if it is not of that form. */
  function Range(env: Env, s: Str): seq<Str> {
    var dots := FindDots(s);
    if dots < 0 then []
    else
      var from, to := env.toInt(s[..dots]), env.toInt(s[dots + 2..]);
      if from.Some? && to.Some? then Counting(from.value, to.value) else []
  }

  // ----- expressions and function calls -------------------------------------

  datatype Result = Result(ret: Ret, st: State)

  datatype Out<T> = Out(ret: Ret, st: State, v: T)

  /** The elements of an expression, added to `a` one after the other. */
  function Elems(env: Env, fuel: nat, es: seq<Elem>, st: State, a: Acc, joined: bool): Out<Acc>
    decreases fuel, 1, es, 0
  {
    if es == [] then Out(RTrue, st, a)
    else
      var o := Element(env, fuel, es[0], st, a, joined);
      if o.ret.Fatal() then o else Elems(env, fuel, es[1..], o.st, o.v, joined)
  }

  function Element(env: Env, fuel: nat, e: Elem, st: State, a: Acc, joined: bool): Out<Acc>
    decreases fuel, 1, e, 0
  {
    var b := if e.ELine? || !e.newStr then a else a.(pending := false);
    if e.Fn? then
      var o := Expand(env, fuel, e.h.s, e.args, st);
      Out(if o.ret.Fatal() then o.ret else RTrue, o.st, AddList(b, o.v, e.quoted, joined))
    else Out(RTrue, st, Simple(env, e, st.stack, b, joined))
  }

  function Simple(env: Env, e: Elem, s: Stack, a: Acc, joined: bool): Acc
    requires !e.Fn?
  {
    match e
    case ELine(_) => a
    case Lit(_, text) => AddStr(a, text, joined)
    case HashLit(_, h) => AddStr(a, h.s, joined)
    case Var(q, _, h) => AddList(a, Values(s, env.alias(h.s)), q, joined)
    case Prop(_, _, h) => AddStr(a, env.property(h.s), joined)
    case EnvVar(_, _, name) => AddStr(a, env.environ(name), joined)
  }

  /** The words of an expression, on a fresh list. */
  function Words(env: Env, fuel: nat, x: Expr, st: State, joined: bool): Out<seq<Str>>
    decreases fuel, 1, x, 1
  {
    var o := Elems(env, fuel, x.elems, st, Acc(if joined then [[]] else [], false), joined);
    Out(o.ret, o.st, o.v.ret)
  }

  /** The arguments of a built-in function: one joined word each. */
  function JoinedArgs(env: Env, fuel: nat, args: seq<Expr>, st: State): Out<seq<Str>>
    decreases fuel, 1, args, 1
  {
    if args == [] then Out(RTrue, st, [[]]) else JoinedArgsFrom(env, fuel, args, st, [])
  }

  function JoinedArgsFrom(env: Env, fuel: nat, args: seq<Expr>, st: State, acc: seq<Str>): Out<seq<Str>>
    decreases fuel, 1, args, 0
  {
    if args == [] then Out(RTrue, st, acc)
    else
      var o := Words(env, fuel, args[0], st, true);
      if o.ret.Fatal() then Out(o.ret, o.st, acc)
      else JoinedArgsFrom(env, fuel, args[1..], o.st, acc + o.v)
  }

  /** The arguments of a user function: one list each. */
  function ListArgs(env: Env, fuel: nat, args: seq<Expr>, st: State, acc: seq<seq<Str>>): Out<seq<seq<Str>>>
    decreases fuel, 1, args, 0
  {
    if args == [] then Out(RTrue, st, acc)
    else
      var o := Words(env, fuel, args[0], st, false);
      if o.ret.Fatal() then Out(o.ret, o.st, acc)
      else ListArgs(env, fuel, args[1..], o.st, acc + [o.v])
  }

  function Flatten(ls: seq<seq<Str>>): seq<Str> {
    if ls == [] then [] else ls[0] + Flatten(ls[1..])
  }

  /** Bindings of the numbered parameters 1..n. */
  function BindParams(args: seq<seq<Str>>, n: nat): Frame
    requires n <= |args|
  {
    if n == 0 then map[] else BindParams(args, n - 1)[Digits(n) := Vals(args[n - 1])]
  }

  /** The frame a user function starts with. */
  function ArgFrame(args: seq<seq<Str>>): Frame {
    BindParams(args, |args|)[U("ARGS") := Vals(Flatten(args))][U("ARGC") := Vals([Digits(|args|)])]
  }

  /** Running a user function; `fuel` bounds how many calls may still be nested. */
  function CallUser(env: Env, fuel: nat, body: seq<Item>, args: seq<seq<Str>>, st: State): Out<seq<Str>>
    decreases fuel, 0
  {
    if |st.stack| >= MAX_DEPTH then Out(RError, st, [])
    else if fuel == 0 then Out(ROverflow, st, [])
    else
      var o := Visit(env, fuel - 1, body, Flags(true, false, false), st.(stack := Push(st.stack, ArgFrame(args))));
      var ret := if o.ret.RReturn? then RTrue else o.ret;
      Out(ret, o.st.(stack := Pop(o.st.stack), returnValue := []), if ret.RTrue? then o.st.returnValue else [])
  }

  /** A replace function in an expression. */
  function Expand(env: Env, fuel: nat, name: Str, args: seq<Expr>, st: State): Out<seq<Str>>
    decreases fuel, 1, args, 2
  {
    if env.isExpand(name) then
      var o := JoinedArgs(env, fuel, args, st);
      if o.ret.Fatal() then Out(o.ret, o.st, [])
      else
        var v := env.expand(name, o.v, o.st.stack);
        if v.None? then Out(RError, o.st, []) else Out(RTrue, o.st, v.value)
    else if name in st.replaceDefs then
      var o := ListArgs(env, fuel, args, st, []);
      if o.ret.Fatal() then Out(o.ret, o.st, [])
      else CallUser(env, fuel, st.replaceDefs[name], o.v, o.st)
    else Out(RFalse, st, [])
  }

  const EXPORT: Str := U("export")
  const UNSET: Str := U("unset")

  predicate IsTest(env: Env, name: Str) {
    name == EXPORT || name == UNSET || env.isTest(name)
  }

  function SetAll(s: Stack, sets: map<Str, seq<Str>>): Stack {
    s[|s| - 1 := Top(s) + map n | n in sets :: Vals(sets[n])]
  }

  /** What a built-in test function says, and the variables after it. */
  datatype Effect = Effect(ret: Ret, stack: Stack)

  function BuiltinEffect(env: Env, name: Str, args: seq<Str>, s: Stack): Effect {
    if name == EXPORT then
      if |args| != 1 then Effect(RFalse, s) else Effect(RTrue, Export(s, env.alias(args[0])))
    else if name == UNSET then
      if |args| != 1 then Effect(RFalse, s)
      else var (found, stack) := Unset(s, env.alias(args[0])); Effect(Bool(found), stack)
    else
      var t := env.test(name, args, s);
      Effect(if t.result.None? then RError else Bool(t.result.value), SetAll(s, t.sets))
  }

  /** A built-in test function on its joined arguments. */
  function BuiltinCall(env: Env, name: Str, args: seq<Str>, st: State): Result {
    var b := BuiltinEffect(env, name, args, st.stack);
    Result(b.ret, st.(stack := b.stack, log := st.log + [Builtin(name, args)]))
  }

  /** The truth of what a user test function returned. */
  function TruthOf(env: Env, ret: Ret, v: seq<Str>): Ret {
    if !ret.RTrue? then ret
    else if v == [] || v[0] == U("true") then RTrue
    else if v[0] == U("false") then RFalse
    else
      var n := env.toInt(v[0]);
      Bool(n.Some? && n.value != 0)
  }

  /** A test function call. */
  function Test(env: Env, fuel: nat, name: Str, args: seq<Expr>, st: State): Result
    decreases fuel, 1, args, 2
  {
    if IsTest(env, name) then
      var o := JoinedArgs(env, fuel, args, st);
      if o.ret.Fatal() then Result(o.ret, o.st) else BuiltinCall(env, name, o.v, o.st)
    else if name in st.testDefs then
      var o := ListArgs(env, fuel, args, st, []);
      if o.ret.Fatal() then Result(o.ret, o.st)
      else
        var c := CallUser(env, fuel, st.testDefs[name], o.v, o.st.(log := o.st.log + [User(name, o.v)]));
        Result(TruthOf(env, c.ret, c.v), c.st)
    else Result(RFalse, st.(log := st.log + [Unknown(name)]))
  }

  // ----- statements ---------------------------------------------------------

  datatype Flags = Flags(okey: bool, orOp: bool, invert: bool) {
    /** Is the next test to be evaluated, or short-circuited away? */
    predicate Live() { okey != orOp }

    function Tested(v: bool): Flags { Flags(v, !v, false) }
  }

  /** The stack after an operator assignment of `vals` to `name`. */
  function AssignTo(env: Env, name: Str, op: AssignOp, vals: seq<Str>, s: Stack): Stack {
    var was := Values(s, name);
    var now :=
      match op
      case Set => Some(RemoveEmpty(vals))
      case Append => Some(was + RemoveEmpty(vals))
      case AppendUnique => Some(InsertUnique(was, vals))
      case Remove => Some(RemoveEach(was, vals))
      case Replace => env.substitute(Last(vals), was);
    if now.None? then s else SetTop(s, name, Vals(env.hook(name, now.value)))
  }

  function Assignment(env: Env, fuel: nat, lhs: seq<Str>, op: AssignOp, rhs: Expr, st: State): Result
    decreases fuel, 1, rhs, 2
  {
    if |lhs| != 1 then Result(RTrue, st)
    else
      var o := Words(env, fuel, rhs, st, op.Replace?);
      if o.ret.Fatal() then Result(o.ret, o.st)
      else Result(RTrue, o.st.(stack := AssignTo(env, env.alias(lhs[0]), op, o.v, o.st.stack)))
  }

  function VisitBlock(env: Env, fuel: nat, b: Block, st: State): Result
    decreases fuel, 1, b, 1
  {
    if b.NoBlock? then Result(RTrue, st) else Visit(env, fuel, b.items, Flags(true, false, false), st)
  }

  /** The loop variable for the iteration at `index`; empty list elements are passed over. */
  function BindLoopVar(s: Stack, name: Str, endless: bool, list: seq<Str>, index: nat): Stack {
    if endless then (if name == [] then s else SetTop(s, name, Vals([Number(index)])))
    else if index < |list| && list[index] != [] then SetTop(s, name, Vals([list[index]]))
    else s
  }

  /** A loop over `list`, or up to MAX_ITERATIONS times if `endless`. */
  function Iterate(env: Env, fuel: nat, name: Str, endless: bool, list: seq<Str>, index: nat, body: seq<Item>,
                   ret: Ret, st: State): Result
    requires endless ==> index <= MAX_ITERATIONS
    decreases fuel, 1, body, 1, if endless then MAX_ITERATIONS - index else |list| - index
  {
    var st1 := st.(stack := BindLoopVar(st.stack, name, endless, list, index));
    if endless && index == MAX_ITERATIONS then Result(ret, st1)
    else if !endless && index >= |list| then Result(ret, st1)
    else if !endless && list[index] == [] then Iterate(env, fuel, name, endless, list, index + 1, body, ret, st1)
    else
      var o := Visit(env, fuel, body, Flags(true, false, false), st1);
      match o.ret
      case RFalse => Iterate(env, fuel, name, endless, list, index + 1, body, RFalse, o.st)
      case RTrue => Iterate(env, fuel, name, endless, list, index + 1, body, RTrue, o.st)
      case RNext => Iterate(env, fuel, name, endless, list, index + 1, body, RTrue, o.st)
      case RBreak => Result(RTrue, o.st)
      case _ => o
  }

  const EVER: Str := U("ever")
  const FOREVER: Str := U("forever")

  function Loop(env: Env, fuel: nat, name: HStr, list: Expr, body: seq<Item>, st: State): Result
    decreases fuel, 1, Item.For(name, list, body), 0
  {
    var o := Words(env, fuel, list, st, true);
    if o.ret.Fatal() then Result(o.ret, o.st)
    else
      var word := Last(o.v);
      if name.s == [] && word != EVER then Result(RFalse, o.st)
      else
        var key := if name.s == [] then FOREVER else word;
        var variable := if name.s == [] then [] else env.alias(name.s);
        var was := Values(o.st.stack, variable);
        var bound := Values(o.st.stack, key);
        var endless := bound == [] && key == FOREVER;
        var r := Iterate(env, fuel, variable, endless, if bound == [] then Range(env, key) else bound, 0, body,
                         RTrue, o.st);
        if variable == [] then r else Result(r.ret, r.st.(stack := SetTop(r.st.stack, variable, Vals(was))))
  }

  /** A block from inside: the items still to visit, under the flags so far. */
  function Visit(env: Env, fuel: nat, items: seq<Item>, f: Flags, st: State): Result
    decreases fuel, 1, items, 0
  {
    if items == [] then Result(Bool(f.okey), st)
    else
      var s := Step(env, fuel, items[0], f, st);
      if s.res.ret.Plain() then Visit(env, fuel, items[1..], s.flags, s.res.st) else s.res
  }

  datatype StepOut = StepOut(res: Result, flags: Flags)

  /** One item: the block goes on with `flags` if the result is plain, and else ends with the result. */
  function Step(env: Env, fuel: nat, i: Item, f: Flags, st: State): StepOut
    decreases fuel, 1, i, 2
  {
    if HasHead(i) then
      var o := Words(env, fuel, Head(i), st, false);
      if o.ret.Fatal() then StepOut(Result(o.ret, o.st), f) else Act(env, fuel, i, o.v, f, o.st)
    else Act(env, fuel, i, [], f, st)
  }

  /** An item's own token, with the words `curr` of its head evaluated. */
  function Act(env: Env, fuel: nat, i: Item, curr: seq<Str>, f: Flags, st: State): StepOut
    decreases fuel, 1, i, 1
  {
    var again := f.(okey := true, orOp := false);
    match i
    case Line(_) => StepOut(Result(RTrue, st), f)
    case Not => StepOut(Result(RTrue, st), f.(invert := !f.invert))
    case And => StepOut(Result(RTrue, st), f.(orOp := false))
    case Or => StepOut(Result(RTrue, st), f.(orOp := true))
    case Assign(_, op, _, rhs) => StepOut(Assignment(env, fuel, curr, op, rhs, st), f)
    case Branch(thn, els) => StepOut(VisitBlock(env, fuel, if f.okey then thn else els, st), again)
    case For(name, list, body) =>
      StepOut(if f.Live() then Loop(env, fuel, name, list, body, st) else Result(RTrue, st), again)
    case Def(isTest, name, body) => StepOut(Result(RTrue, if f.Live() then Define(isTest, name.s, body, st) else st), again)
    case Bypass(body) =>
      StepOut(if f.Live() then VisitGlobally(env, fuel, body, st) else Result(RTrue, st), again)
    case Cond(_) =>
      if !f.Live() then StepOut(Result(RTrue, st), f.Tested(f.okey))
      else if |curr| != 1 then StepOut(Result(RTrue, st), f.Tested(false))
      else
        var v := env.active(curr[0], st.stack);
        StepOut(Result(RTrue, st.(log := st.log + [Tested(curr[0])])), f.Tested(v != f.invert))
    case Call(_, args) =>
      if !f.Live() then StepOut(Result(RTrue, st), f.Tested(f.okey))
      else if |curr| != 1 then StepOut(Result(RTrue, st), f.Tested(false))
      else
        var r := Test(env, fuel, curr[0], args, st);
        StepOut(r, f.Tested(r.ret.RTrue? != f.invert))
    case Return(_) => Control(RReturn, f, st.(returnValue := curr))
    case Break => Control(RBreak, f, st)
    case Next => Control(RNext, f, st)
  }

  function Define(isTest: bool, name: Str, body: seq<Item>, st: State): State {
    if isTest then st.(testDefs := st.testDefs[name := body])
    else st.(replaceDefs := st.replaceDefs[name := body])
  }

  /** A bypassNesting block: only the global frame is there while it runs. */
  function VisitGlobally(env: Env, fuel: nat, body: seq<Item>, st: State): Result
    decreases fuel, 1, body, 1
  {
    var r := Visit(env, fuel, body, Flags(true, false, false), st.(stack := [st.stack[0]]));
    Result(r.ret, r.st.(stack := [r.st.stack[0]] + st.stack[1..]))
  }

  /** A flow control statement; a skipped one counts as a failed test. */
  function Control(ret: Ret, f: Flags, st: State): StepOut {
    if f.Live() then StepOut(Result(ret, st), f)
    else StepOut(Result(RTrue, st), f.(okey := false, orOp := true))
  }
}
