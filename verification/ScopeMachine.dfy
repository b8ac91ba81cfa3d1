// The parser's scope machine over the events of a line: how it nests scopes and
// resolves one-line bodies, braces and dangling else, with the scopes as trees.
module ScopeMachine {
  import opened Tokens

  /** How a scope was opened: what it becomes in its parent when it is left. */
  datatype Opener =
    | Root
    | ThenOf
    | ElseOf(thn: Block)
    | BodyOf(name: HStr, list: Expr)
    | DefOf(isTest: bool, defName: HStr)
    | BypassOf

  /** A branch in a scope: none, its then block still open, or its else block still due. */
  datatype Fork = NoFork | ThenOpen | ElseDue(thn: Block)

  datatype Scope = Scope(open: Opener, items: seq<Item>, fork: Fork, brace: nat, special: bool,
                         inLoop: bool, inFunction: bool) {
    /** The dangling else rule: one-line special scopes take no else. */
    predicate TakesElse() { !special || brace > 0 }
  }

  datatype LineState = StNew | StCtrl | StCond

  datatype Operator = NoOperator | AndOperator | OrOperator

  type Scopes = s: seq<Scope> | |s| > 0 witness [Scope(Root, [], NoFork, 0, false, false, false)]

  datatype Machine = Machine(
    scopes: Scopes,
    state: LineState,
    canElse: bool,
    invert: nat,
    op: Operator,
    markLine: nat,
    lineNo: nat,
    ok: bool)

  /** The words in front of a separator: none, one, or too many. */
  datatype Words = NoWord | Word(x: Expr) | Excess

  datatype ValueEnd = AtNewline | AtBrace | AtEof

  /** What the tokenizer meets on a line. `Garbled` is an error of its own, as an unclosed quote. */
  datatype Event =
    | Bang
    | Garbled
    | Colon(w: Words)
    | Pipe(w: Words)
    | Open(w: Words)
    | Close(w: Words)
    | Newline(w: Words)
    | Continued(comment: bool)
    | Invoke(x: Expr, args: seq<Expr>)
    | Assignment(w: Words, aop: AssignOp, hint: u16, rhs: Expr, end: ValueEnd)

  // ----- scopes ---------------------------------------------------------------

  function Top(s: Scopes): Scope { s[|s| - 1] }

  function WithTop(s: Scopes, t: Scope): Scopes { s[|s| - 1 := t] }

  function AddItem(t: Scope, i: Item): Scope { t.(items := t.items + [i]) }

  /** The scope with its open branch closed by an empty else block. */
  function CloseFork(t: Scope): Scope {
    if t.fork.ElseDue? then t.(items := t.items + [Branch(t.fork.thn, NoBlock)], fork := NoFork) else t
  }

  /** The item a left scope becomes. */
  function LeftItem(open: Opener, body: seq<Item>): Item
    requires !open.Root? && !open.ThenOf?
  {
    match open
    case ElseOf(thn) => Branch(thn, Block.Block(body))
    case BodyOf(name, list) => For(name, list, body)
    case DefOf(isTest, name) => Def(isTest, name, body)
    case BypassOf => Bypass(body)
  }

  /** What a left scope leaves behind in its parent. */
  function Absorb(parent: Scope, open: Opener, body: seq<Item>): Scope {
    if open.Root? then parent
    else if open.ThenOf? then parent.(fork := ElseDue(Block.Block(body)))
    else AddItem(parent, LeftItem(open, body))
  }

  function LeaveScope(s: Scopes): Scopes {
    if |s| == 1 then s
    else s[..|s| - 2] + [Absorb(s[|s| - 2], Top(s).open, CloseFork(Top(s)).items)]
  }

  /** Leaves the one-line scopes on top. */
  function LeaveOneLiners(s: Scopes): Scopes
    decreases |s|
  {
    if Top(s).brace == 0 && |s| > 1 then LeaveOneLiners(LeaveScope(s)) else s
  }

  // ----- steps of the machine --------------------------------------------------

  function Fail(m: Machine): Machine { m.(ok := false) }

  function Put(m: Machine, i: Item): Machine {
    m.(scopes := WithTop(m.scopes, AddItem(Top(m.scopes), i)))
  }

  function PutLineMarker(m: Machine): Machine {
    if m.markLine == 0 then m else Put(m, Line(Low(m.markLine))).(markLine := 0)
  }

  function EnterScope(m: Machine, open: Opener, special: bool, state: LineState): Machine {
    var t := Top(m.scopes);
    m.(scopes := m.scopes + [Scope(open, [], NoFork, 0, special, t.inLoop, t.inFunction)],
       state := state, canElse := false, markLine := if special then m.lineNo else m.markLine)
  }

  function FlushScopes(m: Machine): Machine {
    if !m.state.StNew? then m
    else
      var s := LeaveOneLiners(m.scopes);
      m.(scopes := WithTop(s, CloseFork(Top(s))), canElse := false)
  }

  function FlushCond(m: Machine): Machine {
    if m.state.StCond? then
      EnterScope(m.(scopes := WithTop(m.scopes, Top(m.scopes).(fork := ThenOpen))), ThenOf, false, StNew)
    else FlushScopes(m)
  }

  function WarnOperator(m: Machine): Machine { m.(invert := 0, op := NoOperator) }

  function FailOperator(m: Machine): Machine {
    m.(invert := 0, op := NoOperator, ok := m.ok && m.invert == 0 && m.op.NoOperator?)
  }

  function AcceptColon(m: Machine): Machine {
    FailOperator(if m.op.AndOperator? then m.(op := NoOperator) else m)
  }

  /** After else and for a colon is no operator. */
  function PutOperator(m: Machine): Machine {
    match m.op
    case AndOperator => (if m.state.StCond? then Put(m, And) else m).(op := NoOperator)
    case OrOperator => Put(m, Or).(op := NoOperator)
    case NoOperator => m
  }

  function FinalizeTest(m: Machine): Machine {
    var m1 := PutOperator(PutLineMarker(FlushScopes(m)));
    (if m1.invert % 2 == 1 then Put(m1, Not) else m1).(invert := 0, state := StCond, canElse := true)
  }

  const ELSE: Str := U("else")

  function Lower(s: Str): Str {
    seq(|s|, i requires 0 <= i < |s| => if 65 <= s[i] <= 90 then s[i] + 32 else s[i])
  }

  /** The literal a word consists of, if it is one. */
  function Literal(x: Expr): Option<Str> {
    if |x.elems| == 1 && x.elems[0].HashLit? then Some(x.elems[0].h.s) else None
  }

  predicate IsElse(x: Expr) { Literal(x).Some? && Lower(Literal(x).value) == ELSE }

  /** Leaves scopes until one has a branch whose else block is due. */
  function TakeElse(m: Machine): Machine
    decreases |m.scopes|
  {
    var t := Top(m.scopes);
    if t.fork.ElseDue? && t.TakesElse() then
      EnterScope(m.(scopes := WithTop(m.scopes, t.(fork := NoFork))), ElseOf(t.fork.thn), false, StCtrl)
    else if t.brace > 0 || |m.scopes| == 1 then Fail(m)
    else TakeElse(m.(scopes := LeaveScope(m.scopes)))
  }

  function Else(m: Machine): Machine {
    var m1 := FailOperator(m);
    if !m1.ok then m1
    else if m1.canElse && Top(m1.scopes).TakesElse() then EnterScope(m1, ElseOf(NoBlock), false, StCtrl)
    else TakeElse(m1)
  }

  /** Line markers at the start of a test are items of their own. */
  function LeadingLines(es: seq<Elem>): nat
    ensures LeadingLines(es) <= |es|
  {
    if es == [] || !es[0].ELine? then 0 else 1 + LeadingLines(es[1..])
  }

  function PutLines(m: Machine, es: seq<Elem>): Machine
    decreases |es|
  {
    if es == [] || !es[0].ELine? then m else PutLines(Put(m, Line(es[0].line)), es[1..])
  }

  function WithoutLines(x: Expr): Expr { Expr.Expr(x.elems[LeadingLines(x.elems)..]) }

  /** Puts the words `x` and then an item that has the rest of them as its head. */
  function PutHeaded(m: Machine, x: Expr, item: Expr -> Item): Machine {
    Put(PutLines(m, x.elems), item(WithoutLines(x)))
  }

  function FinalizeCond(m: Machine, w: Words): Machine {
    match w
    case NoWord => m
    case Excess => Fail(m)
    case Word(x) => if IsElse(x) then Else(m) else PutHeaded(FinalizeTest(m), x, h => Cond(h))
  }

  // ----- calls ------------------------------------------------------------------

  const FOR: Str := U("for")
  const DEFINE_TEST: Str := U("defineTest")
  const DEFINE_REPLACE: Str := U("defineReplace")
  const BYPASS: Str := U("bypassNesting")
  const RETURN_NAME: Str := U("return")
  const NEXT_NAME: Str := U("next")
  const BREAK_NAME: Str := U("break")
  const OPTION_NAME: Str := U("option")

  /** The literal an argument consists of, if it is one. */
  function PlainArg(x: Expr): Option<Str> {
    if |x.elems| == 1 && x.elems[0].Lit? && x.elems[0].newStr then Some(x.elems[0].s) else None
  }

  predicate StartsPlain(args: seq<Expr>) {
    args != [] && args[0].elems != [] && args[0].elems[0].Lit? && args[0].elems[0].newStr
  }

  /** The hash of a string, as its two units. */
  type Hash = Str -> (u16, u16)

  function Hashed(hash: Hash, s: Str): HStr { HStr(hash(s).0, hash(s).1, s) }

  datatype LoopHead = LoopHead(name: Str, list: Expr)

  /** The variable and the list expression of a for(); None if it has neither of the three forms. */
  function LoopArgs(hash: Hash, args: seq<Expr>): Option<LoopHead> {
    if StartsPlain(args) then
      var plain := PlainArg(args[0]);
      if plain.Some? && |args| == 1 then Some(LoopHead([], Expr.Expr([HashLit(false, Hashed(hash, plain.value))])))
      else if plain.Some? && |args| == 2 then Some(LoopHead(plain.value, args[1]))
      else None
    else if |args| <= 1 then Some(LoopHead([], if args == [] then Expr.Expr([]) else args[0]))
    else None
  }

  function CallFor(hash: Hash, m: Machine, args: seq<Expr>): Machine {
    var m1 := AcceptColon(m);
    if !m1.ok then m1
    else
      var m2 := PutLineMarker(FlushCond(m1));
      var l := LoopArgs(hash, args);
      if l.None? then Fail(m2)
      else
        var m3 := EnterScope(m2, BodyOf(Hashed(hash, l.value.name), l.value.list), true, StCtrl);
        m3.(scopes := WithTop(m3.scopes, Top(m3.scopes).(inLoop := true)))
  }

  function CallDefine(hash: Hash, m: Machine, isTest: bool, args: seq<Expr>): Machine {
    if m.invert > 0 then Fail(m)
    else
      var m1 := PutLineMarker(FlushScopes(m));
      if |args| != 1 || PlainArg(args[0]).None? then Fail(m1)
      else
        var m2 := EnterScope(PutOperator(m1), DefOf(isTest, Hashed(hash, PlainArg(args[0]).value)), true, StCtrl);
        m2.(scopes := WithTop(m2.scopes, Top(m2.scopes).(inLoop := false, inFunction := true)))
  }

  function CallBypass(m: Machine, args: seq<Expr>): Machine {
    if args != [] || !Top(m.scopes).inFunction || m.invert > 0 then Fail(m)
    else EnterScope(PutOperator(PutLineMarker(FlushScopes(m))), BypassOf, true, StCtrl)
  }

  /** What a return() returns. */
  function ReturnWords(args: seq<Expr>): Expr { if args == [] then Expr.Expr([]) else args[0] }

  function CallReturn(m: Machine, args: seq<Expr>): Machine {
    if (if Top(m.scopes).inFunction then |args| > 1 else args != []) || m.invert > 0 then Fail(m)
    else PutHeaded(FinalizeTest(m), ReturnWords(args), x => Return(x))
  }

  function CallJump(m: Machine, args: seq<Expr>, jump: Item): Machine {
    if args != [] || !Top(m.scopes).inLoop || m.invert > 0 then Fail(m) else Put(FinalizeTest(m), jump)
  }

  /** option() puts nothing into the stream. */
  function CallOption(m: Machine, args: seq<Expr>): Machine {
    if !m.state.StNew? || Top(m.scopes).brace > 0 || |m.scopes| > 1 || m.invert > 0 || !m.op.NoOperator? then Fail(m)
    else if |args| == 1 && PlainArg(args[0]) == Some(U("host_build")) then m
    else Fail(m)
  }

  function FinalizeCall(hash: Hash, m: Machine, x: Expr, args: seq<Expr>): Machine {
    var name := Literal(x);
    if name == Some(FOR) then CallFor(hash, m, args)
    else if name == Some(DEFINE_REPLACE) then CallDefine(hash, m, false, args)
    else if name == Some(DEFINE_TEST) then CallDefine(hash, m, true, args)
    else if name == Some(BYPASS) then CallBypass(m, args)
    else if name == Some(RETURN_NAME) then CallReturn(m, args)
    else if name == Some(NEXT_NAME) then CallJump(m, args, Next)
    else if name == Some(BREAK_NAME) then CallJump(m, args, Break)
    else if name == Some(OPTION_NAME) then CallOption(m, args)
    else PutHeaded(FinalizeTest(m), x, h => Call(h, args))
  }

  // ----- events -----------------------------------------------------------------

  function FreshLine(m: Machine): Machine {
    m.(state := StNew, invert := 0, op := NoOperator, markLine := m.lineNo + 1, lineNo := m.lineNo + 1)
  }

  function CloseScope(m: Machine): Machine {
    var m1 := FailOperator(FlushScopes(m));
    var t := Top(m1.scopes);
    if t.brace == 0 then Fail(m1)
    else
      var m2 := m1.(scopes := WithTop(m1.scopes, t.(brace := t.brace - 1)));
      if t.brace == 1 && |m2.scopes| != 1 then
        m2.(scopes := LeaveScope(m2.scopes), state := StNew, canElse := false, markLine := m2.lineNo)
      else m2
  }

  function OpenScope(m: Machine): Machine {
    var m1 := FlushCond(FailOperator(if m.op.AndOperator? then m.(op := NoOperator) else m));
    m1.(state := StNew, scopes := WithTop(m1.scopes, Top(m1.scopes).(brace := Top(m1.scopes).brace + 1)))
  }

  function Assigned(m: Machine, w: Words, op: AssignOp, hint: u16, rhs: Expr): Machine {
    var m1 := AcceptColon(FlushCond(m));
    if !w.Word? then Fail(m1) else PutHeaded(PutLineMarker(m1), w.x, lhs => Assign(lhs, op, hint, rhs))
  }

  /** One event. After a parse error the file is not used, and the machine stands still. */
  function Step(hash: Hash, m: Machine, e: Event): Machine {
    if !m.ok then m
    else
      match e
      case Bang => m.(invert := m.invert + 1)
      case Garbled => Fail(m)
      case Colon(w) =>
        var m1 := WarnOperator(FinalizeCond(m, w));
        if m1.state.StNew? then Fail(m1) else m1.(op := AndOperator)
      case Pipe(w) =>
        var m1 := WarnOperator(FinalizeCond(m, w));
        if !m1.state.StCond? then Fail(m1) else m1.(op := OrOperator)
      case Open(w) => var m1 := FinalizeCond(m, w); if m1.ok then OpenScope(m1) else m1
      case Close(w) => var m1 := FinalizeCond(m, w); if m1.ok then CloseScope(m1.(state := StNew)) else m1
      case Newline(w) => FreshLine(FinalizeCond(m, w))
      case Continued(comment) =>
        m.(markLine := if comment && m.markLine == m.lineNo then m.markLine + 1 else m.markLine, lineNo := m.lineNo + 1)
      case Invoke(x, args) => FinalizeCall(hash, m, x, args)
      case Assignment(w, op, hint, rhs, end) =>
        var m1 := Assigned(m, w, op, hint, rhs);
        if !m1.ok then m1
        else
          match end
          case AtNewline => FreshLine(m1)
          case AtBrace => CloseScope(m1)
          case AtEof => m1
  }

  function Run(hash: Hash, m: Machine, es: seq<Event>): Machine
    decreases es
  {
    if es == [] then m else Run(hash, Step(hash, m, es[0]), es[1..])
  }

  function Start(lineNo: nat): Machine {
    Machine([Scope(Root, [], NoFork, 0, false, false, false)], StNew, false, 0, NoOperator, lineNo, lineNo, true)
  }

  /** The end of the file, with the last words `w`. */
  function Finish(m: Machine, w: Words): Machine {
    var m1 := FlushScopes(WarnOperator(FinalizeCond(m, w)));
    var m2 := if |m1.scopes| > 1 || Top(m1.scopes).brace > 0 then Fail(m1) else m1;
    m2.(scopes := WithTop(m2.scopes, CloseFork(Top(m2.scopes))))
  }

  /** Parsing a file: None on a parse error. */
  function Parse(hash: Hash, es: seq<Event>, last: Words): Option<seq<Item>> {
    var m := Run(hash, Start(1), es);
    if !m.ok then None
    else
      var m1 := Finish(m, last);
      if m1.ok then Some(Top(m1.scopes).items) else None
  }
}
