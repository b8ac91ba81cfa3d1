// The token stream of a compiled .pro file: the 16-bit token grammar, as trees
// and as the flat stream the parser writes and the evaluator walks.
module Tokens {
  type u16 = x: int | 0 <= x < 0x1_0000
  type Str = seq<u16>

  datatype Option<+T> = None | Some(value: T)

  /** The code units of an ASCII literal. */
  function U(s: string): Str {
    seq(|s|, i requires 0 <= i < |s| => (s[i] as int) % 0x1_0000)
  }

  function SetOf(s: seq<Str>): set<Str> { set x | x in s }

  predicate NoDup(s: seq<Str>) { forall i, j | 0 <= i < j < |s| :: s[i] != s[j] }

  lemma {:induction false} Assoc(a: seq<u16>, b: seq<u16>, c: seq<u16>)
    ensures (a + b) + c == a + (b + c)
  {
  }

  // Token numbers, in the order of the enumeration.
  const TERMINATOR: u16 := 0
  const LINE: u16 := 1
  const ASSIGN: u16 := 2
  const APPEND: u16 := 3
  const APPEND_UNIQUE: u16 := 4
  const REMOVE: u16 := 5
  const REPLACE: u16 := 6
  const VALUE_TERMINATOR: u16 := 7
  const LITERAL: u16 := 8
  const HASH_LITERAL: u16 := 9
  const VARIABLE: u16 := 10
  const PROPERTY: u16 := 11
  const ENV_VAR: u16 := 12
  const FUNC_NAME: u16 := 13
  const ARG_SEPARATOR: u16 := 14
  const FUNC_TERMINATOR: u16 := 15
  const CONDITION: u16 := 16
  const TEST_CALL: u16 := 17
  const RETURN: u16 := 18
  const BREAK: u16 := 19
  const NEXT: u16 := 20
  const NOT: u16 := 21
  const AND: u16 := 22
  const OR: u16 := 23
  const BRANCH: u16 := 24
  const FOR_LOOP: u16 := 25
  const TEST_DEF: u16 := 26
  const REPLACE_DEF: u16 := 27
  const BYPASS_NESTING: u16 := 28

  /** A string stored with its hash. The reader takes the hash from the stream. */
  datatype HStr = HStr(lo: u16, hi: u16, s: Str)

  /** One element of an expression. `quoted` and `newStr` are TokQuoted and TokNewStr. */
  datatype Elem =
    | ELine(line: u16)
    | Lit(newStr: bool, s: Str)
    | HashLit(newStr: bool, h: HStr)
    | Var(quoted: bool, newStr: bool, h: HStr)
    | Prop(quoted: bool, newStr: bool, h: HStr)
    | EnvVar(quoted: bool, newStr: bool, s: Str)
    | Fn(quoted: bool, newStr: bool, h: HStr, args: seq<Expr>)

  datatype Expr = Expr(elems: seq<Elem>)

  datatype AssignOp = Set | Append | AppendUnique | Remove | Replace

  datatype Block = NoBlock | Block(items: seq<Item>)

  datatype Item =
    | Line(line: u16)
    | Assign(lhs: Expr, op: AssignOp, hint: u16, rhs: Expr)
    | Branch(thn: Block, els: Block)
    | For(name: HStr, list: Expr, body: seq<Item>)
    | Def(isTest: bool, name: HStr, body: seq<Item>)
    | Bypass(body: seq<Item>)
    | Not
    | And
    | Or
    | Cond(head: Expr)
    | Call(head: Expr, args: seq<Expr>)
    | Return(value: Expr)
    | Break
    | Next

  // ----- flattening ---------------------------------------------------------

  function Low(n: nat): u16 { n % 0x1_0000 }

  /** A 32-bit block length as two units, low half first. */
  function EncLen(n: nat): seq<u16> { [Low(n), Low(n / 0x1_0000)] }

  function DecLen(lo: u16, hi: u16): nat { lo + hi * 0x1_0000 }

  function EncStr(s: Str): seq<u16> { [Low(|s|)] + s }

  function EncHStr(h: HStr): seq<u16> { [h.lo, h.hi, Low(|h.s|)] + h.s }

  function Flagged(base: u16, quoted: bool, newStr: bool): u16
    requires base < 0x100
  {
    base + (if quoted then 0x100 else 0) + (if newStr then 0x200 else 0)
  }

  function EncElem(e: Elem): seq<u16>
    decreases e
  {
    match e
    case ELine(n) => [LINE, n]
    case Lit(f, s) => [Flagged(LITERAL, false, f)] + EncStr(s)
    case HashLit(f, h) => [Flagged(HASH_LITERAL, false, f)] + EncHStr(h)
    case Var(q, f, h) => [Flagged(VARIABLE, q, f)] + EncHStr(h)
    case Prop(q, f, h) => [Flagged(PROPERTY, q, f)] + EncHStr(h)
    case EnvVar(q, f, s) => [Flagged(ENV_VAR, q, f)] + EncStr(s)
    case Fn(q, f, h, args) => [Flagged(FUNC_NAME, q, f)] + EncHStr(h) + EncArgs(args) + [FUNC_TERMINATOR]
  }

  function EncElems(es: seq<Elem>): seq<u16>
    decreases es
  {
    if es == [] then [] else EncElem(es[0]) + EncElems(es[1..])
  }

  function EncExpr(x: Expr): seq<u16>
    decreases x
  {
    EncElems(x.elems)
  }

  /** Arguments joined by separators, without the terminator. */
  function EncArgs(args: seq<Expr>): seq<u16>
    decreases args
  {
    if args == [] then []
    else if |args| == 1 then EncExpr(args[0])
    else EncExpr(args[0]) + [ARG_SEPARATOR] + EncArgs(args[1..])
  }

  function OpTok(op: AssignOp): u16 {
    match op
    case Set => ASSIGN
    case Append => APPEND
    case AppendUnique => APPEND_UNIQUE
    case Remove => REMOVE
    case Replace => REPLACE
  }

  function EncItem(i: Item): seq<u16>
    decreases i
  {
    match i
    case Line(n) => [LINE, n]
    case Assign(lhs, op, hint, rhs) => EncExpr(lhs) + [OpTok(op), hint] + EncExpr(rhs) + [VALUE_TERMINATOR]
    case Branch(thn, els) => [BRANCH] + EncBlock(thn) + EncBlock(els)
    case For(name, list, body) =>
      [FOR_LOOP] + EncHStr(name) + EncLen(|EncExpr(list)| + 1) + EncExpr(list) + [VALUE_TERMINATOR] + EncBody(body)
    case Def(isTest, name, body) =>
      [if isTest then TEST_DEF else REPLACE_DEF] + EncHStr(name) + EncBody(body)
    case Bypass(body) => [BYPASS_NESTING] + EncBody(body)
    case Not => [NOT]
    case And => [AND]
    case Or => [OR]
    case Cond(head) => EncExpr(head) + [CONDITION]
    case Call(head, args) => EncExpr(head) + [TEST_CALL] + EncArgs(args) + [FUNC_TERMINATOR]
    case Return(value) => EncExpr(value) + [RETURN]
    case Break => [BREAK]
    case Next => [NEXT]
  }

  function EncItems(items: seq<Item>): seq<u16>
    decreases items, 0
  {
    if items == [] then [] else EncItem(items[0]) + EncItems(items[1..])
  }

  /** A block with its length prefix and terminator. */
  function EncBody(items: seq<Item>): seq<u16>
    decreases items, 1
  {
    EncLen(|EncItems(items)| + 1) + EncItems(items) + [TERMINATOR]
  }

  /** An optional block: an absent one is a zero length with no terminator. */
  function EncBlock(b: Block): seq<u16>
    decreases b
  {
    match b
    case NoBlock => EncLen(0)
    case Block(items) => EncBody(items)
  }
}
