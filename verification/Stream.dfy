// Where the pieces of a tree lie in a flat token stream.
module Stream {
  import opened Tokens

  /** `code` lies in `t` at `pos`. */
  ghost predicate At(t: seq<u16>, pos: nat, code: seq<u16>) {
    pos + |code| <= |t| && t[pos..pos + |code|] == code
  }

  lemma {:induction false} AtConcat(t: seq<u16>, pos: nat, a: seq<u16>, b: seq<u16>)
    requires At(t, pos, a + b)
    ensures At(t, pos, a) && At(t, pos + |a|, b)
  {
    assert a == (a + b)[..|a|] == t[pos..pos + |a|];
    assert b == (a + b)[|a|..] == t[pos + |a|..pos + |a| + |b|];
  }

  lemma {:induction false} AtUnit(t: seq<u16>, pos: nat, u: u16, b: seq<u16>)
    requires At(t, pos, [u] + b)
    ensures pos < |t| && t[pos] == u && At(t, pos + 1, b)
  {
    AtConcat(t, pos, [u], b);
    assert t[pos] == t[pos..pos + 1][0];
  }

  lemma {:induction false} AtOne(t: seq<u16>, pos: nat, u: u16)
    requires At(t, pos, [u])
    ensures pos < |t| && t[pos] == u
  {
    AtUnit(t, pos, u, []);
  }

  // ----- well-formed trees: every string fits its length field ----------------------

  predicate FitsStr(s: Str) { |s| < 0x1_0000 }

  predicate WfElem(e: Elem)
    decreases e
  {
    match e
    case ELine(_) => true
    case Lit(_, s) => FitsStr(s)
    case EnvVar(_, _, s) => FitsStr(s)
    case HashLit(_, h) => FitsStr(h.s)
    case Var(_, _, h) => FitsStr(h.s)
    case Prop(_, _, h) => FitsStr(h.s)
    case Fn(_, _, h, args) => FitsStr(h.s) && WfArgs(args)
  }

  predicate WfElems(es: seq<Elem>)
    decreases es
  {
    es == [] || (WfElem(es[0]) && WfElems(es[1..]))
  }

  predicate WfExpr(x: Expr)
    decreases x
  {
    WfElems(x.elems)
  }

  /** A call with one empty argument looks like a call with none. */
  predicate WfArgs(args: seq<Expr>)
    decreases args, 1
  {
    args != [Expr.Expr([])] && WfAll(args)
  }

  predicate WfAll(args: seq<Expr>)
    decreases args, 0
  {
    args == [] || (WfExpr(args[0]) && WfAll(args[1..]))
  }

  /** Among the items of a block, a leading line marker is an item of its own. */
  predicate WfHead(x: Expr) {
    WfExpr(x) && (x.elems != [] ==> !x.elems[0].ELine?)
  }

  predicate WfItem(i: Item)
    decreases i
  {
    match i
    case Assign(lhs, _, _, rhs) => WfHead(lhs) && WfExpr(rhs)
    case Branch(thn, els) => (thn.Block? ==> WfItems(thn.items)) && (els.Block? ==> WfItems(els.items))
    case For(name, list, body) => FitsStr(name.s) && WfExpr(list) && WfItems(body)
    case Def(_, name, body) => FitsStr(name.s) && WfItems(body)
    case Bypass(body) => WfItems(body)
    case Cond(head) => WfHead(head)
    case Call(head, args) => WfHead(head) && WfArgs(args)
    case Return(value) => WfHead(value)
    case _ => true
  }

  predicate WfItems(items: seq<Item>)
    decreases items
  {
    items == [] || (WfItem(items[0]) && WfItems(items[1..]))
  }

  /** A block of items and its terminator. */
  ghost predicate ItemsAt(t: seq<u16>, pos: nat, items: seq<Item>) {
    At(t, pos, EncItems(items) + [TERMINATOR]) && WfItems(items)
  }

  // ----- decoding facts -------------------------------------------------------

  /** A 32-bit length survives its two-unit encoding. */
  lemma {:induction false} LenRoundTrip(n: nat)
    ensures |EncLen(n)| == 2
    ensures DecLen(EncLen(n)[0], EncLen(n)[1]) == n % 0x1_0000_0000
  {
    var m := n / 0x1_0000;
    assert n == m * 0x1_0000 + n % 0x1_0000;
    var k := m / 0x1_0000;
    assert n == k * 0x1_0000_0000 + (m % 0x1_0000) * 0x1_0000 + n % 0x1_0000;
  }

  lemma {:induction false} FlaggedRoundTrip(base: u16, quoted: bool, newStr: bool)
    requires base < 0x100
    ensures var t := Flagged(base, quoted, newStr);
            t % 0x100 == base && ((t / 0x100) % 2 == 1 <==> quoted) && ((t / 0x200) % 2 == 1 <==> newStr)
  {
  }

  /** The units that end an expression: not an element, nor a line marker. */
  predicate Ends(u: u16) {
    var m := u % 0x100; m != LINE && !(LITERAL <= m <= FUNC_NAME)
  }

  /** What follows an expression that starts at `pos`. */
  ghost predicate ExprAt(t: seq<u16>, pos: nat, es: seq<Elem>) {
    At(t, pos, EncElems(es)) && WfElems(es) && pos + |EncElems(es)| < |t| && Ends(t[pos + |EncElems(es)|])
  }

  lemma {:induction false} ExprStep(t: seq<u16>, pos: nat, es: seq<Elem>)
    requires ExprAt(t, pos, es) && es != []
    ensures At(t, pos, EncElem(es[0])) && WfElem(es[0]) && ExprAt(t, pos + |EncElem(es[0])|, es[1..])
  {
    AtConcat(t, pos, EncElem(es[0]), EncElems(es[1..]));
  }

  function Kind(e: Elem): u16 {
    match e
    case ELine(_) => LINE
    case Lit(_, _) => LITERAL
    case HashLit(_, _) => HASH_LITERAL
    case Var(_, _, _) => VARIABLE
    case Prop(_, _, _) => PROPERTY
    case EnvVar(_, _, _) => ENV_VAR
    case Fn(_, _, _, _) => FUNC_NAME
  }

  predicate StartsNew(e: Elem) { !e.ELine? && e.newStr }

  predicate IsQuoted(e: Elem) { (e.Var? || e.Prop? || e.EnvVar? || e.Fn?) && e.quoted }

  /** What follows the first unit of an element. */
  function Payload(e: Elem): seq<u16> {
    match e
    case ELine(n) => [n]
    case Lit(_, s) => EncStr(s)
    case EnvVar(_, _, s) => EncStr(s)
    case HashLit(_, h) => EncHStr(h)
    case Var(_, _, h) => EncHStr(h)
    case Prop(_, _, h) => EncHStr(h)
    case Fn(_, _, h, args) => EncHStr(h) + (EncArgs(args) + [FUNC_TERMINATOR])
  }

  lemma {:induction false} ElemParts(e: Elem)
    ensures EncElem(e) == [Flagged(Kind(e), IsQuoted(e), StartsNew(e))] + Payload(e)
  {
    if e.Fn? {
      assert EncElem(e) == [Flagged(FUNC_NAME, e.quoted, e.newStr)] + EncHStr(e.h) + EncArgs(e.args) + [FUNC_TERMINATOR];
    }
  }

  /** An element in the stream: its kind and flags, and its payload after them. */
  lemma {:induction false} ElemAt(t: seq<u16>, p: nat, e: Elem)
    requires At(t, p, EncElem(e))
    ensures p < |t| && t[p] % 0x100 == Kind(e) && !Ends(t[p])
    ensures (t[p] / 0x100) % 2 == 1 <==> IsQuoted(e)
    ensures (t[p] / 0x200) % 2 == 1 <==> StartsNew(e)
    ensures At(t, p + 1, Payload(e)) && |EncElem(e)| == 1 + |Payload(e)|
  {
    ElemParts(e);
    FlaggedRoundTrip(Kind(e), IsQuoted(e), StartsNew(e));
    AtUnit(t, p, Flagged(Kind(e), IsQuoted(e), StartsNew(e)), Payload(e));
  }

  lemma {:induction false} ElemStarts(e: Elem)
    ensures |EncElem(e)| > 1 && !Ends(EncElem(e)[0])
  {
    ElemParts(e);
    FlaggedRoundTrip(Kind(e), IsQuoted(e), StartsNew(e));
  }

  /** The parts of a function expansion after its first unit. */
  lemma {:induction false} FnAt(t: seq<u16>, p: nat, e: Elem)
    requires At(t, p, Payload(e)) && e.Fn? && WfElem(e)
    ensures At(t, p, EncHStr(e.h)) && ArgsAt(t, p + |EncHStr(e.h)|, e.args, FUNC_TERMINATOR) && WfArgs(e.args)
    ensures |Payload(e)| == |EncHStr(e.h)| + |EncArgs(e.args)| + 1
  {
    AtConcat(t, p, EncHStr(e.h), EncArgs(e.args) + [FUNC_TERMINATOR]);
    assert WfArgs(e.args);
  }

  /** An expression starts with an element or is at its end, and its first unit tells which. */
  lemma {:induction false} ExprHead(t: seq<u16>, p: nat, es: seq<Elem>)
    requires ExprAt(t, p, es)
    ensures p < |t| && (Ends(t[p]) <==> es == []) && (es == [] ==> |EncElems(es)| == 0)
    ensures es != [] ==>
      At(t, p, EncElem(es[0])) && WfElem(es[0]) && ExprAt(t, p + |EncElem(es[0])|, es[1..])
      && |EncElems(es)| == |EncElem(es[0])| + |EncElems(es[1..])|
  {
    if es != [] {
      ExprStep(t, p, es);
      ElemAt(t, p, es[0]);
    }
  }

  /** An argument list and its terminator. */
  ghost predicate ArgsAt(t: seq<u16>, pos: nat, args: seq<Expr>, term: u16) {
    At(t, pos, EncArgs(args) + [term]) && WfAll(args) && (term == FUNC_TERMINATOR || term == VALUE_TERMINATOR)
  }

  /** The last argument: an expression, then the terminator. */
  lemma {:induction false} LastArg(t: seq<u16>, pos: nat, args: seq<Expr>, term: u16)
    requires ArgsAt(t, pos, args, term) && |args| == 1
    ensures ExprAt(t, pos, args[0].elems) && t[pos + |EncExpr(args[0])|] == term
    ensures EncArgs(args) == EncExpr(args[0])
  {
    assert WfExpr(args[0]);
    AtConcat(t, pos, EncExpr(args[0]), [term]);
    AtOne(t, pos + |EncExpr(args[0])|, term);
  }

  /** Another argument: an expression, then a separator and the other arguments. */
  lemma {:induction false} NextArg(t: seq<u16>, pos: nat, args: seq<Expr>, term: u16)
    requires ArgsAt(t, pos, args, term) && |args| > 1
    ensures ExprAt(t, pos, args[0].elems)
    ensures t[pos + |EncExpr(args[0])|] == ARG_SEPARATOR
    ensures ArgsAt(t, pos + |EncExpr(args[0])| + 1, args[1..], term)
    ensures |EncArgs(args)| == |EncExpr(args[0])| + 1 + |EncArgs(args[1..])|
  {
    SepStep(t, pos, EncExpr(args[0]), EncArgs(args[1..]), term);
    assert WfExpr(args[0]) && WfAll(args[1..]);
  }

  lemma {:induction false} SepStep(t: seq<u16>, pos: nat, head: seq<u16>, tail: seq<u16>, term: u16)
    requires At(t, pos, head + [ARG_SEPARATOR] + tail + [term])
    ensures At(t, pos, head) && pos + |head| < |t|
    ensures t[pos + |head|] == ARG_SEPARATOR
    ensures At(t, pos + |head| + 1, tail + [term])
  {
    assert head + [ARG_SEPARATOR] + tail + [term] == head + ([ARG_SEPARATOR] + (tail + [term]));
    AtConcat(t, pos, head, [ARG_SEPARATOR] + (tail + [term]));
    AtUnit(t, pos + |head|, ARG_SEPARATOR, tail + [term]);
  }

  /** After an argument, at `q`: the terminator at the end, or a separator and `rest`; `stop` is past all of it. */
  ghost predicate MoreArgs(t: seq<u16>, q: nat, rest: seq<Expr>, term: u16, stop: nat) {
    && q < |t|
    && (term == FUNC_TERMINATOR || term == VALUE_TERMINATOR)
    && if rest == [] then t[q] == term && q + 1 == stop
       else t[q] == ARG_SEPARATOR && ArgsAt(t, q + 1, rest, term) && q + 1 + |EncArgs(rest)| + 1 == stop
  }

  lemma {:induction false} ArgStep(t: seq<u16>, pos: nat, args: seq<Expr>, term: u16)
    requires ArgsAt(t, pos, args, term) && args != []
    ensures ExprAt(t, pos, args[0].elems)
    ensures MoreArgs(t, pos + |EncElems(args[0].elems)|, args[1..], term, pos + |EncArgs(args)| + 1)
  {
    if |args| == 1 {
      LastArg(t, pos, args, term);
    } else {
      NextArg(t, pos, args, term);
    }
  }

  /** Of a well-formed argument list, only the empty one starts with the terminator. */
  lemma {:induction false} ArgsStart(t: seq<u16>, pos: nat, args: seq<Expr>, term: u16)
    requires ArgsAt(t, pos, args, term) && WfArgs(args)
    ensures pos < |t| && (t[pos] == term <==> args == []) && (args == [] ==> |EncArgs(args)| == 0)
  {
    if args == [] {
      assert EncArgs(args) + [term] == [term];
      AtOne(t, pos, term);
    } else {
      ArgStep(t, pos, args, term);
      if args[0].elems != [] {
        ExprStep(t, pos, args[0].elems);
        ElemStarts(args[0].elems[0]);
      } else {
        assert args[0] == Expr.Expr([]);
      }
    }
  }

  /** An empty argument list is an empty expression and the terminator. */
  lemma {:induction false} NoArgs(t: seq<u16>, pos: nat, args: seq<Expr>, term: u16)
    requires ArgsAt(t, pos, args, term) && args == []
    ensures pos < |t| && Ends(t[pos]) && MoreArgs(t, pos, [], term, pos + |EncArgs(args)| + 1)
    ensures ExprAt(t, pos, []) && MoreArgs(t, pos + |EncElems([])|, [], term, pos + |EncArgs(args)| + 1)
  {
    assert EncArgs(args) + [term] == [term];
    AtOne(t, pos, term);
  }

  // ----- items ----------------------------------------------------------------

  predicate HasHead(i: Item) { i.Assign? || i.Cond? || i.Call? || i.Return? }

  /** The expression in front of an item's own token. */
  function Head(i: Item): Expr
    requires HasHead(i)
  {
    match i
    case Assign(lhs, _, _, _) => lhs
    case Cond(head) => head
    case Call(head, _) => head
    case Return(value) => value
  }

  function HeadCode(i: Item): seq<u16> { if HasHead(i) then EncExpr(Head(i)) else [] }

  function ItemTok(i: Item): u16 {
    match i
    case Line(_) => LINE
    case Assign(_, op, _, _) => OpTok(op)
    case Branch(_, _) => BRANCH
    case For(_, _, _) => FOR_LOOP
    case Def(isTest, _, _) => if isTest then TEST_DEF else REPLACE_DEF
    case Bypass(_) => BYPASS_NESTING
    case Not => NOT
    case And => AND
    case Or => OR
    case Cond(_) => CONDITION
    case Call(_, _) => TEST_CALL
    case Return(_) => RETURN
    case Break => BREAK
    case Next => NEXT
  }

  /** What follows an item's own token. */
  function ItemRest(i: Item): seq<u16> {
    match i
    case Line(n) => [n]
    case Assign(_, _, hint, rhs) => [hint] + (EncArgs([rhs]) + [VALUE_TERMINATOR])
    case Branch(thn, els) => EncBlock(thn) + EncBlock(els)
    case For(name, list, body) =>
      EncHStr(name) + (EncLen(|EncExpr(list)| + 1) + ((EncArgs([list]) + [VALUE_TERMINATOR]) + EncBody(body)))
    case Def(_, name, body) => EncHStr(name) + EncBody(body)
    case Bypass(body) => EncBody(body)
    case Call(_, args) => EncArgs(args) + [FUNC_TERMINATOR]
    case _ => []
  }

  lemma {:induction false} BareUnits(u: seq<u16>, a: seq<u16>)
    ensures u + a == [] + (u + a)
    ensures a + u == a + (u + [])
  {
  }

  lemma {:induction false} AssignParts(h: seq<u16>, t: u16, n: u16, v: seq<u16>, e: seq<u16>)
    ensures h + [t, n] + v + e == h + ([t] + ([n] + (v + e)))
  {
    assert [t, n] == [t] + [n];
    Assoc(h, [t, n], v);
    Assoc(h, [t, n] + v, e);
    Assoc([t, n], v, e);
    Assoc([t], [n], v + e);
  }

  lemma {:induction false} ForParts(t: seq<u16>, h: seq<u16>, n: seq<u16>, v: seq<u16>, e: seq<u16>, b: seq<u16>)
    ensures t + h + n + v + e + b == t + (h + (n + ((v + e) + b)))
  {
    Assoc(t, h, n);
    Assoc(t, h + n, v);
    Assoc(h, n, v);
    Assoc(t, h + (n + v), e);
    Assoc(h, n + v, e);
    Assoc(n, v, e);
    Assoc(t, h + (n + (v + e)), b);
    Assoc(h, n + (v + e), b);
    Assoc(n, v + e, b);
  }

  lemma {:induction false} OneArg(x: Expr)
    ensures EncArgs([x]) == EncExpr(x)
  {
  }

  lemma {:induction false} ItemParts(i: Item)
    ensures EncItem(i) == HeadCode(i) + ([ItemTok(i)] + ItemRest(i))
  {
    hide EncElems, EncExpr, EncItems, EncArgs, EncBody, EncBlock, EncHStr, EncLen;
    match i
    case Assign(lhs, op, hint, rhs) =>
      OneArg(rhs);
      AssignParts(EncExpr(lhs), OpTok(op), hint, EncExpr(rhs), [VALUE_TERMINATOR]);
    case For(name, list, body) =>
      OneArg(list);
      ForParts([FOR_LOOP], EncHStr(name), EncLen(|EncExpr(list)| + 1), EncExpr(list), [VALUE_TERMINATOR], EncBody(body));
      BareUnits([FOR_LOOP], ItemRest(i));
    case Call(head, args) =>
      Assoc(EncExpr(head), [TEST_CALL], EncArgs(args));
      Assoc(EncExpr(head), [TEST_CALL] + EncArgs(args), [FUNC_TERMINATOR]);
      Assoc([TEST_CALL], EncArgs(args), [FUNC_TERMINATOR]);
    case Branch(thn, els) =>
      Assoc([BRANCH], EncBlock(thn), EncBlock(els));
      BareUnits([BRANCH], ItemRest(i));
    case Def(_, name, body) =>
      Assoc([ItemTok(i)], EncHStr(name), EncBody(body));
      BareUnits([ItemTok(i)], ItemRest(i));
    case _ =>
      BareUnits([ItemTok(i)], ItemRest(i));
      BareUnits([ItemTok(i)], HeadCode(i));
  }

  /** A sequence in the stream cut into a front, one unit and a rest. */
  lemma {:induction false} CutAt(t: seq<u16>, p: nat, code: seq<u16>, h: seq<u16>, u: u16, r: seq<u16>)
    requires At(t, p, code) && code == h + ([u] + r)
    ensures var q := p + |h|; q < |t| && t[q] == u && At(t, p, h) && At(t, q + 1, r) && |code| == |h| + 1 + |r|
  {
    hide At;
    AtConcat(t, p, h, [u] + r);
    AtUnit(t, p + |h|, u, r);
  }

  /** An item in the stream: its head if it has one, its token, and the rest. */
  lemma {:induction false} ItemAt(t: seq<u16>, p: nat, i: Item)
    requires At(t, p, EncItem(i)) && WfItem(i)
    ensures var q := p + |HeadCode(i)|;
            && q < |t| && t[q] == ItemTok(i) && At(t, q + 1, ItemRest(i))
            && |EncItem(i)| == |HeadCode(i)| + 1 + |ItemRest(i)|
            && (HasHead(i) ==> ExprAt(t, p, Head(i).elems))
  {
    if HasHead(i) {
      HeadOf(i);
    }
    hide *;
    ItemParts(i);
    CutAt(t, p, EncItem(i), HeadCode(i), ItemTok(i), ItemRest(i));
    if HasHead(i) {
      HeadAt(t, p, Head(i).elems);
    }
  }

  /** An item's head is well-formed, begins with no line marker, and its code stands in front. */
  lemma {:induction false} HeadOf(i: Item)
    requires WfItem(i) && HasHead(i)
    ensures HeadCode(i) == EncElems(Head(i).elems) && WfElems(Head(i).elems) && Ends(ItemTok(i))
    ensures Head(i).elems != [] ==> !Head(i).elems[0].ELine?
  {
    hide WfElems, EncElems, WfItems;
    assert WfHead(Head(i)) && WfExpr(Head(i));
  }

  lemma {:induction false} HeadAt(t: seq<u16>, p: nat, es: seq<Elem>)
    requires At(t, p, EncElems(es)) && WfElems(es) && p + |EncElems(es)| < |t| && Ends(t[p + |EncElems(es)|])
    ensures ExprAt(t, p, es)
  {
  }

  /** The first unit of an item tells a line marker and a head apart from the rest. */
  lemma {:induction false} ItemStart(t: seq<u16>, p: nat, i: Item)
    requires At(t, p, EncItem(i)) && WfItem(i)
    ensures p < |t| && t[p] != TERMINATOR
    ensures !Ends(t[p]) && t[p] != LINE <==> HasHead(i) && Head(i).elems != []
    ensures (HasHead(i) && Head(i).elems != []) || |HeadCode(i)| == 0
  {
    hide *;
    ItemAt(t, p, i);
    OwnToken(i);
    if HasHead(i) {
      HeadOf(i);
      ExprHead(t, p, Head(i).elems);
      if Head(i).elems != [] {
        HeadStart(t, p, Head(i).elems[0]);
      }
    }
  }

  /** An item's own token is a line marker or ends an expression. */
  lemma {:induction false} OwnToken(i: Item)
    ensures ItemTok(i) != TERMINATOR && (Ends(ItemTok(i)) || ItemTok(i) == LINE)
    ensures !HasHead(i) ==> HeadCode(i) == []
  {
  }

  lemma {:induction false} HeadStart(t: seq<u16>, p: nat, e: Elem)
    requires At(t, p, EncElem(e)) && !e.ELine?
    ensures p < |t| && t[p] != TERMINATOR && t[p] != LINE && !Ends(t[p])
  {
    hide At, EncElem;
    ElemAt(t, p, e);
  }

  lemma {:induction false} ItemsStep(t: seq<u16>, p: nat, items: seq<Item>)
    requires ItemsAt(t, p, items)
    ensures p < |t| && (t[p] == TERMINATOR <==> items == [])
    ensures items != [] ==> At(t, p, EncItem(items[0])) && WfItem(items[0])
                            && ItemsAt(t, p + |EncItem(items[0])|, items[1..])
  {
    if items == [] {
      assert EncItems(items) + [TERMINATOR] == [TERMINATOR];
      AtOne(t, p, TERMINATOR);
    } else {
      var tail := EncItems(items[1..]) + [TERMINATOR];
      assert EncItems(items) + [TERMINATOR] == EncItem(items[0]) + tail;
      AtConcat(t, p, EncItem(items[0]), tail);
      ItemStart(t, p, items[0]);
    }
  }

  function BlockLen(b: Block): nat { if b.NoBlock? then 0 else |EncItems(b.items)| + 1 }

  lemma {:induction false} BlockAt(t: seq<u16>, p: nat, b: Block)
    requires At(t, p, EncBlock(b)) && (b.Block? ==> WfItems(b.items))
    ensures At(t, p, EncLen(BlockLen(b))) && BlockLen(b) < |t|
    ensures b.Block? ==> ItemsAt(t, p + 2, b.items)
    ensures |EncBlock(b)| == 2 + BlockLen(b)
  {
    if b.Block? {
      var n := EncLen(BlockLen(b));
      assert EncBlock(b) == n + (EncItems(b.items) + [TERMINATOR]);
      AtConcat(t, p, n, EncItems(b.items) + [TERMINATOR]);
    }
  }

  lemma {:induction false} BodyAt(t: seq<u16>, p: nat, body: seq<Item>)
    requires At(t, p, EncBody(body)) && WfItems(body)
    ensures At(t, p, EncLen(|EncItems(body)| + 1)) && |EncItems(body)| + 1 < |t|
    ensures ItemsAt(t, p + 2, body) && |EncBody(body)| == |EncItems(body)| + 3
  {
    assert EncBody(body) == EncBlock(Block.Block(body));
    BlockAt(t, p, Block.Block(body));
  }

  lemma {:induction false} ForAt(t: seq<u16>, p: nat, i: Item)
    requires i.For? && At(t, p, ItemRest(i)) && WfItem(i)
    ensures var q := p + |EncHStr(i.name)|; var e := |EncExpr(i.list)| + 1;
            && At(t, p, EncHStr(i.name)) && FitsStr(i.name.s)
            && At(t, q, EncLen(e)) && e < |t|
            && ArgsAt(t, q + 2, [i.list], VALUE_TERMINATOR)
            && At(t, q + 2 + e, EncBody(i.body)) && WfItems(i.body)
            && |ItemRest(i)| == |EncHStr(i.name)| + 2 + e + |EncBody(i.body)|
  {
    var e := |EncExpr(i.list)| + 1;
    var value := EncArgs([i.list]) + [VALUE_TERMINATOR];
    AtConcat(t, p, EncHStr(i.name), EncLen(e) + (value + EncBody(i.body)));
    AtConcat(t, p + |EncHStr(i.name)|, EncLen(e), value + EncBody(i.body));
    AtConcat(t, p + |EncHStr(i.name)| + 2, value, EncBody(i.body));
    assert WfAll([i.list]);
  }

  lemma {:induction false} BranchAt(t: seq<u16>, p: nat, i: Item)
    requires i.Branch? && At(t, p, ItemRest(i)) && WfItem(i)
    ensures var q := p + 2 + BlockLen(i.thn);
      && At(t, p, EncLen(BlockLen(i.thn))) && BlockLen(i.thn) < |t|
      && At(t, q, EncLen(BlockLen(i.els))) && BlockLen(i.els) < |t|
      && (i.thn.Block? ==> ItemsAt(t, p + 2, i.thn.items)) && (i.els.Block? ==> ItemsAt(t, q + 2, i.els.items))
      && |ItemRest(i)| == 4 + BlockLen(i.thn) + BlockLen(i.els)
  {
    AtConcat(t, p, EncBlock(i.thn), EncBlock(i.els));
    BlockAt(t, p, i.thn);
    BlockAt(t, p + |EncBlock(i.thn)|, i.els);
  }

  lemma {:induction false} DefAt(t: seq<u16>, p: nat, i: Item)
    requires i.Def? && At(t, p, ItemRest(i)) && WfItem(i)
    ensures var q := p + |EncHStr(i.name)|;
      && At(t, p, EncHStr(i.name)) && FitsStr(i.name.s)
      && At(t, q, EncLen(|EncItems(i.body)| + 1)) && |EncItems(i.body)| + 1 < |t|
      && ItemsAt(t, q + 2, i.body)
      && |ItemRest(i)| == |EncHStr(i.name)| + |EncItems(i.body)| + 3
  {
    AtConcat(t, p, EncHStr(i.name), EncBody(i.body));
    BodyAt(t, p + |EncHStr(i.name)|, i.body);
  }
}
