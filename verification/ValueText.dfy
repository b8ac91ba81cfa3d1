// The text of value expressions, and what it stands for: the tokenizer reads every
// such text back.
module ValueText {
  import opened Tokens
  import opened Characters
  import ScopeMachine
  import opened ValueTokenizer

  // ----- text ---------------------------------------------------------------------------

  /** The ways to write a reference: $$name, $${name}, $$[name] and $$(name). */
  datatype Form = Plain | Braced | Bracketed | Parenthesized

  /** What the names that the tokenizer replaces stand for. */
  datatype Special = LineNumber | FileName | HashSign | DollarSign | Tabulator

  datatype Arg = Arg(nodes: seq<Node>)

  /** A piece of text: a character, as it is or behind a backslash; a blank between the words of an argument; parentheses in
      an argument; a quoted part; a reference; a function call. */
  datatype Node =
    | Char(c: u16)
    | Escaped(c: u16)
    | Space(c: u16)
    | Group(inner: seq<Node>)
    | Quotes(q: u16, inner: seq<Node>)
    | Ref(form: Form, name: Str)
    | Named(braced: bool, special: Special)
    | Call(braced: bool, name: Str, args: seq<Arg>)

  function SpecialName(s: Special): Str {
    match s
    case LineNumber => U("_LINE_")
    case FileName => U("_FILE_")
    case HashSign => U("LITERAL_HASH")
    case DollarSign => U("LITERAL_DOLLAR")
    case Tabulator => U("LITERAL_WHITESPACE")
  }

  function SpecialValue(place: Place, s: Special): Str {
    match s
    case LineNumber => place.line
    case FileName => place.file
    case HashSign => U("#")
    case DollarSign => U("$")
    case Tabulator => [TAB]
  }

  function Before(form: Form): Str {
    match form
    case Plain => []
    case Braced => [LBRACE]
    case Bracketed => [LBRACKET]
    case Parenthesized => [OPEN]
  }

  function Behind(form: Form): Str {
    match form
    case Plain => []
    case Braced => [RBRACE]
    case Bracketed => [RBRACKET]
    case Parenthesized => [CLOSE]
  }

  const DOLLARS: Str := [DOLLAR, DOLLAR]

  function FormOf(braced: bool): Form { if braced then Braced else Plain }

  function PrintNode(n: Node): Str
    decreases n, 0
  {
    match n
    case Char(c) => [c]
    case Escaped(c) => [BACKSLASH, c]
    case Space(c) => [c]
    case Group(inner) => [OPEN] + (Print(inner) + [CLOSE])
    case Quotes(q, inner) => [q] + (Print(inner) + [q])
    case Ref(form, name) => DOLLARS + (Before(form) + (name + Behind(form)))
    case Named(braced, s) => DOLLARS + (Before(FormOf(braced)) + (SpecialName(s) + Behind(FormOf(braced))))
    case Call(braced, name, args) =>
      DOLLARS + (Before(FormOf(braced)) + (name + ([OPEN] + (PrintArgs(args) + Behind(FormOf(braced))))))
  }

  function Print(nodes: seq<Node>): Str
    decreases nodes, 1
  {
    if nodes == [] then [] else PrintNode(nodes[0]) + Print(nodes[1..])
  }

  /** The arguments up to the closing parenthesis. */
  function PrintArgs(args: seq<Arg>): Str
    decreases args, 1
  {
    if args == [] then [CLOSE]
    else Print(args[0].nodes) + if |args| == 1 then [CLOSE] else [COMMA] + PrintArgs(args[1..])
  }

  // ----- which nodes may stand where --------------------------------------------------------

  /** The open quote, if any; in the arguments of a call; in parentheses there. */
  datatype Where = Where(quote: u16, inArgs: bool, depth: nat)

  const TOP: Where := Where(0, false, 0)
  const IN_ARGS: Where := Where(0, true, 0)

  predicate IsName(name: Str, slash: bool) { forall i | 0 <= i < |name| :: NameChar(name[i], slash) }

  predicate NotSpecial(name: Str) { forall s: Special :: name != SpecialName(s) }

  /** A character that means itself, in front of `rest`. */
  predicate FitsChar(c: u16, w: Where, rest: Str) {
    && (c == DOLLAR ==> rest == [] || rest[0] != DOLLAR)
    && (c == BACKSLASH ==> rest == [] || rest[0] !in ESCAPABLE)
    && if w.quote != 0 then c != w.quote
       else
         && c != SQUOTE && c != DQUOTE
         && (w.inArgs ==> !Blank(c) && c != OPEN && c != CLOSE && (c == COMMA ==> w.depth > 0))
  }

  /** What comes behind a name without brackets: nothing that is read as part of it. */
  predicate EndsName(name: Str, rest: Str) {
    rest != [] ==> !NameChar(rest[0], false) && rest[0] != OPEN && (name == [] ==> rest[0] != LBRACE && rest[0] != LBRACKET)
  }

  predicate FitsNode(n: Node, w: Where, rest: Str)
    decreases n, 0
  {
    match n
    case Char(c) => FitsChar(c, w, rest)
    case Escaped(c) => c in ESCAPABLE
    case Space(c) => Blank(c) && w.inArgs && w.quote == 0
    case Group(inner) => w.inArgs && w.quote == 0 && Fits(inner, w.(depth := w.depth + 1), [CLOSE] + rest)
    case Quotes(q, inner) => w.quote == 0 && (q == SQUOTE || q == DQUOTE) && Fits(inner, w.(quote := q), [q] + rest)
    case Ref(form, name) =>
      && IsName(name, form != Plain) && (form == Plain ==> EndsName(name, rest))
      && (form == Plain || form == Braced ==> NotSpecial(name))
    case Named(braced, s) => !braced ==> EndsName(SpecialName(s), rest)
    case Call(braced, name, args) =>
      IsName(name, braced) && NotSpecial(name) && (!braced ==> name != []) && ArgsFit(args, Behind(FormOf(braced)) + rest)
  }

  /** The nodes may stand at a place, in front of `rest`. */
  predicate Fits(nodes: seq<Node>, w: Where, rest: Str)
    decreases nodes, 1
  {
    nodes != [] ==> FitsNode(nodes[0], w, Print(nodes[1..]) + rest) && Fits(nodes[1..], w, rest)
  }

  predicate ArgsFit(args: seq<Arg>, rest: Str)
    decreases args, 1
  {
    args != [] ==>
      && Fits(args[0].nodes, IN_ARGS, (if |args| == 1 then [CLOSE] else [COMMA] + PrintArgs(args[1..])) + rest)
      && ArgsFit(args[1..], rest)
  }

  // ----- what the text stands for -------------------------------------------------------------

  /** A letter of a literal, an element of its own, or the place where a word begins. */
  datatype Unit = Letter(c: u16) | Whole(e: Elem) | Edge

  function UnitsOf(hash: ScopeMachine.Hash, place: Place, n: Node, quoted: bool): seq<Unit>
    decreases n, 0
  {
    match n
    case Char(c) => [Letter(c)]
    case Escaped(c) => [Letter(c)]
    case Space(_) => [Edge]
    case Group(inner) => [Letter(OPEN)] + (Units(hash, place, inner, quoted) + [Letter(CLOSE)])
    case Quotes(_, inner) => Units(hash, place, inner, true)
    case Ref(form, name) =>
      [Whole(match form
             case Bracketed => Prop(quoted, false, ScopeMachine.Hashed(hash, name))
             case Parenthesized => EnvVar(quoted, false, name)
             case _ => Var(quoted, false, ScopeMachine.Hashed(hash, name)))]
    case Named(_, s) => [Whole(Lit(false, SpecialValue(place, s)))]
    case Call(_, name, args) => [Whole(Fn(quoted, false, ScopeMachine.Hashed(hash, name), ArgsMeant(hash, place, args)))]
  }

  function Units(hash: ScopeMachine.Hash, place: Place, nodes: seq<Node>, quoted: bool): seq<Unit>
    decreases nodes, 1
  {
    if nodes == [] then [] else UnitsOf(hash, place, nodes[0], quoted) + Units(hash, place, nodes[1..], quoted)
  }

  /** A single argument without elements is none. */
  function ArgsMeant(hash: ScopeMachine.Hash, place: Place, args: seq<Arg>): seq<Expr>
    decreases args, 2
  {
    var l := EachMeant(hash, place, args);
    if |l| == 1 && l[0].elems == [] then [] else l
  }

  function EachMeant(hash: ScopeMachine.Hash, place: Place, args: seq<Arg>): (l: seq<Expr>)
    ensures |l| == |args|
    decreases args, 1
  {
    if args == [] then []
    else [Expr.Expr(Assembled(Units(hash, place, args[0].nodes, false), true))] + EachMeant(hash, place, args[1..])
  }

  /** The letters in front. */
  function Letters(us: seq<Unit>): (s: Str)
    ensures |s| <= |us|
  {
    if us != [] && us[0].Letter? then [us[0].c] + Letters(us[1..]) else []
  }

  function Starting(e: Elem, newStr: bool): Elem {
    if e.ELine? then e else e.(newStr := newStr)
  }

  /** The elements: letters next to each other are one literal, and the first element behind an edge begins a word. */
  function Assembled(us: seq<Unit>, newStr: bool): seq<Elem>
    decreases |us|
  {
    if us == [] then []
    else if us[0].Edge? then Assembled(us[1..], true)
    else if us[0].Whole? then [Starting(us[0].e, newStr)] + Assembled(us[1..], false)
    else var l := Letters(us); [Lit(newStr, l)] + Assembled(us[|l|..], false)
  }

  /** The expression a text stands for. */
  function Meaning(hash: ScopeMachine.Hash, place: Place, nodes: seq<Node>): Expr {
    Expr.Expr(Assembled(Units(hash, place, nodes, false), true))
  }

  // ----- units, one at a time --------------------------------------------------------------------

  /** What a unit does to the scanner. */
  function Feed(t: Scanner, u: Unit): Scanner {
    match u
    case Letter(c) => Put(t, c)
    case Edge => Flush(t).(newStr := true)
    case Whole(e) => AddElem(Flush(t), Starting(e, Flush(t).newStr))
  }

  function FeedAll(t: Scanner, us: seq<Unit>): Scanner
    decreases us
  {
    if us == [] then t else FeedAll(Feed(t, us[0]), us[1..])
  }

  lemma {:induction false} FeedAppend(t: Scanner, a: seq<Unit>, b: seq<Unit>)
    ensures FeedAll(t, a + b) == FeedAll(FeedAll(t, a), b)
    decreases a
  {
    if a == [] {
      assert a + b == b;
    } else {
      assert (a + b)[0] == a[0] && (a + b)[1..] == a[1..] + b;
      FeedAppend(Feed(t, a[0]), a[1..], b);
    }
  }

  lemma {:induction false} FeedOne(t: Scanner, u: Unit)
    ensures FeedAll(t, [u]) == Feed(t, u)
  {
    assert [u][1..] == [];
  }

  /** Units touch nothing but the elements and the literal. */
  lemma {:induction false} FeedKeeps(t: Scanner, us: seq<Unit>)
    ensures var r := FeedAll(t, us);
            r.args == t.args && r.quote == t.quote && r.parens == t.parens && r.stack == t.stack && r.ok == t.ok
    decreases us
  {
    if us != [] {
      FeedKeeps(Feed(t, us[0]), us[1..]);
    }
  }

  lemma {:induction false} FeedInside(t: Scanner, q: u16, p: nat, us: seq<Unit>)
    ensures FeedAll(t.(quote := q, parens := p), us) == FeedAll(t, us).(quote := q, parens := p)
    decreases us
  {
    if us != [] {
      FeedInside(Feed(t, us[0]), q, p, us[1..]);
    }
  }

  function LetterUnits(l: Str): (r: seq<Unit>)
    ensures |r| == |l| && forall i | 0 <= i < |l| :: r[i] == Letter(l[i])
  {
    if l == [] then [] else [Letter(l[0])] + LetterUnits(l[1..])
  }

  lemma {:induction false} LettersOf(l: Str, us: seq<Unit>)
    requires us == [] || !us[0].Letter?
    ensures Letters(LetterUnits(l) + us) == l
  {
    if l == [] {
      assert LetterUnits(l) + us == us;
    } else {
      assert (LetterUnits(l) + us)[1..] == LetterUnits(l[1..]) + us;
      LettersOf(l[1..], us);
    }
  }

  /** A literal in front of something else. */
  lemma {:induction false} AssembledLit(l: Str, us: seq<Unit>, newStr: bool)
    requires us == [] || !us[0].Letter?
    ensures Assembled(LetterUnits(l) + us, newStr) ==
            if l == [] then Assembled(us, newStr) else [Lit(newStr, l)] + Assembled(us, false)
  {
    var all := LetterUnits(l) + us;
    if l == [] {
      assert all == us;
    } else {
      LettersOf(l, us);
      assert all[|l|..] == us;
    }
  }

  /** The elements that come of the units are those assembled of them. */
  lemma {:induction false} FeedMeans(t: Scanner, us: seq<Unit>)
    ensures Flush(FeedAll(t, us)).elems == t.elems + Assembled(LetterUnits(t.lit) + us, t.newStr)
    decreases us
  {
    hide *;
    FeedFirst(t, us);
    if us == [] {
      AssembledLit(t.lit, [], t.newStr);
      NothingAssembled(t);
    } else if us[0].Letter? {
      FeedMeans(Feed(t, us[0]), us[1..]);
      LetterUnitsSnoc(t.lit, us[0].c);
      assert us == [us[0]] + us[1..];
      assert LetterUnits(t.lit) + [us[0]] + us[1..] == LetterUnits(t.lit) + us;
    } else {
      FeedMeans(Feed(t, us[0]), us[1..]);
      AssembledLit(t.lit, us, t.newStr);
      AssembledStep(us, t.newStr);
      AssembledStep(us, false);
      NoLetterUnits(us[1..]);
      var e := t.elems;
      if t.lit != [] {
        var l := [Lit(t.newStr, t.lit)];
        ElemAssoc(e, l, Assembled(us, false));
        if us[0].Whole? {
          ElemAssoc(e + l, [Starting(us[0].e, false)], Assembled(us[1..], false));
        }
      } else if us[0].Whole? {
        ElemAssoc(e, [Starting(us[0].e, t.newStr)], Assembled(us[1..], false));
      }
    }
  }

  lemma {:induction false} ElemAssoc(a: seq<Elem>, b: seq<Elem>, c: seq<Elem>)
    ensures (a + b) + c == a + (b + c)
  {
  }

  lemma {:induction false} NoLetterUnits(us: seq<Unit>)
    ensures LetterUnits([]) + us == us
  {
  }

  lemma {:induction false} LetterUnitsSnoc(l: Str, c: u16)
    ensures LetterUnits(l + [c]) == LetterUnits(l) + [Letter(c)]
  {
  }

  lemma {:induction false} NothingAssembled(t: Scanner)
    ensures Assembled([], false) == [] && Assembled([], t.newStr) == []
    ensures t.elems + [] == t.elems && Flush(t).elems == t.elems + if t.lit == [] then [] else [Lit(t.newStr, t.lit)] + []
  {
  }

  lemma {:induction false} AssembledStep(us: seq<Unit>, newStr: bool)
    requires us != [] && !us[0].Letter?
    ensures us[0].Edge? ==> Assembled(us, newStr) == Assembled(us[1..], true)
    ensures us[0].Whole? ==> Assembled(us, newStr) == [Starting(us[0].e, newStr)] + Assembled(us[1..], false)
  {
  }

  lemma {:induction false} FeedFirst(t: Scanner, us: seq<Unit>)
    ensures us == [] ==> FeedAll(t, us) == t
    ensures us != [] ==>
              var n := Feed(t, us[0]);
              && FeedAll(t, us) == FeedAll(n, us[1..])
              && (us[0].Letter? ==> n.elems == t.elems && n.lit == t.lit + [us[0].c] && n.newStr == t.newStr)
              && (us[0].Edge? ==> n.lit == [] && n.newStr &&
                                  n.elems == t.elems + if t.lit == [] then [] else [Lit(t.newStr, t.lit)])
              && (us[0].Whole? ==> n.lit == [] && !n.newStr &&
                                   n.elems == if t.lit == [] then t.elems + [Starting(us[0].e, t.newStr)]
                                              else t.elems + [Lit(t.newStr, t.lit)] + [Starting(us[0].e, false)])
  {
    if us != [] && us[0].Edge? {
      assert t.elems + [] == t.elems;
    }
  }

  // ----- scanning ----------------------------------------------------------------------------------

  predicate Stands(t: Scanner, w: Where) {
    t.quote == w.quote && t.parens == w.depth && (t.stack != [] <==> w.inArgs)
  }

  lemma {:induction false} ScanStep(hash: ScopeMachine.Hash, place: Place, text: Str, t: Scanner)
    ensures text == [] ==> Scan(hash, place, text, t) == t
    ensures text != [] ==> var r := TakeChar(hash, place, text, t); Scan(hash, place, text, t) == Scan(hash, place, r.0, r.1)
  {
  }

  /** Blanks where a word begins anyway make no difference. */
  lemma {:induction false} ScanBlanks(hash: ScopeMachine.Hash, place: Place, text: Str, t: Scanner)
    requires t.stack != [] && t.quote == 0 && t.lit == [] && t.newStr
    ensures Scan(hash, place, SkipBlanks(text), t) == Scan(hash, place, text, t)
  {
    if text != [] && Blank(text[0]) {
      assert TakeChar(hash, place, text, t) == (SkipBlanks(text[1..]), t);
      ScanStep(hash, place, text, t);
    }
  }

  lemma {:induction false} ScanChar(hash: ScopeMachine.Hash, place: Place, c: u16, w: Where, rest: Str, t: Scanner)
    requires FitsChar(c, w, rest) && Stands(t, w)
    ensures Scan(hash, place, [c] + rest, t) == Scan(hash, place, rest, Put(t, c))
  {
    var text := [c] + rest;
    assert text[0] == c && text[1..] == rest;
    assert TakeChar(hash, place, text, t) == (rest, Put(t, c));
    hide *;
    ScanStep(hash, place, text, t);
  }

  lemma {:induction false} ScanEscaped(hash: ScopeMachine.Hash, place: Place, c: u16, rest: Str, t: Scanner)
    requires c in ESCAPABLE
    ensures Scan(hash, place, [BACKSLASH, c] + rest, t) == Scan(hash, place, rest, Put(t, c))
  {
    var text := [BACKSLASH, c] + rest;
    assert text[0] == BACKSLASH && text[1..][0] == c && text[1..][1..] == rest;
    assert TakeChar(hash, place, text, t) == (rest, Put(t, c));
    hide *;
    ScanStep(hash, place, text, t);
  }

  lemma {:induction false} ScanSpace(hash: ScopeMachine.Hash, place: Place, c: u16, rest: Str, t: Scanner)
    requires Blank(c) && t.stack != [] && t.quote == 0
    ensures Scan(hash, place, [c] + rest, t) == Scan(hash, place, rest, Feed(t, Edge))
  {
    var text := [c] + rest;
    assert text[0] == c && text[1..] == rest;
    assert TakeChar(hash, place, text, t) == (SkipBlanks(rest), Feed(t, Edge));
    ScanStep(hash, place, text, t);
    ScanBlanks(hash, place, rest, Feed(t, Edge));
  }

  /** A quote begins or ends. */
  lemma {:induction false} ScanQuote(hash: ScopeMachine.Hash, place: Place, q: u16, rest: Str, t: Scanner)
    requires q == SQUOTE || q == DQUOTE
    ensures t.quote == 0 ==> Scan(hash, place, [q] + rest, t) == Scan(hash, place, rest, t.(quote := q))
    ensures t.quote == q ==> Scan(hash, place, [q] + rest, t) == Scan(hash, place, rest, t.(quote := 0))
  {
    var text := [q] + rest;
    assert text[0] == q && text[1..] == rest;
    ScanStep(hash, place, text, t);
  }

  /** A parenthesis in an argument. */
  lemma {:induction false} ScanParen(hash: ScopeMachine.Hash, place: Place, rest: Str, t: Scanner)
    requires t.stack != [] && t.quote == 0
    ensures Scan(hash, place, [OPEN] + rest, t) == Scan(hash, place, rest, Put(t.(parens := t.parens + 1), OPEN))
    ensures t.parens > 0 ==> Scan(hash, place, [CLOSE] + rest, t) == Scan(hash, place, rest, Put(t.(parens := t.parens - 1), CLOSE))
  {
    ArgTaken(hash, place, OPEN, rest, t);
    ArgTaken(hash, place, CLOSE, rest, t);
    hide Scan, TakeChar, Leave, Flush, SkipBlanks;
  }

  /** A character in an argument that is no dollar sign, backslash or quote. */
  lemma {:induction false} ArgTaken(hash: ScopeMachine.Hash, place: Place, c: u16, rest: Str, t: Scanner)
    requires t.stack != [] && t.quote == 0 && c != DOLLAR && c != BACKSLASH && c != SQUOTE && c != DQUOTE
    ensures var r := ArgChar(hash, c, rest, t); Scan(hash, place, [c] + rest, t) == Scan(hash, place, r.0, r.1)
  {
    hide ArgChar, Scan;
    assert ([c] + rest)[1..] == rest;
    ScanStep(hash, place, [c] + rest, t);
  }

  // ----- references --------------------------------------------------------------------------------

  lemma {:induction false} NameRead(name: Str, rest: Str, slash: bool)
    requires IsName(name, slash) && (rest == [] || !NameChar(rest[0], slash))
    ensures NameLen(name + rest, slash) == |name|
  {
    if name == [] {
      assert name + rest == rest;
    } else {
      assert (name + rest)[1..] == name[1..] + rest;
      NameRead(name[1..], rest, slash);
    }
  }

  /** Two dollar signs. */
  lemma {:induction false} ScanDollars(hash: ScopeMachine.Hash, place: Place, rest: Str, t: Scanner)
    ensures var r := Expansion(hash, place, rest, t); Scan(hash, place, DOLLARS + rest, t) == Scan(hash, place, r.0, r.1)
  {
    var text := DOLLARS + rest;
    assert text[0] == DOLLAR && text[1..][0] == DOLLAR && text[1..][1..] == rest;
    assert TakeChar(hash, place, text, t) == Expansion(hash, place, rest, t);
    hide *;
    ScanStep(hash, place, text, t);
  }

  lemma {:induction false} OpensWith(form: Form, name: Str, rest: Str)
    requires IsName(name, form != Plain) && (form == Plain ==> EndsName(name, rest))
    ensures var text := Before(form) + (name + (Behind(form) + rest));
            var open := First(text);
            && (Terminator(open) != 0 <==> form != Plain)
            && (form != Plain ==> Before(form) == [open] && Behind(form) == [Terminator(open)] &&
                                  text[1..] == name + (Behind(form) + rest))
            && (form == Plain ==> text == name + rest)
            && (form == Bracketed <==> open == LBRACKET) && (form == Parenthesized <==> open == OPEN)
  {
    var tail := name + (Behind(form) + rest);
    if form == Plain {
      assert [] + tail == tail && [] + rest == rest;
      if name != [] {
        assert tail[0] == name[0] && NameChar(name[0], false);
      }
    } else {
      assert (Before(form) + tail)[1..] == tail;
    }
  }

  lemma {:induction false} ScanReference(hash: ScopeMachine.Hash, place: Place, form: Form, name: Str, rest: Str, t: Scanner)
    requires IsName(name, form != Plain) && (form == Plain ==> EndsName(name, rest))
    ensures var e := match form
                     case Bracketed => Prop(t.quote != 0, Flush(t).newStr, ScopeMachine.Hashed(hash, name))
                     case Parenthesized => EnvVar(t.quote != 0, Flush(t).newStr, name)
                     case _ => if Resolve(place, name).Some? then Lit(Flush(t).newStr, Resolve(place, name).value)
                               else Var(t.quote != 0, Flush(t).newStr, ScopeMachine.Hashed(hash, name));
            Scan(hash, place, DOLLARS + (Before(form) + (name + (Behind(form) + rest))), t) ==
            Scan(hash, place, rest, AddElem(Flush(t), e))
  {
    hide Resolve, Scan;
    var text := Before(form) + (name + (Behind(form) + rest));
    var open := First(text);
    OpensWith(form, name, rest);
    ScanDollars(hash, place, text, t);
    var after := Behind(form) + rest;
    if form == Plain {
      assert after == rest;
    } else {
      assert after[0] == Terminator(open) && after[1..] == rest;
    }
    NameRead(name, after, form != Plain);
    assert (name + after)[..|name|] == name && (name + after)[|name|..] == after;
    assert Expansion(hash, place, text, t) == Referred(hash, place, open, name + after, Flush(t));
  }

  /** The five names, and no others, are replaced. */
  lemma {:induction false} Specials(place: Place, name: Str)
    ensures forall s: Special :: Resolve(place, SpecialName(s)) == Some(SpecialValue(place, s))
    ensures NotSpecial(name) ==> Resolve(place, name) == None
  {
    assert |U("_LINE_")| == 6 && |U("_FILE_")| == 6 && U("_LINE_")[1] == 76 && U("_FILE_")[1] == 70;
    assert |U("LITERAL_HASH")| == 12 && |U("LITERAL_DOLLAR")| == 14 && |U("LITERAL_WHITESPACE")| == 18;
    assert U("#") == [HASH] && U("$") == [DOLLAR];
    if NotSpecial(name) {
      assert name != SpecialName(LineNumber) && name != SpecialName(FileName) && name != SpecialName(HashSign);
      assert name != SpecialName(DollarSign) && name != SpecialName(Tabulator);
    }
  }

  lemma {:induction false} SpecialIsName(s: Special)
    ensures IsName(SpecialName(s), false) && IsName(SpecialName(s), true)
  {
    hide IsName;
    match s {
      case LineNumber => Upper("_LINE_");
      case FileName => Upper("_FILE_");
      case HashSign => Upper("LITERAL_HASH");
      case DollarSign => Upper("LITERAL_DOLLAR");
      case Tabulator => Upper("LITERAL_WHITESPACE");
    }
  }

  lemma {:induction false} Upper(s: string)
    requires forall i | 0 <= i < |s| :: s[i] == '_' || 'A' <= s[i] <= 'Z'
    ensures IsName(U(s), false) && IsName(U(s), true)
  {
  }

  // ----- calls -----------------------------------------------------------------------------------

  /** The beginning of an argument. */
  predicate FreshArg(t: Scanner) {
    t.elems == [] && t.lit == [] && t.newStr && t.quote == 0 && t.parens == 0 && t.stack != []
  }

  function TermOf(braced: bool): u16 { if braced then RBRACE else 0 }

  lemma {:induction false} ScanEnter(hash: ScopeMachine.Hash, place: Place, braced: bool, name: Str, rest: Str, t: Scanner)
    requires IsName(name, braced) && NotSpecial(name) && (!braced ==> name != [])
    ensures FreshArg(Enter(place, Flush(t), TermOf(braced), name))
    ensures Scan(hash, place, DOLLARS + (Before(FormOf(braced)) + (name + ([OPEN] + rest))), t) ==
            Scan(hash, place, rest, Enter(place, Flush(t), TermOf(braced), name))
  {
    var after := [OPEN] + rest;
    var text := Before(FormOf(braced)) + (name + after);
    var t1 := Flush(t);
    ScanDollars(hash, place, text, t);
    NameRead(name, after, braced);
    assert (name + after)[..|name|] == name && (name + after)[|name|..] == after && (name + after)[|name| + 1..] == rest;
    if braced {
      assert text[1..] == name + after;
    } else {
      assert text == name + after && NameChar(text[0], false);
    }
    EnterFresh(place, t1, TermOf(braced), name);
    ScanBlanks(hash, place, rest, Enter(place, t1, TermOf(braced), name));
    hide Scan, Resolve, Flush, Enter;
    assert Expansion(hash, place, text, t) == Referred(hash, place, First(text), name + after, t1);
  }

  lemma {:induction false} EnterFresh(place: Place, t: Scanner, term: u16, name: Str)
    ensures FreshArg(Enter(place, t, term, name)) && Enter(place, t, term, name).args == []
  {
  }

  /** A call ends: it is an element of what was read before it. */
  lemma {:induction false} ScanLeave(hash: ScopeMachine.Hash, place: Place, braced: bool, name: Str, rest: Str, t: Scanner,
                                     u: Scanner)
    requires t.lit == [] && NotSpecial(name)
    requires var e := Enter(place, t, TermOf(braced), name); u.stack == e.stack && u.ok == e.ok && u.quote == 0 && u.parens == 0
    ensures Scan(hash, place, [CLOSE] + (Behind(FormOf(braced)) + rest), u) ==
            Scan(hash, place, rest, AddElem(t, Fn(t.quote != 0, t.newStr, ScopeMachine.Hashed(hash, name), AllArgs(Flush(u)))))
  {
    hide Scan, Resolve, AllArgs;
    Specials(place, name);
    var after := Behind(FormOf(braced)) + rest;
    ArgTaken(hash, place, CLOSE, after, u);
    assert u.stack[..|u.stack| - 1] == t.stack;
    if braced {
      assert after[0] == RBRACE && after[1..] == rest;
    } else {
      assert after == rest;
    }
  }

  lemma {:induction false} ScanComma(hash: ScopeMachine.Hash, place: Place, rest: Str, t: Scanner)
    requires t.stack != [] && t.quote == 0 && t.parens == 0
    ensures var next := Flush(t).(args := t.args + [Expr.Expr(Flush(t).elems)], elems := [], newStr := true);
            FreshArg(next) && Scan(hash, place, [COMMA] + rest, t) == Scan(hash, place, rest, next)
  {
    var next := Flush(t).(args := t.args + [Expr.Expr(Flush(t).elems)], elems := [], newStr := true);
    ArgTaken(hash, place, COMMA, rest, t);
    ScanBlanks(hash, place, rest, next);
    hide Scan, SkipBlanks;
  }

  /** The arguments that have been read when a call ends. */
  function Args(hash: ScopeMachine.Hash, place: Place, before: seq<Expr>, args: seq<Arg>): seq<Expr> {
    if before == [] then ArgsMeant(hash, place, args) else before + EachMeant(hash, place, args)
  }

  /** The elements of an argument that begins fresh. */
  lemma {:induction false} ArgRead(hash: ScopeMachine.Hash, place: Place, nodes: seq<Node>, t: Scanner)
    requires FreshArg(t)
    ensures var u := FeedAll(t, Units(hash, place, nodes, false));
            && Flush(u).elems == Assembled(Units(hash, place, nodes, false), true)
            && u.args == t.args && u.quote == 0 && u.parens == 0 && u.stack == t.stack && u.ok == t.ok
  {
    var us := Units(hash, place, nodes, false);
    hide Units, Assembled, FeedAll, Flush;
    FeedKeeps(t, us);
    FeedMeans(t, us);
    NoLetterUnits(us);
    assert [] + Assembled(us, true) == Assembled(us, true);
  }

  lemma {:induction false} ArgsStep(hash: ScopeMachine.Hash, place: Place, args: seq<Arg>)
    ensures args == [] ==> ArgsMeant(hash, place, args) == []
    ensures args != [] ==>
              var e := Expr.Expr(Assembled(Units(hash, place, args[0].nodes, false), true));
              && EachMeant(hash, place, args) == [e] + EachMeant(hash, place, args[1..])
              && (|args| == 1 ==> EachMeant(hash, place, args) == [e] &&
                                  ArgsMeant(hash, place, args) == if e.elems == [] then [] else [e])
              && (|args| > 1 ==> ArgsMeant(hash, place, args) == EachMeant(hash, place, args))
  {
    hide Units, Assembled;
  }

  lemma {:induction false} PrintArgsStep(args: seq<Arg>, rest: Str)
    ensures args == [] ==> PrintArgs(args) + rest == [CLOSE] + rest
    ensures |args| == 1 ==> PrintArgs(args) + rest == Print(args[0].nodes) + ([CLOSE] + rest)
    ensures |args| > 1 ==> PrintArgs(args) + rest == Print(args[0].nodes) + ([COMMA] + (PrintArgs(args[1..]) + rest))
    ensures |args| > 1 ==> [COMMA] + PrintArgs(args[1..]) + rest == [COMMA] + (PrintArgs(args[1..]) + rest)
  {
    if |args| > 0 {
      var l := Print(args[0].nodes);
      Assoc(l, [CLOSE], rest);
      if |args| > 1 {
        Assoc(l, [COMMA] + PrintArgs(args[1..]), rest);
        Assoc([COMMA], PrintArgs(args[1..]), rest);
      }
    }
  }

  lemma {:induction false} FitsStep(nodes: seq<Node>, w: Where, rest: Str)
    requires nodes != [] && Fits(nodes, w, rest)
    ensures FitsNode(nodes[0], w, Print(nodes[1..]) + rest) && Fits(nodes[1..], w, rest)
    ensures Print(nodes) + rest == PrintNode(nodes[0]) + (Print(nodes[1..]) + rest)
  {
    Assoc(PrintNode(nodes[0]), Print(nodes[1..]), rest);
  }

  lemma {:induction false} ArgsFitStep(args: seq<Arg>, rest: Str)
    requires args != [] && ArgsFit(args, rest)
    ensures |args| == 1 ==> Fits(args[0].nodes, IN_ARGS, [CLOSE] + rest)
    ensures |args| > 1 ==> Fits(args[0].nodes, IN_ARGS, [COMMA] + (PrintArgs(args[1..]) + rest)) && ArgsFit(args[1..], rest)
  {
    PrintArgsStep(args, rest);
  }

  lemma {:induction false} AllArgsIs(t: Scanner, before: seq<Expr>)
    requires t.args == before
    ensures AllArgs(t) == if before == [] && t.elems == [] then [] else before + [Expr.Expr(t.elems)]
  {
  }

  /** The arguments of a call, up to its closing parenthesis. */
  lemma {:induction false} ScanArguments(hash: ScopeMachine.Hash, place: Place, args: seq<Arg>, rest: Str, t: Scanner)
    returns (u: Scanner)
    requires FreshArg(t) && ArgsFit(args, rest) && (args == [] ==> t.args == [])
    ensures Scan(hash, place, PrintArgs(args) + rest, t) == Scan(hash, place, [CLOSE] + rest, u)
    ensures u.stack == t.stack && u.ok == t.ok && u.quote == 0 && u.parens == 0
    ensures AllArgs(Flush(u)) == Args(hash, place, t.args, args)
    decreases args, 1
  {
    hide Scan, Fits, ArgsFit, Print, PrintArgs, Units, EachMeant, ArgsMeant, Assembled, AllArgs, FeedAll, Flush;
    PrintArgsStep(args, rest);
    ArgsStep(hash, place, args);
    if args == [] {
      u := t;
      FlushNothing(t);
      AllArgsIs(t, []);
    } else {
      ArgsFitStep(args, rest);
      var nodes := args[0].nodes;
      ArgRead(hash, place, nodes, t);
      u := FeedAll(t, Units(hash, place, nodes, false));
      FlushKeeps(u);
      if |args| == 1 {
        ScanNodes(hash, place, nodes, IN_ARGS, [CLOSE] + rest, t);
        AllArgsIs(Flush(u), t.args);
      } else {
        var tail := PrintArgs(args[1..]) + rest;
        ScanNodes(hash, place, nodes, IN_ARGS, [COMMA] + tail, t);
        ScanComma(hash, place, tail, u);
        var e := Expr.Expr(Flush(u).elems);
        var next := Flush(u).(args := u.args + [e], elems := [], newStr := true);
        u := ScanArguments(hash, place, args[1..], rest, next);
        ExprAssoc(t.args, e, EachMeant(hash, place, args[1..]));
      }
    }
  }

  lemma {:induction false} FlushNothing(t: Scanner)
    ensures t.lit == [] ==> Flush(t) == t
  {
  }

  lemma {:induction false} FlushKeeps(t: Scanner)
    ensures var r := Flush(t);
            && r.args == t.args && r.quote == t.quote && r.parens == t.parens && r.stack == t.stack && r.ok == t.ok
            && r.lit == []
  {
  }

  lemma {:induction false} ExprAssoc(a: seq<Expr>, e: Expr, b: seq<Expr>)
    ensures (a + [e]) + b == a + ([e] + b) && [] + ([e] + b) == [e] + b
  {
  }

  // ----- nodes -----------------------------------------------------------------------------------

  lemma {:induction false} UnitsStep(hash: ScopeMachine.Hash, place: Place, nodes: seq<Node>, quoted: bool)
    ensures nodes == [] ==> Units(hash, place, nodes, quoted) == [] && Print(nodes) == []
    ensures nodes != [] ==>
              Units(hash, place, nodes, quoted) == UnitsOf(hash, place, nodes[0], quoted) + Units(hash, place, nodes[1..], quoted)
  {
    hide UnitsOf;
  }

  /** Reading the text of nodes feeds their units. */
  lemma {:induction false} ScanNodes(hash: ScopeMachine.Hash, place: Place, nodes: seq<Node>, w: Where, rest: Str, t: Scanner)
    requires Fits(nodes, w, rest) && Stands(t, w)
    ensures Scan(hash, place, Print(nodes) + rest, t) ==
            Scan(hash, place, rest, FeedAll(t, Units(hash, place, nodes, w.quote != 0)))
    decreases nodes, 1
  {
    hide Scan, Fits, FitsNode, Print, PrintNode, Units, UnitsOf, FeedAll;
    UnitsStep(hash, place, nodes, w.quote != 0);
    if nodes == [] {
      FeedNone(t);
      assert [] + rest == rest;
    } else {
      FitsStep(nodes, w, rest);
      var us := UnitsOf(hash, place, nodes[0], w.quote != 0);
      ScanNode(hash, place, nodes[0], w, Print(nodes[1..]) + rest, t);
      FeedKeeps(t, us);
      ScanNodes(hash, place, nodes[1..], w, rest, FeedAll(t, us));
      FeedAppend(t, us, Units(hash, place, nodes[1..], w.quote != 0));
    }
  }

  lemma {:induction false} FeedNone(t: Scanner)
    ensures FeedAll(t, []) == t
  {
  }

  lemma {:induction false} ScanNode(hash: ScopeMachine.Hash, place: Place, n: Node, w: Where, rest: Str, t: Scanner)
    requires FitsNode(n, w, rest) && Stands(t, w)
    ensures Scan(hash, place, PrintNode(n) + rest, t) == Scan(hash, place, rest, FeedAll(t, UnitsOf(hash, place, n, w.quote != 0)))
    decreases n, 0
  {
    hide Scan, Fits, FitsChar, ArgsFit, Print, PrintArgs, Units, ArgsMeant, FeedAll, Flush, NameChar, EndsName;
    match n {
      case Char(c) =>
        ScanChar(hash, place, c, w, rest, t);
        FeedOne(t, Letter(c));
      case Escaped(c) =>
        ScanEscaped(hash, place, c, rest, t);
        FeedOne(t, Letter(c));
      case Space(c) =>
        ScanSpace(hash, place, c, rest, t);
        FeedOne(t, Edge);
      case Group(inner) =>
        ScanGroup(hash, place, inner, w, rest, t);
      case Quotes(q, inner) =>
        ScanQuotes(hash, place, q, inner, w, rest, t);
      case Ref(form, name) =>
        ScanRef(hash, place, form, name, w, rest, t);
      case Named(braced, s) =>
        ScanNamed(hash, place, braced, s, rest, t);
      case Call(braced, name, args) =>
        ScanCall(hash, place, braced, name, args, w, rest, t);
    }
  }

  lemma {:induction false} ScanGroup(hash: ScopeMachine.Hash, place: Place, inner: seq<Node>, w: Where, rest: Str, t: Scanner)
    requires w.inArgs && w.quote == 0 && Fits(inner, w.(depth := w.depth + 1), [CLOSE] + rest) && Stands(t, w)
    ensures Scan(hash, place, [OPEN] + (Print(inner) + [CLOSE]) + rest, t) ==
            Scan(hash, place, rest, FeedAll(t, [Letter(OPEN)] + (Units(hash, place, inner, false) + [Letter(CLOSE)])))
    decreases inner, 2
  {
    hide *;
    var us := Units(hash, place, inner, false);
    Surround([OPEN], Print(inner), [CLOSE], rest);
    StandsIs(t, w);
    var t1 := ValueTokenizer.Put(t.(parens := t.parens + 1), OPEN);
    ScanParen(hash, place, Print(inner) + ([CLOSE] + rest), t);
    StandsIs(t.(parens := t.parens + 1), w.(depth := w.depth + 1));
    StandsIs(t1, w.(depth := w.depth + 1));
    ScanNodes(hash, place, inner, w.(depth := w.depth + 1), [CLOSE] + rest, t1);
    var t2 := FeedAll(t1, us);
    FeedKeeps(t1, us);
    ScanParen(hash, place, rest, t2);
    GroupFed(t, us);
  }

  lemma {:induction false} StandsIs(t: Scanner, w: Where)
    ensures Stands(t, w) <==> t.quote == w.quote && t.parens == w.depth && (t.stack != [] <==> w.inArgs)
    ensures forall c :: ValueTokenizer.Put(t, c) == t.(lit := t.lit + [c])
  {
  }

  lemma {:induction false} Surround(a: Str, b: Str, c: Str, rest: Str)
    ensures a + (b + c) + rest == a + (b + (c + rest))
  {
    Assoc(a, b + c, rest);
    Assoc(b, c, rest);
  }

  lemma {:induction false} GroupFed(t: Scanner, us: seq<Unit>)
    ensures var t2 := FeedAll(ValueTokenizer.Put(t.(parens := t.parens + 1), OPEN), us);
            FeedAll(t, [Letter(OPEN)] + (us + [Letter(CLOSE)])) == ValueTokenizer.Put(t2.(parens := t.parens), CLOSE)
  {
    var p := ValueTokenizer.Put(t, OPEN);
    FeedAppend(t, [Letter(OPEN)], us + [Letter(CLOSE)]);
    FeedOne(t, Letter(OPEN));
    FeedAppend(p, us, [Letter(CLOSE)]);
    FeedOne(FeedAll(p, us), Letter(CLOSE));
    FeedInside(p, t.quote, t.parens + 1, us);
    FeedKeeps(p, us);
    hide FeedAll;
  }

  lemma {:induction false} ScanQuotes(hash: ScopeMachine.Hash, place: Place, q: u16, inner: seq<Node>, w: Where, rest: Str,
                                      t: Scanner)
    requires w.quote == 0 && (q == SQUOTE || q == DQUOTE) && Fits(inner, w.(quote := q), [q] + rest) && Stands(t, w)
    ensures Scan(hash, place, [q] + (Print(inner) + [q]) + rest, t) ==
            Scan(hash, place, rest, FeedAll(t, Units(hash, place, inner, true)))
    decreases inner, 2
  {
    hide *;
    var us := Units(hash, place, inner, true);
    Surround([q], Print(inner), [q], rest);
    StandsIs(t, w);
    var t1 := t.(quote := q);
    ScanQuote(hash, place, q, Print(inner) + ([q] + rest), t);
    StandsIs(t1, w.(quote := q));
    ScanNodes(hash, place, inner, w.(quote := q), [q] + rest, t1);
    FeedKeeps(t1, us);
    QuoteFed(t, q, us);
    ScanQuote(hash, place, q, rest, FeedAll(t1, us));
  }

  lemma {:induction false} QuoteFed(t: Scanner, q: u16, us: seq<Unit>)
    requires t.quote == 0 && (q == SQUOTE || q == DQUOTE)
    ensures q != 0 && FeedAll(t.(quote := q), us).(quote := 0) == FeedAll(t, us)
  {
    FeedKeeps(t, us);
    FeedInside(t, q, t.parens, us);
    hide FeedAll;
    assert t.(quote := q) == t.(quote := q, parens := t.parens);
  }

  lemma {:induction false} Regroup(a: Str, b: Str, c: Str, d: Str, rest: Str)
    ensures a + (b + (c + d)) + rest == a + (b + (c + (d + rest)))
  {
    Assoc(a, b + (c + d), rest);
    Assoc(b, c + d, rest);
    Assoc(c, d, rest);
  }

  lemma {:induction false} ScanRef(hash: ScopeMachine.Hash, place: Place, form: Form, name: Str, w: Where, rest: Str, t: Scanner)
    requires IsName(name, form != Plain) && (form == Plain ==> EndsName(name, rest))
             && (form == Plain || form == Braced ==> NotSpecial(name))
    requires Stands(t, w)
    ensures Scan(hash, place, PrintNode(Ref(form, name)) + rest, t) ==
            Scan(hash, place, rest, FeedAll(t, UnitsOf(hash, place, Ref(form, name), w.quote != 0)))
  {
    hide Scan, IsName, EndsName, Resolve, Flush, FeedAll;
    Regroup(DOLLARS, Before(form), name, Behind(form), rest);
    ScanReference(hash, place, form, name, rest, t);
    Specials(place, name);
    FeedOne(t, UnitsOf(hash, place, Ref(form, name), w.quote != 0)[0]);
  }

  lemma {:induction false} ScanNamed(hash: ScopeMachine.Hash, place: Place, braced: bool, s: Special, rest: Str, t: Scanner)
    requires !braced ==> EndsName(SpecialName(s), rest)
    ensures Scan(hash, place, PrintNode(Named(braced, s)) + rest, t) ==
            Scan(hash, place, rest, FeedAll(t, [Whole(Lit(false, SpecialValue(place, s)))]))
  {
    hide Scan, IsName, EndsName, Resolve, Flush, FeedAll, SpecialName, SpecialValue;
    var form := FormOf(braced);
    Regroup(DOLLARS, Before(form), SpecialName(s), Behind(form), rest);
    SpecialIsName(s);
    Specials(place, []);
    ScanReference(hash, place, form, SpecialName(s), rest, t);
    FeedOne(t, Whole(Lit(false, SpecialValue(place, s))));
  }

  lemma {:induction false} CallText(braced: bool, name: Str, args: seq<Arg>, rest: Str)
    ensures var behind := Behind(FormOf(braced)) + rest;
            PrintNode(Node.Call(braced, name, args)) + rest ==
            DOLLARS + (Before(FormOf(braced)) + (name + ([OPEN] + (PrintArgs(args) + behind))))
  {
    hide PrintArgs;
    var a, b := PrintArgs(args), Behind(FormOf(braced));
    Regroup(DOLLARS, Before(FormOf(braced)), name, [OPEN] + (a + b), rest);
    Assoc([OPEN], a + b, rest);
    Assoc(a, b, rest);
  }

  lemma {:induction false} ScanCall(hash: ScopeMachine.Hash, place: Place, braced: bool, name: Str, args: seq<Arg>,
                                    w: Where, rest: Str, t: Scanner)
    requires IsName(name, braced) && NotSpecial(name) && (!braced ==> name != []) && ArgsFit(args, Behind(FormOf(braced)) + rest)
    requires Stands(t, w)
    ensures Scan(hash, place, PrintNode(Node.Call(braced, name, args)) + rest, t) ==
            Scan(hash, place, rest, FeedAll(t, UnitsOf(hash, place, Node.Call(braced, name, args), w.quote != 0)))
    decreases args, 2
  {
    hide *;
    var behind := Behind(FormOf(braced)) + rest;
    var t1 := Flush(t);
    FlushKeeps(t);
    StandsIs(t, w);
    CallText(braced, name, args, rest);
    ScanEnter(hash, place, braced, name, PrintArgs(args) + behind, t);
    var e := Enter(place, t1, TermOf(braced), name);
    EnterFresh(place, t1, TermOf(braced), name);
    FreshIs(e);
    var u := ScanArguments(hash, place, args, behind, e);
    ScanLeave(hash, place, braced, name, rest, t1, u);
    CallFed(hash, place, braced, name, args, t, w.quote != 0);
  }

  lemma {:induction false} FreshIs(t: Scanner)
    ensures FreshArg(t) ==> t.stack != []
  {
  }

  lemma {:induction false} CallFed(hash: ScopeMachine.Hash, place: Place, braced: bool, name: Str, args: seq<Arg>,
                                   t: Scanner, quoted: bool)
    ensures FeedAll(t, UnitsOf(hash, place, Node.Call(braced, name, args), quoted)) ==
            AddElem(Flush(t), Fn(quoted, Flush(t).newStr, ScopeMachine.Hashed(hash, name), Args(hash, place, [], args)))
  {
    hide Flush, FeedAll, ArgsMeant;
    FeedOne(t, UnitsOf(hash, place, Node.Call(braced, name, args), quoted)[0]);
  }

  // ----- the round trip -------------------------------------------------------------------------

  /** Every text is read back as the expression it stands for. */
  lemma {:induction false} TextRoundTrips(hash: ScopeMachine.Hash, place: Place, nodes: seq<Node>)
    requires Fits(nodes, TOP, [])
    ensures Tokenized(hash, place, Print(nodes)) == Some(Meaning(hash, place, nodes))
  {
    hide Fits, Print, Units, Assembled, FeedAll, Flush, Scan;
    var us := Units(hash, place, nodes, false);
    assert Print(nodes) + [] == Print(nodes);
    ScanNodes(hash, place, nodes, TOP, [], FRESH);
    ScanStep(hash, place, [], FeedAll(FRESH, us));
    FeedKeeps(FRESH, us);
    FlushKeeps(FeedAll(FRESH, us));
    FeedMeans(FRESH, us);
    NoLetterUnits(us);
    assert [] + Assembled(us, true) == Assembled(us, true);
  }
}
