// Which texts the tokenizer accepts: exactly those of value expressions.
module ValueGrammar {
  import opened Tokens
  import opened Characters
  import ScopeMachine
  import opened ValueTokenizer
  import opened ValueText

  /** The text is read to its end without an error, a quote or a call left open. */
  predicate Accepts(hash: ScopeMachine.Hash, place: Place, text: Str, t: Scanner) {
    var u := Scan(hash, place, text, t);
    u.ok && u.quote == 0 && u.stack == []
  }

  /** Where the nodes of a place end: at the end of the text, a closing quote, a parenthesis, or a comma. */
  predicate Stops(rest: Str, w: Where) {
    if rest == [] then w.quote == 0 && !w.inArgs
    else if w.quote != 0 then rest[0] == w.quote
    else w.inArgs && (rest[0] == CLOSE || (rest[0] == COMMA && w.depth == 0))
  }

  predicate Proper(w: Where) { w.quote == 0 || w.quote == SQUOTE || w.quote == DQUOTE }

  // ----- errors stay ------------------------------------------------------------------------

  lemma {:induction false} TakeFails(hash: ScopeMachine.Hash, place: Place, text: Str, t: Scanner)
    requires text != [] && !t.ok
    ensures !TakeChar(hash, place, text, t).1.ok
  {
    hide Resolve, NameLen, SkipBlanks, Reference;
  }

  lemma {:induction false} ScanFails(hash: ScopeMachine.Hash, place: Place, text: Str, t: Scanner)
    ensures Scan(hash, place, text, t).ok ==> t.ok
    decreases |text|
  {
    if text != [] && !t.ok {
      TakeFails(hash, place, text, t);
      var r := TakeChar(hash, place, text, t);
      hide TakeChar;
      ScanFails(hash, place, r.0, r.1);
    }
  }

  lemma {:induction false} AcceptsStep(hash: ScopeMachine.Hash, place: Place, text: Str, t: Scanner)
    requires Accepts(hash, place, text, t)
    ensures t.ok && (text == [] ==> t.quote == 0 && t.stack == [])
    ensures text != [] ==> var r := TakeChar(hash, place, text, t); Accepts(hash, place, r.0, r.1) && r.1.ok
  {
    ScanFails(hash, place, text, t);
    ScanStep(hash, place, text, t);
    if text != [] {
      var r := TakeChar(hash, place, text, t);
      hide TakeChar;
      ScanFails(hash, place, r.0, r.1);
    }
  }

  lemma {:induction false} Same(hash: ScopeMachine.Hash, place: Place, a: Str, t: Scanner, b: Str, u: Scanner)
    requires Scan(hash, place, a, t) == Scan(hash, place, b, u)
    ensures Accepts(hash, place, a, t) <==> Accepts(hash, place, b, u)
  {
    hide Scan;
  }

  // ----- nodes out of text --------------------------------------------------------------------

  /** The nodes up to where they end. */
  lemma {:induction false} ParseNodes(hash: ScopeMachine.Hash, place: Place, text: Str, t: Scanner, w: Where)
    returns (nodes: seq<Node>, rest: Str)
    requires Accepts(hash, place, text, t) && Stands(t, w) && Proper(w)
    ensures text == Print(nodes) + rest && Fits(nodes, w, rest) && Stops(rest, w)
    decreases |text|, 2
  {
    hide *;
    StopsIs(text, w);
    NoNodes(w, text);
    AcceptsStep(hash, place, text, t);
    StandsIs(t, w);
    nodes, rest := [], text;
    if !Stops(text, w) {
      assert text != [];
      var n, tail := ParseNode(hash, place, text, t, w);
      var us := UnitsOf(hash, place, n, w.quote != 0);
      ScanNode(hash, place, n, w, tail, t);
      var u := FeedAll(t, us);
      Same(hash, place, text, t, tail, u);
      FeedKeeps(t, us);
      StandsIs(u, w);
      nodes, rest := ParseNodes(hash, place, tail, u, w);
      OneMore(n, nodes, w, rest);
      nodes := [n] + nodes;
    }
  }

  lemma {:induction false} StopsIs(rest: Str, w: Where)
    ensures rest == [] ==> (Stops(rest, w) <==> w.quote == 0 && !w.inArgs)
  {
  }

  lemma {:induction false} NoNodes(w: Where, rest: Str)
    ensures Fits([], w, rest) && Print([]) + rest == rest
  {
    assert [] + rest == rest;
  }

  lemma {:induction false} OneMore(n: Node, nodes: seq<Node>, w: Where, rest: Str)
    requires FitsNode(n, w, Print(nodes) + rest) && Fits(nodes, w, rest)
    ensures Fits([n] + nodes, w, rest) && Print([n] + nodes) + rest == PrintNode(n) + (Print(nodes) + rest)
  {
    hide FitsNode, PrintNode;
    assert ([n] + nodes)[1..] == nodes;
    Assoc(PrintNode(n), Print(nodes), rest);
  }

  /** The node at a place where nodes do not end. */
  lemma {:induction false} ParseNode(hash: ScopeMachine.Hash, place: Place, text: Str, t: Scanner, w: Where)
    returns (n: Node, tail: Str)
    requires Accepts(hash, place, text, t) && Stands(t, w) && Proper(w) && text != [] && !Stops(text, w)
    ensures text == PrintNode(n) + tail && FitsNode(n, w, tail) && |tail| < |text|
    decreases |text|, 1
  {
    hide Accepts, Scan, TakeChar, Fits, Print, ArgsFit, PrintArgs, NameChar;
    var c, rest := text[0], text[1..];
    assert text == [c] + rest;
    n, tail := Char(c), rest;
    if c == DOLLAR {
      if rest != [] && rest[0] == DOLLAR {
        DollarsIn(text);
        n, tail := ParseReference(hash, place, text[2..], t, w);
      }
    } else if c == BACKSLASH {
      if rest != [] && rest[0] in ESCAPABLE {
        n, tail := Escaped(rest[0]), rest[1..];
        assert text == [BACKSLASH, rest[0]] + tail;
      }
    } else if w.quote == 0 {
      if c == SQUOTE || c == DQUOTE {
        n, tail := ParseQuotes(hash, place, c, rest, t, w);
      } else if w.inArgs {
        if Blank(c) {
          n := Space(c);
        } else if c == OPEN {
          n, tail := ParseGroup(hash, place, rest, t, w);
        }
      }
    }
  }

  lemma {:induction false} DollarsIn(text: Str)
    requires |text| >= 2 && text[0] == DOLLAR && text[1] == DOLLAR
    ensures text == DOLLARS + text[2..]
  {
  }

  lemma {:induction false} ParseQuotes(hash: ScopeMachine.Hash, place: Place, q: u16, rest: Str, t: Scanner, w: Where)
    returns (n: Node, tail: Str)
    requires Accepts(hash, place, [q] + rest, t) && Stands(t, w) && w.quote == 0 && (q == SQUOTE || q == DQUOTE)
    ensures [q] + rest == PrintNode(n) + tail && FitsNode(n, w, tail) && |tail| < |rest|
    decreases |rest|, 3
  {
    hide *;
    StandsIs(t, w);
    ScanQuote(hash, place, q, rest, t);
    var u, v := t.(quote := q), w.(quote := q);
    Same(hash, place, [q] + rest, t, rest, u);
    StandsIs(u, v);
    ProperQuote(v);
    var inner, r := ParseNodes(hash, place, rest, u, v);
    StopsAtQuote(r, v);
    n, tail := Quotes(q, inner), r[1..];
    assert r == [q] + tail;
    NodeText(q, inner, w, tail);
    Longer(Print(inner), r);
  }

  lemma {:induction false} Longer(a: Str, b: Str)
    ensures |a + b| >= |b|
  {
  }

  lemma {:induction false} ProperQuote(w: Where)
    requires w.quote == SQUOTE || w.quote == DQUOTE
    ensures Proper(w)
  {
  }

  lemma {:induction false} StopsAtQuote(rest: Str, w: Where)
    requires Stops(rest, w) && (w.quote == SQUOTE || w.quote == DQUOTE)
    ensures rest != [] && rest[0] == w.quote
  {
  }

  lemma {:induction false} NodeText(q: u16, inner: seq<Node>, w: Where, tail: Str)
    requires w.quote == 0 && (q == SQUOTE || q == DQUOTE) && Fits(inner, w.(quote := q), [q] + tail)
    ensures FitsNode(Quotes(q, inner), w, tail) && PrintNode(Quotes(q, inner)) + tail == [q] + (Print(inner) + ([q] + tail))
  {
    hide Fits, Print;
    Surround([q], Print(inner), [q], tail);
  }

  lemma {:induction false} ParseGroup(hash: ScopeMachine.Hash, place: Place, rest: Str, t: Scanner, w: Where)
    returns (n: Node, tail: Str)
    requires Accepts(hash, place, [OPEN] + rest, t) && Stands(t, w) && w.quote == 0 && w.inArgs
    ensures [OPEN] + rest == PrintNode(n) + tail && FitsNode(n, w, tail) && |tail| < |rest|
    decreases |rest|, 3
  {
    hide *;
    StandsIs(t, w);
    ScanParen(hash, place, rest, t);
    var v := w.(depth := w.depth + 1);
    var u := ValueTokenizer.Put(t.(parens := t.parens + 1), OPEN);
    Same(hash, place, [OPEN] + rest, t, rest, u);
    StandsIs(t.(parens := t.parens + 1), v);
    StandsIs(u, v);
    NoQuote(v);
    var inner, r := ParseNodes(hash, place, rest, u, v);
    StopsAtParen(r, v);
    n, tail := Group(inner), r[1..];
    assert r == [CLOSE] + tail;
    GroupText(inner, w, tail);
    Longer(Print(inner), r);
  }

  lemma {:induction false} NoQuote(w: Where)
    requires w.quote == 0
    ensures Proper(w)
  {
  }

  lemma {:induction false} StopsAtParen(rest: Str, w: Where)
    requires Stops(rest, w) && w.quote == 0 && w.inArgs
    ensures rest != [] && (rest[0] == CLOSE || (rest[0] == COMMA && w.depth == 0))
  {
  }

  lemma {:induction false} GroupText(inner: seq<Node>, w: Where, tail: Str)
    requires w.quote == 0 && w.inArgs && Fits(inner, w.(depth := w.depth + 1), [CLOSE] + tail)
    ensures FitsNode(Group(inner), w, tail) && PrintNode(Group(inner)) + tail == [OPEN] + (Print(inner) + ([CLOSE] + tail))
  {
    hide Fits, Print;
    Surround([OPEN], Print(inner), [CLOSE], tail);
  }

  // ----- references and calls -------------------------------------------------------------------

  lemma {:induction false} NameTaken(text: Str, slash: bool)
    ensures var n := NameLen(text, slash);
            IsName(text[..n], slash) && text == text[..n] + text[n..] && (text[n..] == [] || !NameChar(text[n..][0], slash))
  {
    if text != [] && NameChar(text[0], slash) {
      NameTaken(text[1..], slash);
      var n := NameLen(text[1..], slash);
      assert text[..n + 1] == [text[0]] + text[1..][..n] && text[n + 1..] == text[1..][n..];
    } else {
      assert text[..0] == [] && text[0..] == text;
    }
  }

  /** How the brackets tell the forms apart. */
  lemma {:induction false} FormRead(text: Str) returns (form: Form)
    ensures var open := First(text);
            && (form == Bracketed <==> open == LBRACKET) && (form == Parenthesized <==> open == OPEN)
            && (form == Braced <==> open == LBRACE) && (form == Plain <==> Terminator(open) == 0)
            && (form != Plain ==> text != [] && Before(form) == [open] && Behind(form) == [Terminator(open)])
            && text == Before(form) + if Terminator(open) != 0 then text[1..] else text
  {
    var open := First(text);
    form := if open == LBRACKET then Bracketed else if open == OPEN then Parenthesized
            else if open == LBRACE then Braced else Plain;
    if form == Plain {
      assert [] + text == text;
    } else {
      assert text == [text[0]] + text[1..];
    }
  }

  lemma {:induction false} ClosedOk(text: Str, form: Form, term: u16, t: Scanner)
    requires if form == Plain then term == 0 else term != 0 && Behind(form) == [term]
    ensures var r := Closed(text, term, t); r.1.ok ==> text == Behind(form) + r.0
  {
    if form == Plain {
      assert [] + text == text;
    } else if text != [] && text[0] == term {
      assert text == [term] + text[1..];
    }
  }

  /** A reference or a call, behind two dollar signs. */
  lemma {:induction false} ParseReference(hash: ScopeMachine.Hash, place: Place, text: Str, t: Scanner, w: Where)
    returns (n: Node, tail: Str)
    requires Accepts(hash, place, DOLLARS + text, t)
    ensures DOLLARS + text == PrintNode(n) + tail && FitsNode(n, w, tail) && |tail| <= |text|
    decreases |text|, 4
  {
    hide *;
    var form := FormRead(text);
    var open := First(text);
    var term := Terminator(open);
    var named := if term != 0 then text[1..] else text;
    var k := NameLen(named, term != 0);
    var name, after := named[..k], named[k..];
    NameTaken(named, term != 0);
    ScanDollars(hash, place, text, t);
    ExpansionIs(hash, place, text, t);
    Shorter(text, named, after);
    if IsCall(open, First(after)) {
      CallForm(text, named, name, after, form);
      var e := Enter(place, Flush(t), term, name);
      Same(hash, place, DOLLARS + text, t, SkipBlanks(named[k + 1..]), e);
      AcceptsStep(hash, place, SkipBlanks(named[k + 1..]), e);
      Callable(place, Flush(t), term, name);
      n, tail := ParseCall(hash, place, form == Braced, name, after[1..], t, w);
      Longer(name, after);
    } else {
      var r := Closed(after, term, AddElem(Flush(t), Reference(hash, place, Flush(t), open, name)));
      Same(hash, place, DOLLARS + text, t, r.0, r.1);
      AcceptsStep(hash, place, r.0, r.1);
      ClosedOk(after, form, term, AddElem(Flush(t), Reference(hash, place, Flush(t), open, name)));
      tail := r.0;
      if form == Plain {
        PlainEnds(text, name, after);
        NothingBehind(tail);
      }
      n := RefNode(form, name, tail, w);
      Longer(Behind(form), tail);
    }
  }

  lemma {:induction false} Shorter(text: Str, named: Str, after: Str)
    requires named == (if Terminator(First(text)) != 0 then text[1..] else text)
    requires |after| <= |named|
    ensures |after| <= |text|
  {
  }

  lemma {:induction false} ExpansionIs(hash: ScopeMachine.Hash, place: Place, text: Str, t: Scanner)
    ensures var open := First(text);
            var term := Terminator(open);
            var named := if term != 0 then text[1..] else text;
            var k := NameLen(named, term != 0);
            var name, after := named[..k], named[k..];
            Expansion(hash, place, text, t) ==
            if IsCall(open, First(after)) then (SkipBlanks(named[k + 1..]), Enter(place, Flush(t), term, name))
            else Closed(after, term, AddElem(Flush(t), Reference(hash, place, Flush(t), open, name)))
  {
    hide IsCall, Flush, Enter, Closed, Reference, NameLen, SkipBlanks, Terminator;
  }

  lemma {:induction false} NothingBehind(tail: Str)
    ensures Behind(Plain) + tail == tail
  {
    assert [] + tail == tail;
  }

  lemma {:induction false} PlainEnds(text: Str, name: Str, after: Str)
    requires text == name + after && Terminator(First(text)) == 0
    requires (after == [] || !NameChar(after[0], false)) && !IsCall(First(text), First(after))
    ensures EndsName(name, after)
  {
    if name == [] {
      assert text == after;
    }
  }

  lemma {:induction false} CallForm(text: Str, named: Str, name: Str, after: Str, form: Form)
    requires var open := First(text);
             && IsCall(open, First(after)) && named == name + after
             && (form == Bracketed <==> open == LBRACKET) && (form == Parenthesized <==> open == OPEN)
             && named == if Terminator(open) != 0 then text[1..] else text
    requires form == Plain <==> Terminator(First(text)) == 0
    ensures after == [OPEN] + after[1..] && form == FormOf(form == Braced) && (form == Plain ==> name != [])
    ensures TermOf(form == Braced) == Terminator(First(text)) && (form != Plain <==> form == Braced)
    ensures Terminator(First(text)) != 0 <==> form == Braced
    ensures named[|name| + 1..] == after[1..]
  {
    assert after == [after[0]] + after[1..];
    assert name == [] ==> named == after;
  }

  lemma {:induction false} Callable(place: Place, t: Scanner, term: u16, name: Str)
    ensures Enter(place, t, term, name).ok ==> NotSpecial(name)
  {
    Specials(place, name);
    hide Resolve, SpecialName, SpecialValue;
  }

  /** The node of a reference: one of the five names, or another. */
  lemma {:induction false} RefNode(form: Form, name: Str, tail: Str, w: Where) returns (n: Node)
    requires IsName(name, form != Plain) && (form == Plain ==> EndsName(name, tail))
    ensures DOLLARS + (Before(form) + (name + (Behind(form) + tail))) == PrintNode(n) + tail && FitsNode(n, w, tail)
  {
    hide IsName, EndsName, SpecialName;
    Regroup(DOLLARS, Before(form), name, Behind(form), tail);
    if (form == Plain || form == Braced) && !NotSpecial(name) {
      var s: Special :| name == SpecialName(s);
      n := Named(form == Braced, s);
    } else {
      n := Ref(form, name);
    }
  }

  /** The closing bracket of a call. */
  lemma {:induction false} LeaveOk(hash: ScopeMachine.Hash, place: Place, braced: bool, name: Str, rest: Str, t: Scanner,
                                   u: Scanner)
    requires var e := Enter(place, t, TermOf(braced), name); u.stack == e.stack && u.quote == 0 && u.parens == 0
    requires Accepts(hash, place, [CLOSE] + rest, u)
    ensures Behind(FormOf(braced)) <= rest
  {
    ArgTaken(hash, place, CLOSE, rest, u);
    hide Accepts, Scan, AllArgs, Resolve;
    var r := ArgChar(hash, CLOSE, rest, u);
    Same(hash, place, [CLOSE] + rest, u, r.0, r.1);
    AcceptsStep(hash, place, r.0, r.1);
    assert r.1.ok && r == Leave(hash, rest, u);
    if braced {
      assert rest != [] && rest[0] == RBRACE;
    }
  }

  lemma {:induction false} ParseCall(hash: ScopeMachine.Hash, place: Place, braced: bool, name: Str, rest: Str, t: Scanner,
                                     w: Where)
    returns (n: Node, tail: Str)
    requires IsName(name, braced) && NotSpecial(name) && (!braced ==> name != [])
    requires Accepts(hash, place, DOLLARS + (Before(FormOf(braced)) + (name + ([OPEN] + rest))), t)
    ensures DOLLARS + (Before(FormOf(braced)) + (name + ([OPEN] + rest))) == PrintNode(n) + tail
    ensures FitsNode(n, w, tail) && |tail| <= |rest|
    decreases |rest|, 4
  {
    hide *;
    var t1 := Flush(t);
    var e := Enter(place, t1, TermOf(braced), name);
    ScanEnter(hash, place, braced, name, rest, t);
    EnterFresh(place, t1, TermOf(braced), name);
    Same(hash, place, DOLLARS + (Before(FormOf(braced)) + (name + ([OPEN] + rest))), t, rest, e);
    var args, r := ParseArguments(hash, place, rest, e);
    FreshIs(e);
    var u := ScanArguments(hash, place, args, r, e);
    Same(hash, place, rest, e, [CLOSE] + r, u);
    LeaveOk(hash, place, braced, name, r, t1, u);
    tail := r[|Behind(FormOf(braced))|..];
    assert r == Behind(FormOf(braced)) + tail;
    n := Node.Call(braced, name, args);
    CallText(braced, name, args, tail);
    CallFits(braced, name, args, w, tail);
    Longer(PrintArgs(args), r);
    Longer(Behind(FormOf(braced)), tail);
  }

  lemma {:induction false} CallFits(braced: bool, name: Str, args: seq<Arg>, w: Where, tail: Str)
    requires IsName(name, braced) && NotSpecial(name) && (!braced ==> name != []) && ArgsFit(args, Behind(FormOf(braced)) + tail)
    ensures FitsNode(Node.Call(braced, name, args), w, tail)
  {
    hide ArgsFit, IsName, NotSpecial;
  }

  /** The arguments of a call, up to its closing parenthesis. */
  lemma {:induction false} ParseArguments(hash: ScopeMachine.Hash, place: Place, text: Str, t: Scanner)
    returns (args: seq<Arg>, rest: Str)
    requires Accepts(hash, place, text, t) && FreshArg(t)
    ensures args != [] && text == PrintArgs(args) + rest && ArgsFit(args, rest)
    decreases |text|, 3
  {
    hide *;
    FreshStands(t);
    var nodes, r := ParseNodes(hash, place, text, t, IN_ARGS);
    InArgs();
    StopsAtParen(r, IN_ARGS);
    var us := Units(hash, place, nodes, false);
    if r[0] == CLOSE {
      args, rest := [Arg(nodes)], r[1..];
      assert r == [CLOSE] + rest;
      OneArg(nodes, rest);
    } else {
      var after := r[1..];
      assert r == [COMMA] + after;
      ScanNodes(hash, place, nodes, IN_ARGS, r, t);
      ArgRead(hash, place, nodes, t);
      var u := FeedAll(t, us);
      ScanComma(hash, place, after, u);
      var next := Flush(u).(args := u.args + [Expr.Expr(Flush(u).elems)], elems := [], newStr := true);
      Same(hash, place, text, t, after, next);
      Longer(Print(nodes), r);
      var more, last := ParseArguments(hash, place, after, next);
      args, rest := [Arg(nodes)] + more, last;
      MoreArgs(nodes, more, rest);
    }
  }

  lemma {:induction false} InArgs()
    ensures IN_ARGS.quote == 0 && IN_ARGS.inArgs && Proper(IN_ARGS)
  {
  }

  lemma {:induction false} FreshStands(t: Scanner)
    requires FreshArg(t)
    ensures Stands(t, IN_ARGS) && Proper(IN_ARGS) && t.stack != []
  {
  }

  lemma {:induction false} OneArg(nodes: seq<Node>, rest: Str)
    requires Fits(nodes, IN_ARGS, [CLOSE] + rest)
    ensures ArgsFit([Arg(nodes)], rest) && PrintArgs([Arg(nodes)]) + rest == Print(nodes) + ([CLOSE] + rest)
  {
    hide Fits, Print;
    var args := [Arg(nodes)];
    assert args[1..] == [];
    Assoc(Print(nodes), [CLOSE], rest);
  }

  lemma {:induction false} MoreArgs(nodes: seq<Node>, more: seq<Arg>, rest: Str)
    requires more != [] && ArgsFit(more, rest) && Fits(nodes, IN_ARGS, [COMMA] + (PrintArgs(more) + rest))
    ensures ArgsFit([Arg(nodes)] + more, rest)
    ensures PrintArgs([Arg(nodes)] + more) + rest == Print(nodes) + ([COMMA] + (PrintArgs(more) + rest))
  {
    var args := [Arg(nodes)] + more;
    assert args[1..] == more;
    PrintArgsStep(args, rest);
    hide Fits, Print;
  }

  // ----- the main result --------------------------------------------------------------------------

  /** A text is the text of some expression, at the top. */
  ghost predicate IsText(hash: ScopeMachine.Hash, place: Place, text: Str, x: Expr, nodes: seq<Node>) {
    Fits(nodes, TOP, []) && Print(nodes) == text && Meaning(hash, place, nodes) == x
  }

  /** The tokenizer accepts exactly the texts of value expressions, and reads each as what it stands for. */
  lemma {:induction false} ExactlyTheTexts(hash: ScopeMachine.Hash, place: Place, text: Str, x: Expr)
    ensures Tokenized(hash, place, text) == Some(x) <==> exists nodes :: IsText(hash, place, text, x, nodes)
  {
    if exists nodes :: IsText(hash, place, text, x, nodes) {
      var nodes :| IsText(hash, place, text, x, nodes);
      hide Fits, Print, Meaning, Tokenized;
      TextRoundTrips(hash, place, nodes);
    } else if Tokenized(hash, place, text) == Some(x) {
      TopStands(hash, place, text);
      hide Fits, Print, Meaning, Tokenized, Accepts, Stands;
      var nodes, rest := ParseNodes(hash, place, text, FRESH, TOP);
      assert rest == [];
      assert Print(nodes) + [] == Print(nodes);
      TextRoundTrips(hash, place, nodes);
      assert IsText(hash, place, text, x, nodes);
    }
  }

  lemma {:induction false} TopStands(hash: ScopeMachine.Hash, place: Place, text: Str)
    ensures Stands(FRESH, TOP) && Proper(TOP)
    ensures Tokenized(hash, place, text).Some? ==> Accepts(hash, place, text, FRESH)
  {
    hide Scan;
  }
}
