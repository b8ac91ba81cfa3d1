// Reading back what quoteValue() writes: the tokenizer and the evaluator give the
// string again, exactly for the strings without unusual control characters.
module QuoteRoundTrip {
  import opened Tokens
  import opened Characters
  import opened Semantics
  import opened ValueQuoting
  import opened ValueTokenizer

  const ESCAPE_EXPAND: Str := U("escape_expand")

  /** The evaluator has the built-in function escape_expand(). */
  ghost predicate Expands(env: Env) {
    env.isExpand(ESCAPE_EXPAND) && forall a, frames :: env.expand(ESCAPE_EXPAND, [a], frames) == Some([Expanded(a)])
  }

  // ----- what is read back ----------------------------------------------------------------

  /** A control character as escape_expand() gets it. */
  function Escape(c: u16): Str
    requires c < 32
  {
    ControlText(c)[1..]
  }

  predicate Readable(c: u16) { c >= 32 || c == TAB || c == NEWLINE || c == RETURN_ }

  function ReadBack(c: u16): Str { if Readable(c) then [c] else Escape(c) }

  function ReadBackAll(s: Str): Str { if s == [] then [] else ReadBack(s[0]) + ReadBackAll(s[1..]) }

  predicate Controls(u: Str) { forall i | 0 <= i < |u| :: u[i] < 32 }

  /** The escapes of a string of control characters. */
  function Escapes(u: Str): Str
    requires Controls(u)
  {
    if u == [] then [] else Escapes(u[..|u| - 1]) + Escape(u[|u| - 1])
  }

  lemma {:induction false} ReadBackSnoc(s: Str, c: u16)
    ensures ReadBackAll(s + [c]) == ReadBackAll(s) + ReadBack(c)
  {
    if s == [] {
      assert ([c])[1..] == [];
    } else {
      assert (s + [c])[1..] == s[1..] + [c];
      ReadBackSnoc(s[1..], c);
    }
  }

  lemma {:induction false} EscapeIs(c: u16)
    requires c < 32
    ensures ControlText(c) == [BACKSLASH, BACKSLASH] + Escape(c)[1..] && Escape(c) == [BACKSLASH] + Escape(c)[1..]
    ensures Readable(c) ==> |Escape(c)| == 2 && Mapped(Escape(c)[1]) == Some(c)
    ensures !Readable(c) ==> |Escape(c)| == 4 && Escape(c)[1] == 120
                             && Escape(c)[2] == HexDigit(c / 16) && Escape(c)[3] == HexDigit(c % 16)
  {
  }

  /** Text without a backslash at its end or a doubled one is expanded piece by piece. */
  lemma {:induction false} ExpandEscape(c: u16, rest: Str)
    requires c < 32
    ensures Expanded(Escape(c) + rest) == ReadBack(c) + Expanded(rest)
  {
    EscapeIs(c);
    var e := Escape(c);
    var s := e + rest;
    if Readable(c) {
      assert s[2..] == rest;
    } else {
      assert s[1..] == [e[1], e[2], e[3]] + rest;
      assert s[1..][1..] == [e[2], e[3]] + rest;
      assert s[1..][1..][1..] == [e[3]] + rest;
      PlainExpanded(e[3], rest);
      PlainExpanded(e[2], [e[3]] + rest);
      PlainExpanded(e[1], [e[2], e[3]] + rest);
      assert Expanded(s) == [e[0]] + Expanded(s[1..]);
      assert [e[0]] + ([e[1]] + ([e[2]] + ([e[3]] + Expanded(rest)))) == e + Expanded(rest);
    }
  }

  lemma {:induction false} PlainExpanded(c: u16, rest: Str)
    requires c != BACKSLASH
    ensures Expanded([c] + rest) == [c] + Expanded(rest)
  {
    assert ([c] + rest)[1..] == rest;
  }

  lemma {:induction false} ExpandEscapes(u: Str, rest: Str)
    requires Controls(u)
    ensures Expanded(Escapes(u) + rest) == ReadBackAll(u) + Expanded(rest)
    decreases |u|
  {
    hide Expanded, Escape, ReadBack;
    if u == [] {
      assert Escapes(u) + rest == rest && ReadBackAll(u) + Expanded(rest) == Expanded(rest);
    } else {
      var v, c := u[..|u| - 1], u[|u| - 1];
      Assoc(Escapes(v), Escape(c), rest);
      ExpandEscapes(v, Escape(c) + rest);
      ExpandEscape(c, rest);
      assert v + [c] == u;
      ReadBackSnoc(v, c);
      Assoc(ReadBackAll(v), ReadBack(c), Expanded(rest));
    }
  }

  // ----- evaluating the elements ------------------------------------------------------------

  lemma {:induction false} ElemsSnoc(env: Env, fuel: nat, es: seq<Elem>, e: Elem, st: State, a: Acc)
    requires Elems(env, fuel, es, st, a, true).ret == RTrue
    ensures var o := Elems(env, fuel, es, st, a, true);
            var r := Element(env, fuel, e, o.st, o.v, true);
            r.ret == RTrue ==> Elems(env, fuel, es + [e], st, a, true) == r
    decreases es
  {
    if es == [] {
      assert (es + [e])[1..] == [];
    } else {
      assert (es + [e])[1..] == es[1..] + [e];
      var o := Element(env, fuel, es[0], st, a, true);
      ElemsSnoc(env, fuel, es[1..], e, o.st, o.v);
    }
  }

  /** The elements evaluate to the one word `w`. */
  ghost predicate Joins(env: Env, fuel: nat, st: State, es: seq<Elem>, w: Str) {
    && (es == [] <==> w == [])
    && Elems(env, fuel, es, st, Acc([[]], false), true) == Out(RTrue, st, if es == [] then Acc([[]], false) else Acc([w], true))
  }

  lemma {:induction false} JoinsLit(env: Env, fuel: nat, st: State, es: seq<Elem>, w: Str, s: Str)
    requires Joins(env, fuel, st, es, w) && s != []
    ensures Joins(env, fuel, st, es + [Lit(es == [], s)], w + s)
  {
    var e := Lit(es == [], s);
    ElemsSnoc(env, fuel, es, e, st, Acc([[]], false));
    assert [[]][0 := s] == [s];
    assert es == [] ==> w + s == s;
    assert w + [] + s == w + s;
    assert es != [] ==> [w][0 := w + s] == [w + s];
  }

  /** The call of escape_expand() in the text. */
  function Call(hash: ScopeMachine.Hash, quoted: bool, newStr: bool, arg: Str): Elem {
    Fn(quoted, newStr, ScopeMachine.Hashed(hash, ESCAPE_EXPAND), [Expr.Expr([Lit(true, arg)])])
  }

  lemma {:induction false} CallIs(env: Env, hash: ScopeMachine.Hash, fuel: nat, st: State, quoted: bool, newStr: bool,
                                  arg: Str)
    requires Expands(env)
    ensures Expand(env, fuel, ESCAPE_EXPAND, Call(hash, quoted, newStr, arg).args, st) == Out(RTrue, st, [Expanded(arg)])
  {
    var x := Expr.Expr([Lit(true, arg)]);
    assert [Lit(true, arg)][1..] == [] && [x][1..] == [];
    var a := Acc([[]], false);
    assert Element(env, fuel, Lit(true, arg), st, a, true) == Out(RTrue, st, AddStr(a, arg, true));
    assert AddStr(a, arg, true).ret == [arg];
    var b := AddStr(a, arg, true);
    assert Elems(env, fuel, [], st, b, true) == Out(RTrue, st, b);
    assert Elems(env, fuel, x.elems, st, a, true) == Out(RTrue, st, b);
    assert Semantics.Words(env, fuel, x, st, true) == Out(RTrue, st, [arg]);
    assert JoinedArgsFrom(env, fuel, [], st, [arg]) == Out(RTrue, st, [arg]);
    assert [] + [arg] == [arg];
    assert JoinedArgs(env, fuel, [x], st) == Out(RTrue, st, [arg]);
  }

  lemma {:induction false} JoinsCall(env: Env, hash: ScopeMachine.Hash, fuel: nat, st: State, es: seq<Elem>, w: Str,
                                     quoted: bool, arg: Str)
    requires Joins(env, fuel, st, es, w) && Expands(env) && Expanded(arg) != []
    ensures Joins(env, fuel, st, es + [Call(hash, quoted, es == [], arg)], w + Expanded(arg))
  {
    var e, v := Call(hash, quoted, es == [], arg), Expanded(arg);
    CallIs(env, hash, fuel, st, quoted, es == [], arg);
    ElemsSnoc(env, fuel, es, e, st, Acc([[]], false));
    hide Elems, Expand, Expanded;
    assert [[]][0 := v] == [v];
    assert es == [] ==> w + v == v;
    assert w + [] + v == w + v;
    assert es != [] ==> [w][0 := w + v] == [w + v];
  }

  // ----- scanning --------------------------------------------------------------------------------

  /** Outside a call: the scanner has read text that stands for `w` and the open literal. */
  ghost predicate Outside(env: Env, fuel: nat, st: State, t: Scanner, quote: u16, w: Str) {
    && t.stack == [] && t.args == [] && t.parens == 0 && t.ok && t.quote == quote && (t.newStr <==> t.elems == [])
    && Joins(env, fuel, st, t.elems, w)
  }

  /** In a call of escape_expand() that stands behind `outer`, with the literal `lit` read. */
  function Inside(outer: Scanner, lit: Str): Scanner {
    Scanner([], [], lit, true, 0, 0,
            [ValueTokenizer.Frame(outer.elems, [], outer.quote, 0, 0, Head(outer.quote != 0, outer.newStr, ESCAPE_EXPAND))], true)
  }

  lemma {:induction false} ScanOne(hash: ScopeMachine.Hash, place: Place, text: Str, t: Scanner)
    requires text != []
    ensures var r := TakeChar(hash, place, text, t); Scan(hash, place, text, t) == Scan(hash, place, r.0, r.1)
  {
  }

  /** A character that is not a control character, or '#', outside a call. */
  lemma {:induction false} ScanPlain(hash: ScopeMachine.Hash, place: Place, c: u16, rest: Str, t: Scanner)
    requires c >= 32 && c != HASH && t.stack == [] && (t.quote == 0 || t.quote == DQUOTE)
    ensures Scan(hash, place, PlainText(c) + rest, t) == Scan(hash, place, rest, Put(t, c))
  {
    var text := PlainText(c) + rest;
    if |PlainText(c)| == 2 {
      assert text[0] == BACKSLASH && text[1] == c && text[1..][1..] == rest;
    } else {
      assert text[0] == c && text[1..] == rest;
    }
  }

  lemma {:induction false} NameRun(name: Str, rest: Str, slash: bool)
    requires forall i | 0 <= i < |name| :: NameChar(name[i], slash)
    requires rest != [] && !NameChar(rest[0], slash)
    ensures NameLen(name + rest, slash) == |name|
  {
    if name == [] {
      assert name + rest == rest;
    } else {
      assert (name + rest)[1..] == name[1..] + rest;
      NameRun(name[1..], rest, slash);
    }
  }

  lemma {:induction false} CallName()
    ensures |ESCAPE_EXPAND| == 13 && forall i | 0 <= i < |ESCAPE_EXPAND| :: NameChar(ESCAPE_EXPAND[i], false)
    ensures forall place :: Resolve(place, ESCAPE_EXPAND) == None
  {
    assert |U("LITERAL_HASH")| == 12 && |U("LITERAL_DOLLAR")| == 14 && |U("LITERAL_WHITESPACE")| == 18;
    assert |U("_LINE_")| == 6 && |U("_FILE_")| == 6;
  }

  /** The beginning of a call. */
  lemma {:induction false} ScanCall(hash: ScopeMachine.Hash, place: Place, rest: Str, t: Scanner)
    requires t.stack == [] && t.args == [] && t.parens == 0 && t.ok && rest != [] && rest[0] == BACKSLASH
    ensures Scan(hash, place, EXPAND_CALL + rest, t) == Scan(hash, place, rest, Inside(Flush(t), []))
  {
    var name := ESCAPE_EXPAND;
    var after := [OPEN] + rest;
    var text := EXPAND_CALL + rest;
    CallName();
    assert text[2..] == name + after && text[0] == DOLLAR && text[1] == DOLLAR;
    assert text[1..][1..] == text[2..];
    NameRun(name, after, false);
    assert (name + after)[..|name|] == name && (name + after)[|name|..] == after && (name + after)[|name| + 1..] == rest;
    assert First(text[2..]) == name[0] && Terminator(name[0]) == 0;
    assert TakeChar(hash, place, text, t) == Expansion(hash, place, text[2..], t);
    assert Expansion(hash, place, text[2..], t) == Referred(hash, place, name[0], name + after, Flush(t));
    assert SkipBlanks(rest) == rest;
    assert [] + [ValueTokenizer.Frame(Flush(t).elems, [], t.quote, 0, 0, Head(t.quote != 0, Flush(t).newStr, name))] ==
           Inside(Flush(t), []).stack;
    ScanOne(hash, place, text, t);
  }

  const LITERAL_HASH: Str := U("LITERAL_HASH")

  lemma {:induction false} HashName()
    ensures |LITERAL_HASH| == 12 && forall i | 0 <= i < 12 :: NameChar(LITERAL_HASH[i], true)
    ensures forall place :: Resolve(place, LITERAL_HASH) == Some([HASH])
    ensures HASH_REF == [DOLLAR, DOLLAR, LBRACE] + LITERAL_HASH + [RBRACE]
  {
    assert |U("_LINE_")| == 6 && |U("_FILE_")| == 6;
    assert U("{LITERAL_HASH}") == [LBRACE] + LITERAL_HASH + [RBRACE];
  }

  /** A hash sign. */
  lemma {:induction false} ScanHash(hash: ScopeMachine.Hash, place: Place, rest: Str, t: Scanner)
    requires t.stack == []
    ensures Scan(hash, place, HASH_REF + rest, t) ==
            Scan(hash, place, rest, AddElem(Flush(t), Lit(Flush(t).newStr, [HASH])))
  {
    var name, after := LITERAL_HASH, [RBRACE] + rest;
    var text := HASH_REF + rest;
    HashName();
    assert text[0] == DOLLAR && text[1] == DOLLAR && text[2] == LBRACE;
    assert text[1..][1..] == text[2..] && text[2..][1..] == name + after;
    NameRun(name, after, true);
    assert (name + after)[..|name|] == name && (name + after)[|name|..] == after && after[1..] == rest;
    assert TakeChar(hash, place, text, t) == Expansion(hash, place, text[2..], t);
    assert Expansion(hash, place, text[2..], t) == Referred(hash, place, LBRACE, name + after, Flush(t));
    ScanOne(hash, place, text, t);
  }

  /** Characters without a meaning of their own in an argument. */
  predicate ArgPlain(c: u16) {
    !Blank(c) && c != OPEN && c != CLOSE && c != COMMA && c != DOLLAR && c != BACKSLASH && c != SQUOTE && c != DQUOTE
  }

  lemma {:induction false} ScanArgs(hash: ScopeMachine.Hash, place: Place, e: Str, rest: Str, t: Scanner)
    requires t.stack != [] && t.quote == 0 && forall i | 0 <= i < |e| :: ArgPlain(e[i])
    ensures Scan(hash, place, e + rest, t) == Scan(hash, place, rest, t.(lit := t.lit + e))
    decreases |e|
  {
    if e == [] {
      assert e + rest == rest && t.lit + e == t.lit;
    } else {
      var text := e + rest;
      assert text[0] == e[0] && text[1..] == e[1..] + rest;
      assert TakeChar(hash, place, text, t) == (text[1..], Put(t, e[0]));
      ScanArgs(hash, place, e[1..], rest, Put(t, e[0]));
      assert t.lit + [e[0]] + e[1..] == t.lit + e;
    }
  }

  /** A control character in a call. */
  lemma {:induction false} ScanControl(hash: ScopeMachine.Hash, place: Place, c: u16, rest: Str, t: Scanner)
    requires c < 32 && t.stack != [] && t.quote == 0
    ensures Scan(hash, place, ControlText(c) + rest, t) == Scan(hash, place, rest, t.(lit := t.lit + Escape(c)))
  {
    var e := Escape(c)[1..];
    var text := ControlText(c) + rest;
    ControlChars(c, rest);
    assert TakeChar(hash, place, text, t) == (e + rest, Put(t, BACKSLASH));
    assert Put(t, BACKSLASH) == t.(lit := t.lit + [BACKSLASH]);
    hide *;
    ScanOne(hash, place, text, t);
    ScanArgs(hash, place, e, rest, Put(t, BACKSLASH));
    assert t.lit + [BACKSLASH] + e == t.lit + Escape(c);
  }

  /** A control character's text: two backslashes and characters with no meaning of their own. */
  lemma {:induction false} ControlChars(c: u16, rest: Str)
    requires c < 32
    ensures |Escape(c)| > 1 && Escape(c) == [BACKSLASH] + Escape(c)[1..]
    ensures forall i | 0 <= i < |Escape(c)| - 1 :: ArgPlain(Escape(c)[1..][i])
    ensures var text := ControlText(c) + rest;
            |text| > 1 && text[0] == BACKSLASH && text[1] == BACKSLASH && text[1..][1..] == Escape(c)[1..] + rest
  {
    EscapeIs(c);
  }

  /** The end of a call. */
  lemma {:induction false} ScanClose(hash: ScopeMachine.Hash, place: Place, rest: Str, outer: Scanner, lit: Str)
    requires lit != [] && outer.stack == [] && outer.args == [] && outer.parens == 0 && outer.ok
    ensures Scan(hash, place, [CLOSE] + rest, Inside(outer, lit)) ==
            Scan(hash, place, rest, AddElem(outer, Call(hash, outer.quote != 0, outer.newStr, lit)).(lit := []))
  {
    var t := Inside(outer, lit);
    var text := [CLOSE] + rest;
    assert text[1..] == rest;
    assert Flush(t).elems == [Lit(true, lit)] && AllArgs(Flush(t)) == [Expr.Expr([Lit(true, lit)])];
    assert t.stack[..0] == [];
    assert Leave(hash, rest, t) == (rest, AddElem(outer, Call(hash, outer.quote != 0, outer.newStr, lit)).(lit := []));
    ScanOne(hash, place, text, t);
  }

  // ----- whole texts -------------------------------------------------------------------------------

  lemma {:induction false} Flushed(env: Env, fuel: nat, st: State, t: Scanner, quote: u16, w: Str)
    requires Outside(env, fuel, st, t, quote, w)
    ensures Outside(env, fuel, st, Flush(t), quote, w + t.lit) && Flush(t).lit == []
  {
    if t.lit == [] {
      assert w + t.lit == w;
    } else {
      JoinsLit(env, fuel, st, t.elems, w, t.lit);
    }
  }

  lemma {:induction false} HashAdded(env: Env, fuel: nat, st: State, t: Scanner, quote: u16, w: Str)
    requires Outside(env, fuel, st, t, quote, w)
    ensures Outside(env, fuel, st, AddElem(Flush(t), Lit(Flush(t).newStr, [HASH])), quote, w + t.lit + [HASH])
  {
    Flushed(env, fuel, st, t, quote, w);
    JoinsLit(env, fuel, st, Flush(t).elems, w + t.lit, [HASH]);
  }

  lemma {:induction false} EscapesExpanded(u: Str)
    requires Controls(u)
    ensures Expanded(Escapes(u)) == ReadBackAll(u) && (u != [] ==> Escapes(u) != [] && ReadBackAll(u) != [])
  {
    ExpandEscapes(u, []);
    assert Escapes(u) + [] == Escapes(u) && ReadBackAll(u) + Expanded([]) == ReadBackAll(u);
    if u != [] {
      EscapeIs(u[|u| - 1]);
      EscapeIs(u[0]);
    }
  }

  /** A finished call of escape_expand(). */
  lemma {:induction false} CallAdded(env: Env, hash: ScopeMachine.Hash, fuel: nat, st: State, outer: Scanner,
                                     quote: u16, w: Str, u: Str)
    requires Outside(env, fuel, st, outer, quote, w) && outer.lit == [] && Expands(env) && Controls(u) && u != []
    ensures Outside(env, fuel, st, AddElem(outer, Call(hash, outer.quote != 0, outer.newStr, Escapes(u))).(lit := []), quote,
                    w + ReadBackAll(u))
  {
    EscapesExpanded(u);
    JoinsCall(env, hash, fuel, st, outer.elems, w, outer.quote != 0, Escapes(u));
  }

  lemma {:induction false} BodyCons(s: Str, escaping: bool, tail: Str)
    requires s != []
    ensures s[0] >= 32 && !escaping ==> Body(s, escaping) + tail == PlainText(s[0]) + (Body(s[1..], false) + tail)
    ensures s[0] >= 32 && escaping ==> Body(s, escaping) + tail == [CLOSE] + (Body(s, false) + tail)
    ensures s[0] < 32 && escaping ==> Body(s, escaping) + tail == ControlText(s[0]) + (Body(s[1..], true) + tail)
    ensures s[0] < 32 && !escaping ==>
              Body(s, escaping) + tail == EXPAND_CALL + (ControlText(s[0]) + (Body(s[1..], true) + tail))
  {
    hide PlainText, ControlText, EXPAND_CALL;
    var b := Body(s[1..], s[0] < 32);
    if s[0] >= 32 {
      assert [CLOSE] + PlainText(s[0]) + b == [CLOSE] + (PlainText(s[0]) + b);
      assert [] + PlainText(s[0]) == PlainText(s[0]);
    } else {
      assert [] + ControlText(s[0]) == ControlText(s[0]);
    }
  }

  lemma {:induction false} ReadCons(a: Str, lit: Str, s: Str)
    requires s != []
    ensures a + lit + ReadBackAll(s) == a + lit + ReadBack(s[0]) + ReadBackAll(s[1..])
  {
    hide ReadBack;
  }

  /** Scanning the text of `s` outside a call. */
  lemma {:induction false} ScanBody(env: Env, hash: ScopeMachine.Hash, place: Place, fuel: nat, st: State, s: Str,
                                    tail: Str,
                                    t: Scanner, quote: u16, w: Str) returns (t1: Scanner, w1: Str)
    requires Outside(env, fuel, st, t, quote, w) && (quote == 0 || quote == DQUOTE) && Expands(env)
    ensures Scan(hash, place, Body(s, false) + tail, t) == Scan(hash, place, tail, t1)
    ensures Outside(env, fuel, st, t1, quote, w1) && w1 + t1.lit == w + t.lit + ReadBackAll(s)
    decreases |s|, 0
  {
    if s == [] {
      t1, w1 := t, w;
      assert Body(s, false) + tail == tail && w + t.lit + [] == w + t.lit;
    } else {
      BodyCons(s, false, tail);
      ReadCons(w, t.lit, s);
      Flushed(env, fuel, st, t, quote, w);
      HashAdded(env, fuel, st, t, quote, w);
      var rest := Body(s[1..], false) + tail;
      hide Scan, Body, PlainText, ControlText, EXPAND_CALL, ReadBackAll, Joins, Flush, Expands;
      if s[0] == HASH {
        ScanHash(hash, place, rest, t);
        t1, w1 := ScanBody(env, hash, place, fuel, st, s[1..], tail, AddElem(Flush(t), Lit(Flush(t).newStr, [s[0]])),
                           quote, w + t.lit + [s[0]]);
        assert w + t.lit + [s[0]] + [] == w + t.lit + [s[0]];
      } else if s[0] >= 32 {
        ScanPlain(hash, place, s[0], rest, t);
        t1, w1 := ScanBody(env, hash, place, fuel, st, s[1..], tail, ValueTokenizer.Put(t, s[0]), quote, w);
        assert w + (t.lit + [s[0]]) == w + t.lit + [s[0]];
      } else {
        t1, w1 := ScanFirst(env, hash, place, fuel, st, s, tail, t, quote, w);
      }
    }
  }

  lemma {:induction false} StartsWithBackslash(c: u16, rest: Str)
    requires c < 32
    ensures ControlText(c) + rest != [] && (ControlText(c) + rest)[0] == BACKSLASH
  {
  }

  lemma {:induction false} EscapesOne(u: Str, c: u16)
    requires Controls(u) && c < 32
    ensures Controls(u + [c]) && Escapes(u + [c]) == Escapes(u) + Escape(c)
  {
    assert (u + [c])[..|u|] == u;
  }

  /** A call and its first control character. */
  lemma {:induction false} ScanFirst(env: Env, hash: ScopeMachine.Hash, place: Place, fuel: nat, st: State, s: Str,
                                     tail: Str,
                                     t: Scanner, quote: u16, w: Str) returns (t1: Scanner, w1: Str)
    requires Outside(env, fuel, st, t, quote, w) && (quote == 0 || quote == DQUOTE) && Expands(env)
    requires s != [] && s[0] < 32
    ensures Scan(hash, place, Body(s, false) + tail, t) == Scan(hash, place, tail, t1)
    ensures Outside(env, fuel, st, t1, quote, w1) && w1 + t1.lit == w + t.lit + ReadBackAll(s)
    decreases |s|, -1
  {
    var c := s[0];
    var rest := Body(s[1..], true) + tail;
    BodyCons(s, false, tail);
    ReadCons(w, t.lit, s);
    Flushed(env, fuel, st, t, quote, w);
    StartsWithBackslash(c, rest);
    EscapesOne([], c);
    assert [] + [c] == [c];
    ReadBackSnoc([], c);
    hide Scan, Body, ControlText, EXPAND_CALL, Joins, Flush, Expands, ReadBack, Escape;
    ScanCall(hash, place, ControlText(c) + rest, t);
    ScanControl(hash, place, c, rest, Inside(Flush(t), []));
    t1, w1 := ScanInside(env, hash, place, fuel, st, s[1..], tail, Flush(t), quote, w + t.lit, [c]);
    assert [] + ReadBack(c) == ReadBack(c);
  }

  /** Scanning the text of `s` in a call that has read the control characters `u`. */
  lemma {:induction false} ScanInside(env: Env, hash: ScopeMachine.Hash, place: Place, fuel: nat, st: State, s: Str,
                                      tail: Str,
                                      outer: Scanner, quote: u16, w: Str, u: Str) returns (t1: Scanner, w1: Str)
    requires Outside(env, fuel, st, outer, quote, w) && outer.lit == [] && (quote == 0 || quote == DQUOTE) && Expands(env)
    requires Controls(u) && u != []
    ensures Scan(hash, place, Body(s, true) + tail, Inside(outer, Escapes(u))) == Scan(hash, place, tail, t1)
    ensures Outside(env, fuel, st, t1, quote, w1) && w1 + t1.lit == w + ReadBackAll(u) + ReadBackAll(s)
    decreases |s|, 1
  {
    if s == [] || s[0] >= 32 {
      t1, w1 := ScanLeft(env, hash, place, fuel, st, s, tail, outer, quote, w, u);
    } else {
      BodyCons(s, true, tail);
      ReadCons(w, ReadBackAll(u), s);
      ReadBackSnoc(u, s[0]);
      EscapesOne(u, s[0]);
      Assoc(w, ReadBackAll(u), ReadBack(s[0]));
      ScanControl(hash, place, s[0], Body(s[1..], true) + tail, Inside(outer, Escapes(u)));
      hide Scan, Body, ControlText, Joins, Expands, ReadBack, Escape, Escapes, ReadBackAll;
      t1, w1 := ScanInside(env, hash, place, fuel, st, s[1..], tail, outer, quote, w, u + [s[0]]);
    }
  }

  /** The call ends. */
  lemma {:induction false} ScanLeft(env: Env, hash: ScopeMachine.Hash, place: Place, fuel: nat, st: State, s: Str,
                                    tail: Str,
                                    outer: Scanner, quote: u16, w: Str, u: Str) returns (t1: Scanner, w1: Str)
    requires Outside(env, fuel, st, outer, quote, w) && outer.lit == [] && (quote == 0 || quote == DQUOTE) && Expands(env)
    requires Controls(u) && u != [] && (s == [] || s[0] >= 32)
    ensures Scan(hash, place, Body(s, true) + tail, Inside(outer, Escapes(u))) == Scan(hash, place, tail, t1)
    ensures Outside(env, fuel, st, t1, quote, w1) && w1 + t1.lit == w + ReadBackAll(u) + ReadBackAll(s)
    decreases |s|, 1, 0
  {
    EscapesExpanded(u);
    CallAdded(env, hash, fuel, st, outer, quote, w, u);
    var closed := AddElem(outer, Call(hash, outer.quote != 0, outer.newStr, Escapes(u))).(lit := []);
    ScanClose(hash, place, Body(s, false) + tail, outer, Escapes(u));
    EndOrNext(s, tail);
    t1, w1 := ScanBody(env, hash, place, fuel, st, s, tail, closed, quote, w + ReadBackAll(u));
    hide *;
    assert w + ReadBackAll(u) + [] == w + ReadBackAll(u);
  }

  lemma {:induction false} EndOrNext(s: Str, tail: Str)
    requires s == [] || s[0] >= 32
    ensures Body(s, true) + tail == [CLOSE] + (Body(s, false) + tail)
  {
    if s == [] {
      assert [CLOSE] + tail == [CLOSE] + ([] + tail);
    } else {
      BodyCons(s, true, tail);
    }
  }

  // ----- the round trip --------------------------------------------------------------------------------

  /** The strings quoteValue() is read back from: no control characters but carriage return, line feed and tab. */
  predicate AllReadable(s: Str) { forall c | c in s :: Readable(c) }

  /** Unusual control characters come back longer than they were. */
  lemma {:induction false} ReadBackLength(s: Str)
    ensures |ReadBackAll(s)| >= |s| && (ReadBackAll(s) == s <==> AllReadable(s)) && (|ReadBackAll(s)| == |s| <==> AllReadable(s))
  {
    if s != [] {
      ReadBackLength(s[1..]);
      if s[0] < 32 {
        EscapeIs(s[0]);
      }
      assert s == [s[0]] + s[1..];
    }
  }

  lemma {:induction false} QuotedScans(env: Env, hash: ScopeMachine.Hash, place: Place, fuel: nat, st: State, s: Str)
    returns (t: Scanner, w: Str)
    requires Expands(env)
    ensures Scan(hash, place, Quoted(s), FRESH) == t && Outside(env, fuel, st, t, 0, w) && w + t.lit == ReadBackAll(s)
  {
    var quote := if NeedsQuotes(s) then DQUOTE else 0;
    var tail := if NeedsQuotes(s) then [DQUOTE] else [];
    var t0 := FRESH.(quote := quote);
    assert Outside(env, fuel, st, t0, quote, []);
    t, w := ScanBody(env, hash, place, fuel, st, s, tail, t0, quote, []);
    assert [] + [] + ReadBackAll(s) == ReadBackAll(s);
    assert Body(s, false) + [] == Body(s, false);
    if NeedsQuotes(s) {
      QuotesScan(hash, place, Body(s, false), t);
      t := t.(quote := 0);
    }
  }

  lemma {:induction false} QuotesScan(hash: ScopeMachine.Hash, place: Place, body: Str, t: Scanner)
    requires t.quote == DQUOTE
    ensures Scan(hash, place, [DQUOTE] + body + [DQUOTE], FRESH) == Scan(hash, place, body + [DQUOTE], FRESH.(quote := DQUOTE))
    ensures Scan(hash, place, [DQUOTE], t) == t.(quote := 0)
  {
    var text := [DQUOTE] + body + [DQUOTE];
    assert text[1..] == body + [DQUOTE];
    ScanOne(hash, place, text, FRESH);
    assert [DQUOTE][1..] == [];
    ScanOne(hash, place, [DQUOTE], t);
  }

  /** Reading quoteValue(s) back, and evaluating it joined, gives one word; and that word is `s` if and only if `s`
      has no control characters but carriage return, line feed and tab. */
  lemma {:induction false} QuoteRoundTrips(env: Env, hash: ScopeMachine.Hash, place: Place, fuel: nat, st: State,
                                           s: Str)
    requires Expands(env)
    ensures var x := Tokenized(hash, place, Quoted(s));
            && x.Some?
            && Semantics.Words(env, fuel, x.value, st, true) == Out(RTrue, st, [ReadBackAll(s)])
            && (ReadBackAll(s) == s <==> AllReadable(s))
  {
    var t, w := QuotedScans(env, hash, place, fuel, st, s);
    Flushed(env, fuel, st, t, 0, w);
    ReadBackLength(s);
    hide Scan, Quoted, ReadBackAll;
  }
}
