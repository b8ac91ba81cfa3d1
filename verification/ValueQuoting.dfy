// quoteValue(), which writes a string as project source, and the built-in
// function escape_expand(), which its output uses for control characters.
module ValueQuoting {
  import opened Tokens
  import opened Characters

  // ----- quoteValue ------------------------------------------------------------------

  const EXPAND_CALL: Str := [DOLLAR, DOLLAR] + U("escape_expand") + [OPEN]
  const HASH_REF: Str := [DOLLAR, DOLLAR] + U("{LITERAL_HASH}")

  function HexDigit(n: nat): u16
    requires n < 16
  {
    if n < 10 then 48 + n else 87 + n
  }

  /** A control character, as an argument of escape_expand(). */
  function ControlText(c: u16): Str
    requires c < 32
  {
    [BACKSLASH, BACKSLASH] +
    (if c == RETURN_ then U("r")
     else if c == NEWLINE then U("n")
     else if c == TAB then U("t")
     else U("x") + [HexDigit(c / 16), HexDigit(c % 16)])
  }

  function PlainText(c: u16): Str {
    if c == BACKSLASH || c == DQUOTE || c == SQUOTE || c == DOLLAR then [BACKSLASH, c]
    else if c == HASH then HASH_REF
    else [c]
  }

  /** The text of one character; `escaping` says whether a call of escape_expand() is open. */
  function Piece(c: u16, escaping: bool): Str {
    if c < 32 then (if escaping then [] else EXPAND_CALL) + ControlText(c)
    else (if escaping then [CLOSE] else []) + PlainText(c)
  }

  function Body(s: Str, escaping: bool): Str {
    if s == [] then (if escaping then [CLOSE] else []) else Piece(s[0], escaping) + Body(s[1..], s[0] < 32)
  }

  predicate NeedsQuotes(s: Str) { s == [] || BLANK in s }

  function Quoted(s: Str): Str {
    if NeedsQuotes(s) then [DQUOTE] + Body(s, false) + [DQUOTE] else Body(s, false)
  }

  method QuoteValue(val: Str) returns (ret: Str)
    ensures ret == Quoted(val)
  {
    ret := [];
    var quote, escaping := val == [], false;
    assert val[0..] == val && [] + Body(val, false) == Body(val, false);
    hide EXPAND_CALL, ControlText, PlainText, Body;
    for i := 0 to |val|
      invariant quote == (val == [] || BLANK in val[..i])
      invariant ret + Body(val[i..], escaping) == Body(val, false)
    {
      BodyStep(val, i, escaping);
      Assoc(ret, Piece(val[i], escaping), Body(val[i + 1..], val[i] < 32));
      var piece := PutChar(val[i], escaping);
      ret := ret + piece;
      escaping := val[i] < 32;
      quote := quote || val[i] == BLANK;
    }
    assert val[..|val|] == val && val[|val|..] == [];
    BodyEnd(escaping);
    if escaping {
      ret := ret + [CLOSE];
    }
    assert ret == Body(val, false);
    if quote {
      ret := [DQUOTE] + ret + [DQUOTE];
    }
  }

  method PutChar(c: u16, escaping: bool) returns (ret: Str)
    ensures ret == Piece(c, escaping)
  {
    ret := [];
    if c < 32 {
      if !escaping {
        ret := EXPAND_CALL;
      }
      ret := ret + ControlText(c);
    } else {
      if escaping {
        ret := [CLOSE];
      }
      ret := ret + PlainText(c);
    }
  }

  lemma {:induction false} BodyEnd(escaping: bool)
    ensures Body([], escaping) == if escaping then [CLOSE] else []
  {
  }

  lemma {:induction false} BodyStep(s: Str, i: nat, escaping: bool)
    requires i < |s|
    ensures Body(s[i..], escaping) == Piece(s[i], escaping) + Body(s[i + 1..], s[i] < 32)
    ensures s[..i + 1] == s[..i] + [s[i]]
  {
    assert s[i..][1..] == s[i + 1..];
  }

  // ----- escape_expand ------------------------------------------------------------------

  function Mapped(c: u16): Option<u16> {
    if c == 110 then Some(NEWLINE) else if c == 116 then Some(TAB) else if c == 114 then Some(RETURN_) else None
  }

  /** Backslash letters expanded; a doubled backslash stays doubled. */
  function Expanded(s: Str): Str {
    if |s| < 2 then s
    else if s[0] != BACKSLASH then [s[0]] + Expanded(s[1..])
    else if s[1] == BACKSLASH then [s[0], s[1]] + Expanded(s[2..])
    else if Mapped(s[1]).Some? then [Mapped(s[1]).value] + Expanded(s[2..])
    else [s[0]] + Expanded(s[1..])
  }

  /** A character that stays, a doubled backslash, or a backslash with a letter. */
  datatype Escape = Plain(c: u16) | Doubled | NewlineEscape | TabEscape | ReturnEscape {
    function Text(): Str {
      match this
      case Plain(c) => [c]
      case Doubled => U("\\\\")
      case NewlineEscape => U("\\n")
      case TabEscape => U("\\t")
      case ReturnEscape => U("\\r")
    }

    function Value(): Str {
      match this
      case Plain(c) => [c]
      case Doubled => [BACKSLASH, BACKSLASH]
      case NewlineEscape => [NEWLINE]
      case TabEscape => [TAB]
      case ReturnEscape => [RETURN_]
    }

    /** A backslash that stays is not in front of another, or of one of the letters. */
    predicate Fits(rest: Str) {
      Plain? && c == BACKSLASH && rest != [] ==> rest[0] != BACKSLASH && rest[0] != 110 && rest[0] != 116 && rest[0] != 114
    }
  }

  function EscapesText(es: seq<Escape>): Str { if es == [] then [] else es[0].Text() + EscapesText(es[1..]) }

  function EscapesValue(es: seq<Escape>): Str { if es == [] then [] else es[0].Value() + EscapesValue(es[1..]) }

  predicate EscapesFit(es: seq<Escape>) { es != [] ==> es[0].Fits(EscapesText(es[1..])) && EscapesFit(es[1..]) }

  lemma {:induction false} OneExpanded(e: Escape, rest: Str)
    requires e.Fits(rest)
    ensures Expanded(e.Text() + rest) == e.Value() + Expanded(rest)
  {
    var s := e.Text() + rest;
    if e.Plain? {
      assert s[1..] == rest;
    } else {
      assert |e.Text()| == 2 && s[2..] == rest;
    }
  }

  lemma {:induction false} EscapesExpanded(es: seq<Escape>)
    requires EscapesFit(es)
    ensures Expanded(EscapesText(es)) == EscapesValue(es)
  {
    if es != [] {
      OneExpanded(es[0], EscapesText(es[1..]));
      EscapesExpanded(es[1..]);
    }
  }

  function FirstEscape(s: Str): Escape
    requires s != []
  {
    if s[0] != BACKSLASH || |s| == 1 then Plain(s[0])
    else if s[1] == BACKSLASH then Doubled
    else if s[1] == 110 then NewlineEscape
    else if s[1] == 116 then TabEscape
    else if s[1] == 114 then ReturnEscape
    else Plain(BACKSLASH)
  }

  lemma {:induction false} EscapesOf(s: Str) returns (es: seq<Escape>)
    ensures EscapesFit(es) && EscapesText(es) == s
    decreases |s|
  {
    es := [];
    if s != [] {
      var e := FirstEscape(s);
      var rest := s[|e.Text()|..];
      assert s == e.Text() + rest && e.Fits(rest);
      var more := EscapesOf(rest);
      es := [e] + more;
      assert es[1..] == more;
    }
  }

  /** Expanding replaces exactly the backslashes in front of the three letters, where a doubled backslash stands for itself,
      read from the left. */
  lemma {:induction false} ExpandedExactly(s: Str, r: Str)
    ensures Expanded(s) == r <==> exists es :: EscapesFit(es) && EscapesText(es) == s && EscapesValue(es) == r
  {
    if Expanded(s) == r {
      var es := EscapesOf(s);
      EscapesExpanded(es);
    }
    forall es | EscapesFit(es) && EscapesText(es) == s && EscapesValue(es) == r ensures Expanded(s) == r {
      EscapesExpanded(es);
    }
  }

  /** Moves the characters behind position `x` one place to the front. */
  method MoveDown(data: array<u16>, x: nat, len: nat)
    requires x < len <= data.Length
    modifies data
    ensures data[..x] == old(data[..x]) && data[x..len - 1] == old(data[x + 1..len])
  {
    var k := x;
    while k < len - 1
      invariant x <= k < len
      invariant forall j | 0 <= j < x :: data[j] == old(data[j])
      invariant forall j | x <= j < k :: data[j] == old(data[j + 1])
      invariant forall j | k <= j < data.Length :: data[j] == old(data[j])
    {
      data[k] := data[k + 1];
      k := k + 1;
    }
  }

  /** Expands the first `len` characters of a buffer in place. */
  method EscapeExpand(data: array<u16>, len: nat) returns (newLen: nat)
    requires len <= data.Length
    modifies data
    ensures newLen <= len && data[..newLen] == Expanded(old(data[..len]))
  {
    newLen := len;
    var x := 0;
    hide Expanded;
    while x < newLen
      invariant x <= newLen <= len
      invariant data[..x] + Expanded(data[x..newLen]) == Expanded(old(data[..len]))
      decreases newLen - x
    {
      ghost var done, rest := data[..x], data[x..newLen];
      ghost var all := Expanded(old(data[..len]));
      ExpandStep(done, rest);
      if data[x] == BACKSLASH && x < newLen - 1 {
        if data[x + 1] == BACKSLASH {
          assert data[..x + 2] == done + rest[..2] && data[x + 2..newLen] == rest[2..];
          x := x + 2;
        } else if Mapped(data[x + 1]).Some? {
          data[x] := Mapped(data[x + 1]).value;
          assert data[..x + 1] == done + [Mapped(rest[1]).value] && data[x + 2..newLen] == rest[2..];
          MoveDown(data, x + 1, newLen);
          newLen := newLen - 1;
          x := x + 1;
        } else {
          assert data[..x + 1] == done + rest[..1] && data[x + 1..newLen] == rest[1..];
          x := x + 1;
        }
      } else {
        assert data[..x + 1] == done + rest[..1] && data[x + 1..newLen] == rest[1..];
        x := x + 1;
      }
    }
    NothingExpanded();
    assert data[x..newLen] == [] && data[..x] + [] == data[..newLen];
  }

  lemma {:induction false} NothingExpanded()
    ensures Expanded([]) == []
  {
  }

  lemma {:induction false} ExpandStep(done: Str, s: Str)
    requires s != []
    ensures var one := |s| < 2 || s[0] != BACKSLASH || (s[1] != BACKSLASH && Mapped(s[1]).None?);
            && (one ==> done + Expanded(s) == (done + s[..1]) + Expanded(s[1..]))
            && (!one && s[1] == BACKSLASH ==> done + Expanded(s) == (done + s[..2]) + Expanded(s[2..]))
            && (!one && s[1] != BACKSLASH ==> done + Expanded(s) == (done + [Mapped(s[1]).value]) + Expanded(s[2..]))
  {
    if |s| == 1 {
      assert Expanded(s[1..]) == [];
    }
  }
}
