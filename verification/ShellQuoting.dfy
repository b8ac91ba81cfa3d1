// Quoting an argument for a Unix shell and for the Windows command line, and the
// readers that undo it.
module ShellQuoting {
  import opened Tokens
  import opened Characters

  // ----- tables of special characters --------------------------------------------------

  const UNIX_SPECIAL: seq<nat> :=
    [0xff, 0xff, 0xff, 0xff, 0xdf, 0x07, 0x00, 0xd8, 0x00, 0x00, 0x00, 0x38, 0x01, 0x00, 0x00, 0x78]
  const WIN_SPECIAL: seq<nat> :=
    [0xff, 0xff, 0xff, 0xff, 0x45, 0x13, 0x00, 0x78, 0x00, 0x00, 0x00, 0x40, 0x00, 0x00, 0x00, 0x10]
  const WIN_META: seq<nat> :=
    [0x00, 0x00, 0x00, 0x00, 0x40, 0x03, 0x00, 0x50, 0x00, 0x00, 0x00, 0x40, 0x00, 0x00, 0x00, 0x10]

  function Bit(k: nat): nat
    requires k < 8
    ensures Bit(k) > 0
  {
    [1, 2, 4, 8, 16, 32, 64, 128][k]
  }

  predicate IsSpecialChar(c: u16, table: seq<nat>)
    requires |table| == 16
  {
    c < 128 && table[c / 8] / Bit(c % 8) % 2 == 1
  }

  method HasSpecialChars(arg: Str, table: seq<nat>) returns (found: bool)
    requires |table| == 16
    ensures found <==> exists c :: c in arg && IsSpecialChar(c, table)
  {
    var x := |arg| - 1;
    while x >= 0
      invariant -1 <= x < |arg|
      invariant forall i | x < i < |arg| :: !IsSpecialChar(arg[i], table)
    {
      if IsSpecialChar(arg[x], table) {
        return true;
      }
      x := x - 1;
    }
    return false;
  }

  /** Characters that mean something to a POSIX shell outside quotes (POSIX Shell Command Language, section 2.2). */
  predicate ShellChar(c: u16) {
    c == TAB || c == NEWLINE || c == BLANK || c == DQUOTE || c == SQUOTE || c == BACKSLASH
    || c == 33 || c == 35 || c == 36 || c == 38 || 40 <= c <= 42 || 59 <= c <= 60 || 62 <= c <= 63
    || c == 91 || c == 93 || c == 96 || 123 <= c <= 126
  }

  lemma {:induction false} UnixTable(c: u16)
    requires ShellChar(c)
    ensures IsSpecialChar(c, UNIX_SPECIAL)
  {
    var bits := UNIX_SPECIAL[c / 8];
    assert bits / Bit(c % 8) % 2 == 1;
  }

  /** Characters that mean something to cmd.exe outside quotes: &()<>^| */
  predicate MetaChar(c: u16) { c == 38 || c == 40 || c == 41 || c == 60 || c == 62 || c == CARET || c == 124 }

  lemma {:induction false} WinTable(c: u16)
    ensures MetaChar(c) ==> IsSpecialChar(c, WIN_META)
    ensures MetaChar(c) || c == DQUOTE || c == BLANK || c == TAB ==> IsSpecialChar(c, WIN_SPECIAL)
    ensures !IsSpecialChar(DQUOTE, WIN_META)
  {
    if MetaChar(c) || c == DQUOTE || c == BLANK || c == TAB {
      var meta, special := WIN_META[c / 8], WIN_SPECIAL[c / 8];
      assert special / Bit(c % 8) % 2 == 1 && (MetaChar(c) ==> meta / Bit(c % 8) % 2 == 1);
    }
  }

  // ----- Unix ----------------------------------------------------------------------------

  /** Each single quote as the end of the quotes, an escaped quote, and a new beginning. */
  function SplitQuotes(s: Str): Str {
    if s == [] then []
    else (if s[0] == SQUOTE then [SQUOTE, BACKSLASH, SQUOTE, SQUOTE] else [s[0]]) + SplitQuotes(s[1..])
  }

  method ShellQuoteUnix(arg: Str) returns (ret: Str)
    ensures ShellWords(ret) == Some([arg])
  {
    if arg == [] {
      ret := [SQUOTE, SQUOTE];
      EmptyRead();
      return;
    }
    ret := arg;
    var special := HasSpecialChars(ret, UNIX_SPECIAL);
    if special {
      ret := SplitQuotes(ret);
      ret := [SQUOTE] + ret;
      ret := ret + [SQUOTE];
      QuotedRead(arg);
    } else {
      forall i | 0 <= i < |arg| ensures !ShellChar(arg[i]) {
        if ShellChar(arg[i]) { UnixTable(arg[i]); }
      }
      PlainRead(arg, None);
      assert [] + arg == arg;
    }
  }

  /** A shell's words: blanks separate them, single quotes and backslashes quote. None if some character that is not
      quoted has another meaning, or a quote is left open. */
  function ShellWords(text: Str): Option<seq<Str>> { Words(text, false, None) }

  /** In front of `text`, in the word `word` if there is one, in single quotes if `quoted`. */
  function Words(text: Str, quoted: bool, word: Option<Str>): Option<seq<Str>>
    decreases |text|
  {
    if text == [] then (if quoted then None else Some(if word.Some? then [word.value] else []))
    else
      var w := if word.Some? then word.value else [];
      var c := text[0];
      if quoted then Words(text[1..], c != SQUOTE, Some(if c == SQUOTE then w else w + [c]))
      else if c == SQUOTE then Words(text[1..], true, Some(w))
      else if c == BACKSLASH then
        if |text| == 1 || text[1] == NEWLINE then None else Words(text[2..], false, Some(w + [text[1]]))
      else if c == BLANK || c == TAB || c == NEWLINE then
        var rest := Words(text[1..], false, None);
        if rest.None? then None else Some((if word.Some? then [word.value] else []) + rest.value)
      else if ShellChar(c) then None
      else Words(text[1..], false, Some(w + [c]))
  }

  lemma {:induction false} EmptyRead()
    ensures ShellWords([SQUOTE, SQUOTE]) == Some([[]])
  {
    assert [SQUOTE, SQUOTE][1..] == [SQUOTE] && [SQUOTE][1..] == [];
    assert Words([SQUOTE], true, Some([])) == Words([], false, Some([]));
  }

  lemma {:induction false} PlainRead(s: Str, word: Option<Str>)
    requires forall i | 0 <= i < |s| :: !ShellChar(s[i])
    requires s != [] || word.Some?
    ensures Words(s, false, word) == Some([(if word.Some? then word.value else []) + s])
    decreases |s|
  {
    var w := if word.Some? then word.value else [];
    if s == [] {
      assert w + [] == w;
    } else {
      PlainRead(s[1..], Some(w + [s[0]]));
      assert w + [s[0]] + s[1..] == w + s;
    }
  }

  lemma {:induction false} InQuotes(s: Str, w: Str)
    ensures Words(SplitQuotes(s) + [SQUOTE], true, Some(w)) == Some([w + s])
    decreases |s|
  {
    if s == [] {
      assert SplitQuotes(s) + [SQUOTE] == [SQUOTE] && [SQUOTE][1..] == [] && w + s == w;
      assert Words([], false, Some(w)) == Some([w]);
    } else {
      var rest := SplitQuotes(s[1..]) + [SQUOTE];
      InQuotes(s[1..], w + [s[0]]);
      assert w + [s[0]] + s[1..] == w + s;
      hide SplitQuotes;
      SplitFirst(s, rest);
      if s[0] == SQUOTE {
        Requoted(rest, w);
      } else {
        assert ([s[0]] + rest)[1..] == rest;
      }
    }
  }

  lemma {:induction false} SplitFirst(s: Str, rest: Str)
    requires s != [] && rest == SplitQuotes(s[1..]) + [SQUOTE]
    ensures SplitQuotes(s) + [SQUOTE] == (if s[0] == SQUOTE then [SQUOTE, BACKSLASH, SQUOTE, SQUOTE] else [s[0]]) + rest
  {
  }

  /** A quote in the text: the quotes are left, an escaped quote is read, and they are entered again. */
  lemma {:induction false} Requoted(rest: Str, w: Str)
    ensures Words([SQUOTE, BACKSLASH, SQUOTE, SQUOTE] + rest, true, Some(w)) == Words(rest, true, Some(w + [SQUOTE]))
  {
    var text := [SQUOTE, BACKSLASH, SQUOTE, SQUOTE] + rest;
    assert text[1..] == [BACKSLASH, SQUOTE, SQUOTE] + rest;
    assert text[1..][2..] == [SQUOTE] + rest && ([SQUOTE] + rest)[1..] == rest;
    assert Words(text, true, Some(w)) == Words(text[1..], false, Some(w));
    assert Words(text[1..], false, Some(w)) == Words([SQUOTE] + rest, false, Some(w + [SQUOTE]));
  }

  lemma {:induction false} QuotedRead(s: Str)
    ensures ShellWords([SQUOTE] + SplitQuotes(s) + [SQUOTE]) == Some([s])
  {
    InQuotes(s, []);
    var text := [SQUOTE] + SplitQuotes(s) + [SQUOTE];
    assert text[1..] == SplitQuotes(s) + [SQUOTE];
    assert [] + s == s;
  }

  // ----- Windows -----------------------------------------------------------------------------

  /** The backslashes at the beginning. */
  function Run(s: Str): (n: nat)
    ensures n <= |s| && (n < |s| ==> s[n] != BACKSLASH)
    ensures forall i | 0 <= i < n :: s[i] == BACKSLASH
  {
    if s == [] || s[0] != BACKSLASH then 0 else 1 + Run(s[1..])
  }

  /** Each quote with a backslash in front of it, and the backslashes in front of it doubled. */
  function EscapeQuotes(s: Str): Str
    decreases |s|
  {
    var n := Run(s);
    if n == |s| then s
    else if s[n] == DQUOTE then s[..n] + s[..n] + [BACKSLASH, DQUOTE] + EscapeQuotes(s[n + 1..])
    else s[..n + 1] + EscapeQuotes(s[n + 1..])
  }

  /** The backslashes at the end. */
  function Trail(s: Str): (n: nat)
    ensures n <= |s|
  {
    if s == [] || s[|s| - 1] != BACKSLASH then 0 else 1 + Trail(s[..|s| - 1])
  }

  function DoubleAtEnd(s: Str): Str { s + s[|s| - Trail(s)..] }

  /** The backslashes at the end doubled. The end is also in front of a last newline. */
  function DoubleTrailing(s: Str): Str {
    if s != [] && s[|s| - 1] == NEWLINE then DoubleAtEnd(s[..|s| - 1]) + [NEWLINE] else DoubleAtEnd(s)
  }

  /** A caret in front of each character that cmd.exe would interpret; `quoted` is its quoting state. */
  function Carets(s: Str, quoted: bool): Str {
    if s == [] then []
    else
      (if s[0] != DQUOTE && !quoted && IsSpecialChar(s[0], WIN_META) then [CARET, s[0]] else [s[0]])
      + Carets(s[1..], if s[0] == DQUOTE then !quoted else quoted)
  }

  function EndQuoted(s: Str, quoted: bool): bool {
    if s == [] then quoted else EndQuoted(s[1..], if s[0] == DQUOTE then !quoted else quoted)
  }

  ghost predicate WinSpecial(s: Str) { exists c :: c in s && IsSpecialChar(c, WIN_SPECIAL) }

  ghost function WinQuoted(s: Str): Str {
    if s == [] then [DQUOTE, DQUOTE]
    else if !WinSpecial(s) then s
    else
      var e := DoubleTrailing(EscapeQuotes(s));
      [DQUOTE] + Carets(e, true) + (if EndQuoted(e, true) then [] else [CARET]) + [DQUOTE]
  }

  method ShellQuoteWin(arg: Str) returns (ret: Str)
    ensures ret == WinQuoted(arg)
  {
    if arg == [] {
      return [DQUOTE, DQUOTE];
    }
    ret := arg;
    var special := HasSpecialChars(ret, WIN_SPECIAL);
    if special {
      ret := EscapeQuotes(ret);
      ret := DoubleTrailing(ret);
      var quoted;
      ret, quoted := PutCarets(ret);
      hide *;
      ghost var all := ret;
      if !quoted {
        ret := ret + [CARET];
      }
      ret := ret + [DQUOTE];
      ret := [DQUOTE] + ret;
      Quoted(all, quoted);
    }
  }

  lemma {:induction false} Quoted(text: Str, quoted: bool)
    ensures [DQUOTE] + ((if quoted then text else text + [CARET]) + [DQUOTE]) ==
            [DQUOTE] + text + (if quoted then [] else [CARET]) + [DQUOTE]
  {
  }

  method PutCarets(text: Str) returns (ret: Str, quoted: bool)
    ensures ret == Carets(text, true) && quoted == EndQuoted(text, true)
  {
    quoted, ret := true, text;
    var i := 0;
    ghost var done, rest := [], text;
    hide IsSpecialChar, Carets, EndQuoted;
    while i < |ret|
      invariant ret == done + rest && i == |done|
      invariant done + Carets(rest, quoted) == Carets(text, true) && EndQuoted(rest, quoted) == EndQuoted(text, true)
      decreases |ret| - i
    {
      var c := ret[i];
      assert c == rest[0];
      CaretStep(done, rest, quoted);
      if c == DQUOTE {
        quoted := !quoted;
        done := done + [c];
      } else if !quoted && IsSpecialChar(c, WIN_META) {
        ret := ret[..i] + [CARET] + ret[i..];
        i := i + 1;
        done := done + [CARET, c];
      } else {
        done := done + [c];
      }
      rest := rest[1..];
      i := i + 1;
    }
    CaretEnd(quoted);
    assert rest == [] && ret == done;
  }

  lemma {:induction false} CaretStep(done: Str, rest: Str, quoted: bool)
    requires rest != []
    ensures var c := rest[0];
            var put := if c != DQUOTE && !quoted && IsSpecialChar(c, WIN_META) then [CARET, c] else [c];
            var now := if c == DQUOTE then !quoted else quoted;
            && done + Carets(rest, quoted) == (done + put) + Carets(rest[1..], now)
            && EndQuoted(rest, quoted) == EndQuoted(rest[1..], now)
  {
    var c := rest[0];
    var put := if c != DQUOTE && !quoted && IsSpecialChar(c, WIN_META) then [CARET, c] else [c];
    var tail := Carets(rest[1..], if c == DQUOTE then !quoted else quoted);
    assert && Carets(rest, quoted) == put + tail
           && EndQuoted(rest, quoted) == EndQuoted(rest[1..], if c == DQUOTE then !quoted else quoted) by {
      hide IsSpecialChar;
    }
    hide *;
    Assoc(done, put, tail);
  }

  lemma {:induction false} CaretEnd(quoted: bool)
    ensures Carets([], quoted) == [] && EndQuoted([], quoted) == quoted
  {
  }

  // The reader: cmd.exe takes carets out, then the program's own rules split the command line.

  /** What cmd.exe passes down: None if it would interpret some character. */
  function CmdStrip(text: Str, quoted: bool): Option<Str>
    decreases |text|
  {
    if text == [] then Some([])
    else if text[0] == DQUOTE then Prepend(DQUOTE, CmdStrip(text[1..], !quoted))
    else if !quoted && text[0] == CARET then
      if |text| == 1 then None else Prepend(text[1], CmdStrip(text[2..], quoted))
    else if !quoted && MetaChar(text[0]) then None
    else Prepend(text[0], CmdStrip(text[1..], quoted))
  }

  function Prepend(c: u16, o: Option<Str>): Option<Str> { if o.Some? then Some([c] + o.value) else None }

  /** Splitting a command line: backslashes quote a quote behind them, and each other; two quotes in quotes are one. */
  function Argv(text: Str, quoted: bool, word: Option<Str>): seq<Str>
    decreases |text|, 1
  {
    ArgvAfter(text, Run(text), quoted, word)
  }

  /** What follows the first `n` backslashes. */
  function ArgvAfter(text: Str, n: nat, quoted: bool, word: Option<Str>): seq<Str>
    requires n <= |text|
    decreases |text|, 0
  {
    var w := if word.Some? then word.value else [];
    if n == |text| then (if n == 0 && word.None? then [] else [w + text])
    else if text[n] == DQUOTE && n % 2 == 1 then Argv(text[n + 1..], quoted, Some(w + text[..n / 2] + [DQUOTE]))
    else if text[n] == DQUOTE then
      if quoted && n + 1 < |text| && text[n + 1] == DQUOTE then
        Argv(text[n + 2..], true, Some(w + text[..n / 2] + [DQUOTE]))
      else Argv(text[n + 1..], !quoted, Some(w + text[..n / 2]))
    else if !quoted && (text[n] == BLANK || text[n] == TAB) then
      (if n > 0 || word.Some? then [w + text[..n]] else []) + Argv(text[n + 1..], false, None)
    else Argv(text[n + 1..], quoted, Some(w + text[..n + 1]))
  }

  function CommandLine(text: Str): Option<seq<Str>> {
    var o := CmdStrip(text, false);
    if o.Some? then Some(Argv(o.value, false, None)) else None
  }

  function Before(s: Str, o: Option<Str>): Option<Str> { if o.Some? then Some(s + o.value) else None }

  lemma {:induction false} BeforeCons(c: u16, s: Str, o: Option<Str>)
    ensures Prepend(c, Before(s, o)) == Before([c] + s, o)
  {
    if o.Some? {
      assert [c] + (s + o.value) == [c] + s + o.value;
    }
  }

  /** Taking the carets out gives the text again. */
  lemma {:induction false} CaretsStripped(s: Str, tail: Str, quoted: bool)
    ensures CmdStrip(Carets(s, quoted) + tail, quoted) == Before(s, CmdStrip(tail, EndQuoted(s, quoted)))
    decreases |s|
  {
    var end := CmdStrip(tail, EndQuoted(s, quoted));
    if s == [] {
      assert Carets(s, quoted) + tail == tail;
      assert end.Some? ==> s + end.value == end.value;
    } else {
      var now := if s[0] == DQUOTE then !quoted else quoted;
      CaretsStripped(s[1..], tail, now);
      CaretFirst(s, tail, quoted);
      StripFirst(s[0], Carets(s[1..], now) + tail, quoted);
      BeforeCons(s[0], s[1..], end);
      assert [s[0]] + s[1..] == s;
      assert EndQuoted(s, quoted) == EndQuoted(s[1..], now);
      hide CmdStrip, Carets, IsSpecialChar, Before, Prepend, EndQuoted;
    }
  }

  lemma {:induction false} CaretFirst(s: Str, tail: Str, quoted: bool)
    requires s != []
    ensures var now := if s[0] == DQUOTE then !quoted else quoted;
            Carets(s, quoted) + tail ==
            (if s[0] != DQUOTE && !quoted && IsSpecialChar(s[0], WIN_META) then [CARET, s[0]] else [s[0]]) + (Carets(s[1..], now) + tail)
  {
    hide IsSpecialChar;
  }

  lemma {:induction false} StripFirst(c: u16, rest: Str, quoted: bool)
    ensures var put := if c != DQUOTE && !quoted && IsSpecialChar(c, WIN_META) then [CARET, c] else [c];
            CmdStrip(put + rest, quoted) == Prepend(c, CmdStrip(rest, if c == DQUOTE then !quoted else quoted))
  {
    WinTable(c);
    WinTable(CARET);
    hide IsSpecialChar;
    var put := if c != DQUOTE && !quoted && IsSpecialChar(c, WIN_META) then [CARET, c] else [c];
    assert (put + rest)[|put|..] == rest;
  }

  // Backslashes and quotes.

  /** EscapeQuotes and DoubleTrailing in one go. */
  function Escaped(s: Str): Str
    decreases |s|
  {
    var n := Run(s);
    if n == |s| then s + s
    else if s[n] == DQUOTE then s[..n] + s[..n] + [BACKSLASH, DQUOTE] + Escaped(s[n + 1..])
    else s[..n + 1] + Escaped(s[n + 1..])
  }

  lemma {:induction false} TrailAppend(a: Str, b: Str)
    requires b != [] && (a == [] || a[|a| - 1] != BACKSLASH)
    ensures Trail(a + b) == Trail(b)
    decreases |b|
  {
    assert (a + b)[..|a + b| - 1] == a + b[..|b| - 1];
    if b[|b| - 1] == BACKSLASH {
      if |b| == 1 {
        assert a + b[..0] == a;
      } else {
        TrailAppend(a, b[..|b| - 1]);
      }
    }
  }

  lemma {:induction false} TrailAll(s: Str)
    requires Run(s) == |s|
    ensures Trail(s) == |s|
  {
    if s != [] {
      RunPrefix(s);
      TrailAll(s[..|s| - 1]);
    }
  }

  lemma {:induction false} RunPrefix(s: Str)
    requires s != [] && Run(s) == |s|
    ensures Run(s[..|s| - 1]) == |s| - 1
  {
    if |s| > 1 {
      assert s[1..][..|s| - 2] == s[..|s| - 1][1..];
      RunPrefix(s[1..]);
    }
  }

  lemma {:induction false} DoubleAppend(a: Str, b: Str)
    requires a != [] && a[|a| - 1] != BACKSLASH
    ensures DoubleAtEnd(a + b) == a + DoubleAtEnd(b)
  {
    var n := if b == [] then 0 else Trail(b);
    if b == [] {
      assert a + b == a;
    } else {
      TrailAppend(a, b);
    }
    assert Trail(a + b) == n && Trail(b) == n;
    assert DoubleAtEnd(b) == b + b[|b| - n..] && DoubleAtEnd(a + b) == (a + b) + (a + b)[|a + b| - n..];
    hide *;
    assert (a + b)[|a + b| - n..] == b[|b| - n..];
    Assoc(a, b, b[|b| - n..]);
  }

  /** The first quote or other character that is no backslash, and the backslashes in front. */
  lemma {:induction false} FirstEscaped(s: Str, head: Str)
    requires Run(s) < |s|
    requires var n := Run(s); head == if s[n] == DQUOTE then s[..n] + s[..n] + [BACKSLASH, DQUOTE] else s[..n + 1]
    ensures var n := Run(s);
            EscapeQuotes(s) == head + EscapeQuotes(s[n + 1..]) && Escaped(s) == head + Escaped(s[n + 1..])
    ensures head != [] && head[|head| - 1] != BACKSLASH
  {
  }

  lemma {:induction false} DoubledAll(s: Str)
    requires Run(s) == |s|
    ensures DoubleAtEnd(s) == s + s && Escaped(s) == s + s && EscapeQuotes(s) == s
  {
    TrailAll(s);
    assert s[|s| - |s|..] == s;
  }

  lemma {:induction false} EscapedIs(s: Str)
    ensures DoubleAtEnd(EscapeQuotes(s)) == Escaped(s)
    decreases |s|
  {
    hide *;
    var n := Run(s);
    RunBounds(s);
    if n == |s| {
      DoubledAll(s);
    } else {
      EscapedIs(s[n + 1..]);
      var head := if s[n] == DQUOTE then s[..n] + s[..n] + [BACKSLASH, DQUOTE] else s[..n + 1];
      FirstEscaped(s, head);
      DoubleAppend(head, EscapeQuotes(s[n + 1..]));
    }
  }

  /** EscapeQuotes goes from left to right. */
  lemma {:induction false} EscapeLast(t: Str, c: u16)
    ensures c != DQUOTE ==> EscapeQuotes(t + [c]) == EscapeQuotes(t) + [c]
    ensures c == DQUOTE ==> EscapeQuotes(t + [c]) != [] && EscapeQuotes(t + [c])[|EscapeQuotes(t + [c])| - 1] == DQUOTE
    decreases |t|
  {
    hide *;
    var n, s := Run(t), t + [c];
    RunLast(t, c);
    RunBounds(t);
    if n == |t| {
      EscapeRun(t, c);
    } else {
      EscapeLast(t[n + 1..], c);
      var head := if t[n] == DQUOTE then t[..n] + t[..n] + [BACKSLASH, DQUOTE] else t[..n + 1];
      Ends(t, c, n);
      FirstEscaped(t, head);
      FirstEscaped(s, head);
      Assoc(head, EscapeQuotes(t[n + 1..]), [c]);
      LastOf(head, EscapeQuotes(t[n + 1..] + [c]));
    }
  }

  lemma {:induction false} RunBounds(t: Str)
    ensures Run(t) <= |t|
  {
  }

  lemma {:induction false} LastOf(a: Str, b: Str)
    ensures b != [] ==> a + b != [] && (a + b)[|a + b| - 1] == b[|b| - 1]
  {
  }

  lemma {:induction false} Ends(t: Str, c: u16, n: nat)
    requires n < |t|
    ensures var s := t + [c];
            && s[n + 1..] == t[n + 1..] + [c] && s[..n] == t[..n] && s[..n + 1] == t[..n + 1] && s[n] == t[n]
  {
  }

  /** A character behind nothing but backslashes. */
  lemma {:induction false} EscapeRun(t: Str, c: u16)
    requires Run(t) == |t|
    ensures EscapeQuotes(t) == t
    ensures EscapeQuotes(t + [c]) == if c == DQUOTE then t + t + [BACKSLASH, DQUOTE] else t + [c]
  {
    var s := t + [c];
    RunLast(t, c);
    assert s[..|t| + 1] == s && s[|t| + 1..] == [] && s[..|t|] == t;
    assert EscapeQuotes([]) == [];
    Assoc(t, t, [BACKSLASH, DQUOTE]);
  }

  lemma {:induction false} RunLast(t: Str, c: u16)
    ensures Run(t + [c]) == if Run(t) < |t| then Run(t) else if c == BACKSLASH then |t| + 1 else |t|
  {
    if t == [] {
      assert t + [c] == [c] && [c][1..] == [];
    } else {
      assert (t + [c])[1..] == t[1..] + [c];
      RunLast(t[1..], c);
    }
  }

  /** What comes back: the argument, with the backslashes in front of a last newline doubled. */
  function ReadBack(s: Str): Str {
    if s != [] && s[|s| - 1] == NEWLINE then DoubleAtEnd(s[..|s| - 1]) + [NEWLINE] else s
  }

  lemma {:induction false} EscapedAsRead(s: Str)
    ensures DoubleTrailing(EscapeQuotes(s)) == Escaped(ReadBack(s))
  {
    if s != [] {
      var t, c := s[..|s| - 1], s[|s| - 1];
      assert s == t + [c];
      EscapeLast(t, c);
      if c == NEWLINE {
        assert (EscapeQuotes(t) + [NEWLINE])[..|EscapeQuotes(t)|] == EscapeQuotes(t);
        EscapedIs(t);
        BeforeNewline(t);
        return;
      }
    }
    EscapedIs(s);
  }

  /** A newline behind backslashes at the end leaves the doubled ones as they are. */
  lemma {:induction false} BeforeNewline(t: Str)
    ensures Escaped(t) + [NEWLINE] == Escaped(DoubleAtEnd(t) + [NEWLINE])
    decreases |t|
  {
    var n := Run(t);
    hide *;
    RunBounds(t);
    if n == |t| {
      RunBeforeNewline(t);
    } else {
      var front, back := t[..n + 1], t[n + 1..];
      var rest := DoubleAtEnd(back) + [NEWLINE];
      var head := if t[n] == DQUOTE then t[..n] + t[..n] + [BACKSLASH, DQUOTE] else front;
      FrontBack(t, n);
      DoubleAppend(front, back);
      Assoc(front, DoubleAtEnd(back), [NEWLINE]);
      BeforeNewline(back);
      SameFront(t, rest);
      Assoc(head, Escaped(back), [NEWLINE]);
    }
  }

  lemma {:induction false} FrontBack(t: Str, n: nat)
    requires n == Run(t) < |t|
    ensures t == t[..n + 1] + t[n + 1..] && t[..n + 1] != [] && t[..n + 1][|t[..n + 1]| - 1] == t[n] != BACKSLASH
  {
  }

  lemma {:induction false} RunBeforeNewline(t: Str)
    requires Run(t) == |t|
    ensures Escaped(t) + [NEWLINE] == Escaped(DoubleAtEnd(t) + [NEWLINE])
  {
    DoubledAll(t);
    var longer := t + t + [NEWLINE];
    RunTwice(t);
    assert longer[..|t| + |t| + 1] == longer && longer[|t| + |t| + 1..] == [] && Escaped([]) == [];
  }

  lemma {:induction false} RunTwice(t: Str)
    requires Run(t) == |t|
    ensures Run(t + t + [NEWLINE]) == |t| + |t|
  {
    RunAppend(t, t + [NEWLINE]);
    RunAppend(t, [NEWLINE]);
    Assoc(t, t, [NEWLINE]);
  }

  lemma {:induction false} SameFront(t: Str, rest: Str)
    requires Run(t) < |t|
    ensures var n := Run(t);
            var head := if t[n] == DQUOTE then t[..n] + t[..n] + [BACKSLASH, DQUOTE] else t[..n + 1];
            Escaped(t) == head + Escaped(t[n + 1..]) && Escaped(t[..n + 1] + rest) == head + Escaped(rest)
  {
    var n := Run(t);
    var s := t[..n + 1] + rest;
    RunTake(t, n);
    assert s == t[..n] + ([t[n]] + rest);
    RunAppend(t[..n], [t[n]] + rest);
    assert Run(s) == n && s[n] == t[n] && s[..n] == t[..n] && s[..n + 1] == t[..n + 1] && s[n + 1..] == rest;
  }

  lemma {:induction false} RunAppend(a: Str, b: Str)
    requires Run(a) == |a|
    ensures Run(a + b) == |a| + Run(b)
  {
    if a == [] {
      assert a + b == b;
    } else {
      assert (a + b)[1..] == a[1..] + b;
      RunAppend(a[1..], b);
    }
  }

  lemma {:induction false} RunTake(s: Str, n: nat)
    requires n <= Run(s)
    ensures Run(s[..n]) == n
  {
    if n > 0 {
      assert s[..n][1..] == s[1..][..n - 1];
      RunTake(s[1..], n - 1);
    }
  }

  /** Splitting gives the argument back, up to the quote that closes it. */
  lemma {:induction false} EscapedRead(s: Str, w: Str)
    ensures Argv(Escaped(s) + [DQUOTE], true, Some(w)) == [w + s]
    decreases |s|
  {
    hide *;
    var n := Run(s);
    if n == |s| {
      DoubledAll(s);
      ClosingRead(s, w);
    } else {
      EscapedRead(s[n + 1..], w + s[..n] + [s[n]]);
      EscapedMore(s, n, w);
    }
  }

  lemma {:induction false} EscapedMore(s: Str, n: nat, w: Str)
    requires n == Run(s) < |s|
    requires Argv(Escaped(s[n + 1..]) + [DQUOTE], true, Some(w + s[..n] + [s[n]])) == [w + s[..n] + [s[n]] + s[n + 1..]]
    ensures Argv(Escaped(s) + [DQUOTE], true, Some(w)) == [w + s]
  {
    hide *;
    RunTake(s, n);
    FrontBack(s, n);
    EscapedFirst(s);
    WordGrows(w, s, n);
    var rest := Escaped(s[n + 1..]) + [DQUOTE];
    if s[n] == DQUOTE {
      QuoteRead(s[..n], rest, w);
    } else {
      CharRead(s[..n], s[n], rest, true, w);
    }
  }

  lemma {:induction false} WordGrows(w: Str, s: Str, n: nat)
    requires n < |s|
    ensures w + s[..n] + [s[n]] + s[n + 1..] == w + s
  {
  }

  lemma {:induction false} EscapedFirst(s: Str)
    requires Run(s) < |s|
    ensures var n := Run(s);
            var rest := Escaped(s[n + 1..]) + [DQUOTE];
            Escaped(s) + [DQUOTE] ==
            if s[n] == DQUOTE then s[..n] + s[..n] + [BACKSLASH] + ([DQUOTE] + rest) else s[..n] + ([s[n]] + rest)
  {
    var n := Run(s);
    var e := Escaped(s[n + 1..]);
    assert Escaped(s) == (if s[n] == DQUOTE then s[..n] + s[..n] + [BACKSLASH, DQUOTE] else s[..n + 1]) + e;
    hide *;
    if s[n] == DQUOTE {
      var twice := s[..n] + s[..n];
      assert twice + [BACKSLASH, DQUOTE] == twice + [BACKSLASH] + [DQUOTE];
      Assoc(twice + [BACKSLASH], [DQUOTE], e);
      Assoc(twice + [BACKSLASH], [DQUOTE] + e, [DQUOTE]);
      Assoc([DQUOTE], e, [DQUOTE]);
    } else {
      assert s[..n + 1] == s[..n] + [s[n]];
      Assoc(s[..n], [s[n]], e);
      Assoc(s[..n], [s[n]] + e, [DQUOTE]);
      Assoc([s[n]], e, [DQUOTE]);
    }
  }

  lemma {:induction false} ClosingRead(b: Str, w: Str)
    requires Run(b) == |b|
    ensures Argv(b + b + [DQUOTE], true, Some(w)) == [w + b]
  {
    var text := b + b + [DQUOTE];
    ClosingRun(b);
    assert Argv(text, true, Some(w)) == ArgvAfter(text, 2 * |b|, true, Some(w));
    assert Run([]) == 0 && Argv([], false, Some(w + b)) == [w + b] by {
      assert w + b + [] == w + b;
    }
    hide Run, Argv;
    ClosingSlices(b);
  }

  lemma {:induction false} ClosingRun(b: Str)
    requires Run(b) == |b|
    ensures Run(b + b + [DQUOTE]) == 2 * |b|
  {
    RunAppend(b, b + [DQUOTE]);
    RunAppend(b, [DQUOTE]);
    Assoc(b, b, [DQUOTE]);
  }

  lemma {:induction false} ClosingSlices(b: Str)
    ensures var text := b + b + [DQUOTE]; text[2 * |b|] == DQUOTE && text[2 * |b| + 1..] == [] && text[..|b|] == b
  {
  }

  lemma {:induction false} QuoteRun(b: Str, rest: Str)
    requires Run(b) == |b|
    ensures var text := b + b + [BACKSLASH] + ([DQUOTE] + rest);
            var n := 2 * |b| + 1;
            Run(text) == n && text[n] == DQUOTE && text[n + 1..] == rest && text[..n / 2] == b
  {
    var one := [BACKSLASH];
    assert one[1..] == [];
    RunAppend(one, [DQUOTE] + rest);
    RunAppend(b, one + ([DQUOTE] + rest));
    RunAppend(b, b + (one + ([DQUOTE] + rest)));
    hide *;
    var text := b + b + one + ([DQUOTE] + rest);
    assert text == b + (b + (one + ([DQUOTE] + rest)));
  }

  lemma {:induction false} QuoteRead(b: Str, rest: Str, w: Str)
    requires Run(b) == |b|
    ensures Argv(b + b + [BACKSLASH] + ([DQUOTE] + rest), true, Some(w)) == Argv(rest, true, Some(w + b + [DQUOTE]))
  {
    var text := b + b + [BACKSLASH] + ([DQUOTE] + rest);
    QuoteRun(b, rest);
    assert Argv(text, true, Some(w)) == ArgvAfter(text, 2 * |b| + 1, true, Some(w));
    hide Run, Argv;
  }

  lemma {:induction false} CharRead(b: Str, c: u16, rest: Str, quoted: bool, w: Str)
    requires Run(b) == |b| && c != BACKSLASH && c != DQUOTE && (quoted || (c != BLANK && c != TAB))
    ensures Argv(b + ([c] + rest), quoted, Some(w)) == Argv(rest, quoted, Some(w + b + [c]))
  {
    var text := b + ([c] + rest);
    assert Run(text) == |b| by {
      RunAppend(b, [c] + rest);
    }
    assert Argv(text, quoted, Some(w)) == ArgvAfter(text, |b|, quoted, Some(w));
    hide Run, Argv;
    assert text[|b|] == c && text[|b| + 1..] == rest && text[..|b| + 1] == b + [c];
    Assoc(w, b, [c]);
  }

  // ----- the round trip on Windows --------------------------------------------------------------

  lemma {:induction false} PlainArgv(s: Str, w: Str)
    requires forall i | 0 <= i < |s| :: s[i] != DQUOTE && s[i] != BLANK && s[i] != TAB
    ensures Argv(s, false, Some(w)) == [w + s]
    decreases |s|
  {
    var n := Run(s);
    if n < |s| {
      PlainArgv(s[n + 1..], w + s[..n + 1]);
      assert w + s[..n + 1] + s[n + 1..] == w + s;
    }
  }

  lemma {:induction false} PlainStrip(s: Str)
    requires forall i | 0 <= i < |s| :: s[i] != DQUOTE && !MetaChar(s[i])
    ensures CmdStrip(s, false) == Some(s)
    decreases |s|
  {
    if s != [] {
      PlainStrip(s[1..]);
      assert [s[0]] + s[1..] == s;
    }
  }

  lemma {:induction false} PlainLine(s: Str)
    requires s != [] && !WinSpecial(s)
    ensures CommandLine(s) == Some([s])
  {
    forall i | 0 <= i < |s| ensures s[i] != DQUOTE && s[i] != BLANK && s[i] != TAB && !MetaChar(s[i]) {
      hide IsSpecialChar, MetaChar;
      WinTable(s[i]);
      assert s[i] in s;
    }
    assert CmdStrip(s, false) == Some(s) ==> CommandLine(s) == Some(Argv(s, false, None)) by {
      hide CmdStrip, Argv;
    }
    hide *;
    PlainStrip(s);
    PlainArgv(s, []);
    assert [] + s == s;
    WordBegins(s);
  }

  /** A character other than a blank begins a word. */
  lemma {:induction false} WordBegins(s: Str)
    requires s != [] && s[0] != BLANK && s[0] != TAB
    ensures Argv(s, false, Some([])) == Argv(s, false, None)
  {
  }

  lemma {:induction false} QuotesOpen(text: Str)
    ensures Argv([DQUOTE] + text, false, None) == Argv(text, true, Some([]))
  {
    var all := [DQUOTE] + text;
    assert all[1..] == text && Run(all) == 0;
    assert [] + all[..0] == [];
  }

  lemma {:induction false} StripQuote(quoted: bool)
    ensures CmdStrip([DQUOTE], quoted) == Some([DQUOTE])
    ensures CmdStrip([CARET, DQUOTE], false) == Some([DQUOTE])
  {
    assert [DQUOTE][1..] == [] && [DQUOTE] + [] == [DQUOTE] && [CARET, DQUOTE][2..] == [];
    assert CmdStrip([], !quoted) == Some([]) && CmdStrip([], false) == Some([]);
  }

  lemma {:induction false} QuotedStrip(e: Str)
    ensures CmdStrip([DQUOTE] + Carets(e, true) + (if EndQuoted(e, true) then [] else [CARET]) + [DQUOTE], false) ==
            Some([DQUOTE] + (e + [DQUOTE]))
  {
    var close := (if EndQuoted(e, true) then [] else [CARET]) + [DQUOTE];
    var text := [DQUOTE] + (Carets(e, true) + close);
    CaretsStripped(e, close, true);
    assert text[1..] == Carets(e, true) + close;
    assert text == [DQUOTE] + Carets(e, true) + (if EndQuoted(e, true) then [] else [CARET]) + [DQUOTE];
    StripQuote(EndQuoted(e, true));
    assert close == if EndQuoted(e, true) then [DQUOTE] else [CARET, DQUOTE];
    assert CmdStrip(close, EndQuoted(e, true)) == Some([DQUOTE]);
  }

  lemma {:induction false} EmptyLine()
    ensures CommandLine([DQUOTE, DQUOTE]) == Some([[]])
  {
    var t := [DQUOTE, DQUOTE];
    assert t[1..] == [DQUOTE] && [DQUOTE][1..] == [];
    StripQuote(true);
    assert CmdStrip(t, false) == Some([DQUOTE] + [DQUOTE]);
    assert [DQUOTE] + [DQUOTE] == t;
    QuotesOpen([DQUOTE]);
    ClosingRead([], []);
    var none: Str := [];
    assert none + none + [DQUOTE] == [DQUOTE] && none + none == none;
  }

  /** What cmd.exe and the program read the quoted argument as. */
  lemma {:induction false} WinReads(s: Str)
    ensures CommandLine(WinQuoted(s)) == Some([ReadBack(s)])
  {
    if s == [] {
      EmptyLine();
    } else if !WinSpecial(s) {
      assert s[|s| - 1] in s;
      PlainLine(s);
    } else {
      EscapedAsRead(s);
      var w := ReadBack(s);
      assert CommandLine(WinQuoted(s)) == Some(Argv([DQUOTE] + (Escaped(w) + [DQUOTE]), false, None)) by {
        hide Escaped, ReadBack, Argv, CmdStrip, EscapeQuotes, DoubleTrailing;
        QuotedStrip(Escaped(w));
      }
      hide *;
      QuotesOpen(Escaped(w) + [DQUOTE]);
      EscapedRead(w, []);
      assert [] + w == w;
    }
  }

  /** A backslash in front of a last newline. */
  predicate EndsEscaped(s: Str) { |s| >= 2 && s[|s| - 1] == NEWLINE && s[|s| - 2] == BACKSLASH }

  /** cmd.exe and the program read the quoted argument as exactly the argument, unless it ends in a backslash and a
      newline, and never then. */
  lemma {:induction false} WinRoundTrip(s: Str)
    ensures CommandLine(WinQuoted(s)) == Some([s]) <==> !EndsEscaped(s)
  {
    WinReads(s);
    if s != [] && s[|s| - 1] == NEWLINE {
      var t := s[..|s| - 1];
      assert s == t + [NEWLINE] && |ReadBack(s)| == |t| + Trail(t) + 1;
      assert Trail(t) == 0 ==> t[|t|..] == [] && t + [] == t;
    }
    hide WinQuoted, CommandLine;
    assert CommandLine(WinQuoted(s)) == Some([s]) <==> [ReadBack(s)] == [s];
    assert [ReadBack(s)] == [s] <==> ReadBack(s) == s by {
      assert [ReadBack(s)][0] == ReadBack(s) && [s][0] == s;
    }
  }

  /** The shortest such argument: its backslash comes back as two. */
  lemma {:induction false} NewlineDoubles()
    ensures CommandLine(WinQuoted([BACKSLASH, NEWLINE])) == Some([[BACKSLASH, BACKSLASH, NEWLINE]])
  {
    var s := [BACKSLASH, NEWLINE];
    WinReads(s);
    var b := s[..1];
    assert b == [BACKSLASH] && b[..0] == [] && Trail([]) == 0 && Trail(b) == 1 && b[0..] == b;
    assert ReadBack(s) == [BACKSLASH, BACKSLASH, NEWLINE];
  }
}
