// The tokenizer on the text of a single value: literals, quotes, escapes,
// references and function calls with their arguments.
module ValueTokenizer {
  import opened Tokens
  import opened Characters
  import opened ScopeMachine

  /** Where the text comes from: what _LINE_ and _FILE_ stand for. */
  datatype Place = Place(line: Str, file: Str)

  datatype Head = Head(quoted: bool, newStr: bool, name: Str)

  /** What waits while the arguments of a function call are read. */
  datatype Frame = Frame(elems: seq<Elem>, args: seq<Expr>, quote: u16, parens: nat, term: u16, fn: Head)

  /** `lit` is the literal read so far; `newStr` says that it begins a word. No open quote is 0. */
  datatype Scanner = Scanner(elems: seq<Elem>, args: seq<Expr>, lit: Str, newStr: bool, quote: u16, parens: nat,
                             stack: seq<Frame>, ok: bool)

  function Put(t: Scanner, c: u16): Scanner { t.(lit := t.lit + [c]) }

  function Flush(t: Scanner): Scanner {
    if t.lit == [] then t else t.(elems := t.elems + [Lit(t.newStr, t.lit)], lit := [], newStr := false)
  }

  function AddElem(t: Scanner, e: Elem): Scanner { t.(elems := t.elems + [e], newStr := false) }

  predicate NameChar(c: u16, slash: bool) {
    c >= 0x100 || c == 46 || c == 95 || 97 <= c <= 122 || 65 <= c <= 90 || 48 <= c <= 57 || (slash && c == 47)
  }

  function NameLen(text: Str, slash: bool): (n: nat)
    ensures n <= |text|
  {
    if text == [] || !NameChar(text[0], slash) then 0 else 1 + NameLen(text[1..], slash)
  }

  predicate Blank(c: u16) { c == BLANK || c == TAB }

  function SkipBlanks(text: Str): (rest: Str)
    ensures |rest| <= |text|
  {
    if text == [] || !Blank(text[0]) then text else SkipBlanks(text[1..])
  }

  /** Names the tokenizer replaces by a literal. */
  function Resolve(place: Place, name: Str): Option<Str> {
    if name == U("_LINE_") then Some(place.line)
    else if name == U("_FILE_") then Some(place.file)
    else if name == U("LITERAL_HASH") then Some([HASH])
    else if name == U("LITERAL_DOLLAR") then Some([DOLLAR])
    else if name == U("LITERAL_WHITESPACE") then Some([TAB])
    else None
  }

  function First(text: Str): u16 { if text == [] then 0 else text[0] }

  /** The terminator that goes with an opening bracket, or 0. */
  function Terminator(open: u16): u16 {
    if open == LBRACKET then RBRACKET else if open == LBRACE then RBRACE else if open == OPEN then CLOSE else 0
  }

  lemma {:induction false} NoTerminator()
    ensures Terminator(0) == 0
    ensures forall open :: !IsCall(open, 0)
  {
  }

  predicate IsCall(open: u16, next: u16) { next == OPEN && open != LBRACKET && open != OPEN }

  /** The element for a reference: a property, an environment variable, a variable or a resolved literal. */
  function Reference(hash: Hash, place: Place, t: Scanner, open: u16, name: Str): Elem {
    if open == LBRACKET then Prop(t.quote != 0, t.newStr, Hashed(hash, name))
    else if open == OPEN then EnvVar(t.quote != 0, t.newStr, name)
    else if Resolve(place, name).Some? then Lit(t.newStr, Resolve(place, name).value)
    else Var(t.quote != 0, t.newStr, Hashed(hash, name))
  }

  /** A missing terminator is an error, but the tokenizer goes on as if it were there. */
  function Closed(text: Str, term: u16, t: Scanner): (r: (Str, Scanner))
    ensures |r.0| <= |text|
  {
    if term == 0 then (text, t)
    else if text != [] && text[0] == term then (text[1..], t)
    else (text, t.(ok := false))
  }

  /** A function call begins. A resolved name cannot be called: its stream would be broken. */
  function Enter(place: Place, t: Scanner, term: u16, name: Str): Scanner {
    Scanner([], [], [], true, 0, 0,
            t.stack + [Frame(t.elems, t.args, t.quote, t.parens, term, Head(t.quote != 0, t.newStr, name))],
            t.ok && Resolve(place, name).None?)
  }

  /** The name in a reference and what ends it. */
  function Referred(hash: Hash, place: Place, open: u16, text: Str, t: Scanner): (r: (Str, Scanner))
    ensures |r.0| <= |text|
  {
    var term := Terminator(open);
    var n := NameLen(text, term != 0);
    if IsCall(open, First(text[n..])) then (SkipBlanks(text[n + 1..]), Enter(place, t, term, text[..n]))
    else Closed(text[n..], term, AddElem(t, Reference(hash, place, t, open, text[..n])))
  }

  /** A reference, or the beginning of a function call, after "$$". */
  function Expansion(hash: Hash, place: Place, text: Str, t: Scanner): (r: (Str, Scanner))
    ensures |r.0| <= |text|
  {
    var open := First(text);
    Referred(hash, place, open, if Terminator(open) != 0 then text[1..] else text, Flush(t))
  }

  /** The last argument ends. */
  function AllArgs(t: Scanner): seq<Expr> {
    if t.args == [] && t.elems == [] then [] else t.args + [Expr.Expr(t.elems)]
  }

  /** A function call ends. */
  function Leave(hash: Hash, text: Str, t: Scanner): (r: (Str, Scanner))
    requires t.stack != []
    ensures |r.0| <= |text|
  {
    var t1 := Flush(t);
    var top := t.stack[|t.stack| - 1];
    var e := Fn(top.fn.quoted, top.fn.newStr, Hashed(hash, top.fn.name), AllArgs(t1));
    Closed(text, top.term,
           Scanner(top.elems + [e], top.args, [], false, top.quote, top.parens, t.stack[..|t.stack| - 1], t.ok))
  }

  /** A character in the arguments of a call. */
  function ArgChar(hash: Hash, c: u16, rest: Str, t: Scanner): (r: (Str, Scanner))
    requires t.stack != []
    ensures |r.0| <= |rest|
  {
    if Blank(c) then (SkipBlanks(rest), Flush(t).(newStr := true))
    else if c == OPEN then (rest, Put(t.(parens := t.parens + 1), c))
    else if c == CLOSE then
      if t.parens == 0 then Leave(hash, rest, t) else (rest, Put(t.(parens := t.parens - 1), c))
    else if c == COMMA && t.parens == 0 then
      var t1 := Flush(t);
      (SkipBlanks(rest), t1.(args := t1.args + [Expr.Expr(t1.elems)], elems := [], newStr := true))
    else (rest, Put(t, c))
  }

  const ESCAPABLE: set<u16> := {0, LBRACKET, RBRACKET, LBRACE, RBRACE, OPEN, CLOSE, DOLLAR, BACKSLASH, SQUOTE, DQUOTE}

  /** What the next character does to the scanner, and the text after it. */
  function TakeChar(hash: Hash, place: Place, text: Str, t: Scanner): (r: (Str, Scanner))
    requires text != []
    ensures |r.0| < |text|
  {
    var c, rest := text[0], text[1..];
    if c == DOLLAR then
      if First(rest) == DOLLAR then Expansion(hash, place, rest[1..], t) else (rest, Put(t, c))
    else if c == BACKSLASH then
      if rest != [] && rest[0] in ESCAPABLE then (rest[1..], Put(t, rest[0])) else (rest, Put(t, c))
    else if t.quote != 0 then (rest, if c == t.quote then t.(quote := 0) else Put(t, c))
    else if c == SQUOTE || c == DQUOTE then (rest, t.(quote := c))
    else if t.stack != [] then ArgChar(hash, c, rest, t)
    else (rest, Put(t, c))
  }

  function Scan(hash: Hash, place: Place, text: Str, t: Scanner): Scanner
    decreases |text|
  {
    if text == [] then t
    else
      var r := TakeChar(hash, place, text, t);
      Scan(hash, place, r.0, r.1)
  }

  const FRESH: Scanner := Scanner([], [], [], true, 0, 0, [], true)

  /** The expression a value's text stands for: None if it has an error. */
  function Tokenized(hash: Hash, place: Place, text: Str): Option<Expr> {
    var t := Flush(Scan(hash, place, text, FRESH));
    if t.ok && t.quote == 0 && t.stack == [] then Some(Expr.Expr(t.elems)) else None
  }

  // ----- the tokenizer itself -----------------------------------------------------------

  class ValueReader {
    const hash: Hash
    const place: Place
    const text: Str
    var cur: nat
    var elems: seq<Elem>
    var args: seq<Expr>
    var lit: Str
    var newStr: bool
    var quote: u16
    var parens: nat
    var stack: seq<Frame>
    var ok: bool

    constructor (hash: Hash, place: Place, text: Str)
      ensures this.hash == hash && this.place == place && this.text == text && cur == 0 && State() == FRESH
    {
      this.hash, this.place, this.text, cur := hash, place, text, 0;
      elems, args, lit, newStr, quote, parens, stack, ok := [], [], [], true, 0, 0, [], true;
    }

    function State(): Scanner
      reads this
    {
      Scanner(elems, args, lit, newStr, quote, parens, stack, ok)
    }

    function Left(): Str
      requires cur <= |text|
      reads this
    {
      text[cur..]
    }

    method FlushLiteral()
      modifies `elems, `lit, `newStr
      ensures State() == Flush(old(State()))
    {
      if lit != [] {
        elems, lit, newStr := elems + [Lit(newStr, lit)], [], false;
      }
    }

    method SkipWhite()
      requires cur <= |text|
      modifies `cur
      ensures cur <= |text| && Left() == SkipBlanks(old(Left()))
    {
      while cur < |text| && Blank(text[cur])
        invariant cur <= |text| && SkipBlanks(Left()) == SkipBlanks(old(Left()))
      {
        assert text[cur..][1..] == text[cur + 1..];
        cur := cur + 1;
      }
    }

    method ReadName(slash: bool) returns (name: Str)
      requires cur <= |text|
      modifies `cur
      ensures var n := NameLen(old(Left()), slash);
              cur == old(cur) + n && cur <= |text| && name == old(Left())[..n]
    {
      var start := cur;
      while cur < |text| && NameChar(text[cur], slash)
        invariant start <= cur <= |text| && NameLen(text[start..], slash) == cur - start + NameLen(text[cur..], slash)
      {
        assert text[cur..][1..] == text[cur + 1..];
        cur := cur + 1;
      }
      name := text[start..cur];
    }

    method CheckTerm(term: u16)
      requires cur <= |text|
      modifies `cur, `ok
      ensures cur <= |text| && (Left(), State()) == Closed(old(Left()), term, old(State()))
    {
      if term != 0 {
        if cur < |text| && text[cur] == term {
          assert text[cur..][1..] == text[cur + 1..];
          cur := cur + 1;
        } else {
          ok := false;
        }
      }
    }

    method EnterCall(term: u16, name: Str)
      modifies `elems, `args, `lit, `newStr, `quote, `parens, `stack, `ok
      ensures State() == Enter(place, old(State()), term, name)
    {
      stack := stack + [Frame(elems, args, quote, parens, term, Head(quote != 0, newStr, name))];
      elems, args, lit, newStr, quote, parens := [], [], [], true, 0, 0;
      ok := ok && Resolve(place, name).None?;
    }

    method ReadReference(open: u16)
      requires cur <= |text|
      modifies this
      ensures cur <= |text| && (Left(), State()) == Referred(hash, place, open, old(Left()), old(State()))
    {
      ghost var rest := Left();
      hide IsCall, Reference, Enter, NameLen, SkipBlanks, Closed, Resolve;
      NoTerminator();
      var term := Terminator(open);
      var name := ReadName(term != 0);
      assert Left() == rest[|name|..];
      if IsCall(open, if cur < |text| then text[cur] else 0) {
        cur := cur + 1;
        assert Left() == rest[|name| + 1..];
        EnterCall(term, name);
        SkipWhite();
      } else {
        AddReference(open, name);
        CheckTerm(term);
      }
    }

    method AddReference(open: u16, name: Str)
      modifies `elems, `newStr
      ensures State() == AddElem(old(State()), Reference(hash, place, old(State()), open, name))
    {
      elems := elems + [Reference(hash, place, State(), open, name)];
      newStr := false;
    }

    /** A reference, or the beginning of a function call, after "$$". */
    method Expand()
      requires cur <= |text|
      modifies this
      ensures cur <= |text| && (Left(), State()) == Expansion(hash, place, old(Left()), old(State()))
    {
      hide Terminator, Referred, Flush;
      NoTerminator();
      FlushLiteral();
      var open := if cur < |text| then text[cur] else 0;
      if Terminator(open) != 0 {
        assert text[cur..][1..] == text[cur + 1..];
        cur := cur + 1;
      }
      ReadReference(open);
    }

    /** The closing parenthesis of a function call. */
    method LeaveCall()
      requires cur <= |text| && stack != []
      modifies this
      ensures cur <= |text| && (Left(), State()) == Leave(hash, old(Left()), old(State()))
    {
      FlushLiteral();
      var top := stack[|stack| - 1];
      var e := Fn(top.fn.quoted, top.fn.newStr, Hashed(hash, top.fn.name), AllArgs(State()));
      elems, args, lit, newStr := top.elems + [e], top.args, [], false;
      quote, parens, stack := top.quote, top.parens, stack[..|stack| - 1];
      CheckTerm(top.term);
    }

    method ReadArgChar(c: u16)
      requires cur <= |text| && stack != []
      modifies this
      ensures cur <= |text| && (Left(), State()) == ArgChar(hash, c, old(Left()), old(State()))
    {
      if Blank(c) {
        FlushLiteral();
        newStr := true;
        SkipWhite();
      } else if c == CLOSE && parens == 0 {
        LeaveCall();
      } else if c == COMMA && parens == 0 {
        FlushLiteral();
        args, elems, newStr := args + [Expr.Expr(elems)], [], true;
        SkipWhite();
      } else {
        parens := if c == OPEN then parens + 1 else if c == CLOSE then parens - 1 else parens;
        lit := lit + [c];
      }
    }

    method ReadChar()
      requires cur < |text|
      modifies this
      ensures cur <= |text| && (Left(), State()) == TakeChar(hash, place, old(Left()), old(State()))
    {
      hide Expansion, ArgChar;
      var c := text[cur];
      assert text[cur..][1..] == text[cur + 1..];
      cur := cur + 1;
      if c == DOLLAR {
        if cur < |text| && text[cur] == DOLLAR {
          assert text[cur..][1..] == text[cur + 1..];
          cur := cur + 1;
          Expand();
        } else {
          lit := lit + [c];
        }
      } else if c == BACKSLASH {
        if cur < |text| && text[cur] in ESCAPABLE {
          assert text[cur..][1..] == text[cur + 1..];
          lit := lit + [text[cur]];
          cur := cur + 1;
        } else {
          lit := lit + [c];
        }
      } else if quote != 0 {
        if c == quote {
          quote := 0;
        } else {
          lit := lit + [c];
        }
      } else if c == SQUOTE || c == DQUOTE {
        quote := c;
      } else if stack != [] {
        ReadArgChar(c);
      } else {
        lit := lit + [c];
      }
    }

    /** Reads the whole text. */
    method Read() returns (x: Option<Expr>)
      requires cur == 0 && State() == FRESH
      modifies this
      ensures x == Tokenized(hash, place, text)
    {
      hide TakeChar;
      assert text[0..] == text;
      while cur < |text|
        invariant cur <= |text| && Scan(hash, place, Left(), State()) == Scan(hash, place, text, FRESH)
        decreases |Left()|
      {
        ReadChar();
      }
      FlushLiteral();
      x := if ok && quote == 0 && stack == [] then Some(Expr.Expr(elems)) else None;
    }
  }
}
