// What the words of an expression are: each element gives strings, and these are
// glued together between the places where words begin.
module WordBuilding {
  import opened Tokens
  import opened Characters
  import opened ValueStack
  import opened Semantics

  // ----- what the elements give ---------------------------------------------------------

  /** A single string, or a list; `newStr` says that a word begins in front of it. */
  datatype Piece = Single(newStr: bool, s: Str) | Several(newStr: bool, quoted: bool, l: seq<Str>)

  /** What an element other than a call gives; a line marker gives nothing. */
  function PieceOf(env: Env, e: Elem, s: Stack): seq<Piece>
    requires !e.Fn?
  {
    match e
    case ELine(_) => []
    case Lit(n, text) => [Single(n, text)]
    case HashLit(n, h) => [Single(n, h.s)]
    case Var(q, n, h) => [Several(n, q, Values(s, env.alias(h.s)))]
    case Prop(_, n, h) => [Single(n, env.property(h.s))]
    case EnvVar(_, n, name) => [Single(n, env.environ(name))]
  }

  /** What all elements give, one after the other: a call gives the list it returns. */
  function Pieces(env: Env, fuel: nat, es: seq<Elem>, st: State): Out<seq<Piece>>
    decreases es
  {
    if es == [] then Out(RTrue, st, [])
    else if es[0].Fn? then
      var o := Expand(env, fuel, es[0].h.s, es[0].args, st);
      if o.ret.Fatal() then Out(o.ret, o.st, [])
      else
        var r := Pieces(env, fuel, es[1..], o.st);
        r.(v := [Several(es[0].newStr, es[0].quoted, o.v)] + r.v)
    else
      var r := Pieces(env, fuel, es[1..], st);
      r.(v := PieceOf(env, es[0], st.stack) + r.v)
  }

  // ----- words out of pieces ---------------------------------------------------------------

  /** The strings with single blanks between them. */
  function Spaced(l: seq<Str>): Str {
    if l == [] then [] else l[0] + Led(l[1..])
  }

  /** Each string with a blank in front. */
  function Led(l: seq<Str>): Str {
    if l == [] then [] else [BLANK] + l[0] + Led(l[1..])
  }

  /** A word begins; or a string is glued to what the word has already, another one if it has nothing. */
  datatype Part = Begin | Glue(more: Str, first: Option<Str>)

  /** The further strings of a list are words of their own. */
  function Further(l: seq<Str>): seq<Part> {
    if l == [] then [] else [Begin, Glue(l[0], Some(l[0]))] + Further(l[1..])
  }

  /** A quoted list, and any list in a joined word, is one string; a first empty string of an unquoted one is eaten where
      a word would begin with it. */
  function PartsOf(p: Piece, joined: bool): seq<Part> {
    (if p.newStr then [Begin] else []) +
    if p.Single? then (if joined && p.s == [] then [] else [Glue(p.s, Some(p.s))])
    else if p.l == [] then []
    else if p.quoted then [Glue(Spaced(p.l), Some(Spaced(p.l)))]
    else if joined then
      [Glue(Spaced(p.l), if p.l[0] != [] then Some(Spaced(p.l)) else if |p.l| == 1 then None else Some(Spaced(p.l[1..])))]
    else [Glue(p.l[0], if p.l[0] == [] then None else Some(p.l[0]))] + Further(p.l[1..])
  }

  function AllParts(ps: seq<Piece>, joined: bool): seq<Part> {
    if ps == [] then [] else PartsOf(ps[0], joined) + AllParts(ps[1..], joined)
  }

  /** How many parts there are in front of the next word. */
  function Run(ps: seq<Part>): (n: nat)
    ensures n <= |ps| && (forall i | 0 <= i < n :: ps[i].Glue?) && (n < |ps| ==> ps[n].Begin?)
  {
    if ps == [] || ps[0].Begin? then 0 else 1 + Run(ps[1..])
  }

  /** All strings that are glued on. */
  function Glued(ps: seq<Part>): Str
    requires forall i | 0 <= i < |ps| :: ps[i].Glue?
  {
    if ps == [] then [] else ps[0].more + Glued(ps[1..])
  }

  /** The word out of the parts between two beginnings, if there is one. */
  function WordOf(ps: seq<Part>): Option<Str>
    requires forall i | 0 <= i < |ps| :: ps[i].Glue?
  {
    if ps == [] then None
    else if ps[0].first.Some? then Some(ps[0].first.value + Glued(ps[1..]))
    else WordOf(ps[1..])
  }

  function Listed(w: Option<Str>): seq<Str> { if w.Some? then [w.value] else [] }

  /** The words, one for each beginning that is followed by one. */
  function WordsIn(ps: seq<Part>): seq<Str>
    decreases |ps|
  {
    var n := Run(ps);
    Listed(WordOf(ps[..n])) + if n == |ps| then [] else WordsIn(ps[n + 1..])
  }

  function DropEmpty(l: seq<Str>): seq<Str> { if l != [] && l[0] == [] then DropEmpty(l[1..]) else l }

  /** The words of an expression whose elements give `ps`; joined they are one word, that no empty word begins. */
  function Built(ps: seq<Piece>, joined: bool): seq<Str> {
    var l := WordsIn(AllParts(ps, joined));
    if joined then [Spaced(DropEmpty(l))] else l
  }

  // ----- one part more ------------------------------------------------------------------------

  /** The parts behind the last beginning. */
  function Tail(ps: seq<Part>): (r: seq<Part>)
    ensures forall i | 0 <= i < |r| :: r[i].Glue?
    decreases |ps|
  {
    var n := Run(ps); if n == |ps| then ps else Tail(ps[n + 1..])
  }

  /** The words in front of it. */
  function Before(ps: seq<Part>): seq<Str>
    decreases |ps|
  {
    var n := Run(ps); if n == |ps| then [] else Listed(WordOf(ps[..n])) + Before(ps[n + 1..])
  }

  predicate Open(ps: seq<Part>) { WordOf(Tail(ps)).Some? }

  lemma {:induction false} RunSnoc(ps: seq<Part>, x: Part)
    ensures Run(ps + [x]) == if Run(ps) == |ps| && x.Glue? then |ps| + 1 else Run(ps)
  {
    if ps != [] && ps[0].Glue? {
      assert (ps + [x])[1..] == ps[1..] + [x];
      RunSnoc(ps[1..], x);
    } else if ps == [] {
      assert [x][1..] == [];
    }
  }

  lemma {:induction false} TailWords(ps: seq<Part>)
    ensures WordsIn(ps) == Before(ps) + Listed(WordOf(Tail(ps)))
    decreases |ps|
  {
    hide *;
    var n := Run(ps);
    TailParts(ps);
    var w := Listed(WordOf(ps[..n]));
    if n == |ps| {
      assert ps[..n] == ps && w + [] == w == [] + w;
    } else {
      TailWords(ps[n + 1..]);
      var b, l := Before(ps[n + 1..]), Listed(WordOf(Tail(ps[n + 1..])));
      assert w + (b + l) == w + b + l;
    }
  }

  /** The parts up to the first beginning, and the rest. */
  lemma {:induction false} TailParts(ps: seq<Part>)
    ensures var n := Run(ps);
            if n == |ps| then
              WordsIn(ps) == Listed(WordOf(ps[..n])) + [] && Before(ps) == [] && Tail(ps) == ps
            else
              && WordsIn(ps) == Listed(WordOf(ps[..n])) + WordsIn(ps[n + 1..])
              && Before(ps) == Listed(WordOf(ps[..n])) + Before(ps[n + 1..]) && Tail(ps) == Tail(ps[n + 1..])
  {
    hide WordOf, Listed;
  }

  lemma {:induction false} TailSnoc(ps: seq<Part>, x: Part)
    ensures Tail(ps + [x]) == if x.Begin? then [] else Tail(ps) + [x]
    ensures Before(ps + [x]) == if x.Begin? then WordsIn(ps) else Before(ps)
    decreases |ps|
  {
    hide *;
    var n := Run(ps);
    RunSnoc(ps, x);
    TailParts(ps);
    TailParts(ps + [x]);
    if n < |ps| {
      Shifted(ps, x, n);
      TailSnoc(ps[n + 1..], x);
    } else if x.Begin? {
      assert (ps + [x])[..n] == ps == ps[..n] && (ps + [x])[n + 1..] == [];
      NoTail();
    }
  }

  lemma {:induction false} Shifted(ps: seq<Part>, x: Part, n: nat)
    requires n < |ps|
    ensures (ps + [x])[..n] == ps[..n] && (ps + [x])[n + 1..] == ps[n + 1..] + [x]
  {
  }

  lemma {:induction false} NoTail()
    ensures Tail([]) == [] && Before([]) == []
  {
  }

  lemma {:induction false} GluedSnoc(ps: seq<Part>, x: Part)
    requires x.Glue? && forall i | 0 <= i < |ps| :: ps[i].Glue?
    ensures Glued(ps + [x]) == Glued(ps) + x.more
  {
    if ps == [] {
      assert [x][1..] == [];
    } else {
      assert (ps + [x])[1..] == ps[1..] + [x];
      GluedSnoc(ps[1..], x);
    }
  }

  lemma {:induction false} WordSnoc(ps: seq<Part>, x: Part)
    requires x.Glue? && forall i | 0 <= i < |ps| :: ps[i].Glue?
    ensures WordOf(ps + [x]) == if WordOf(ps).Some? then Some(WordOf(ps).value + x.more) else x.first
  {
    if ps == [] {
      assert [x][1..] == [];
      assert x.first.Some? ==> x.first.value + [] == x.first.value;
    } else {
      assert (ps + [x])[1..] == ps[1..] + [x];
      GluedSnoc(ps[1..], x);
      WordSnoc(ps[1..], x);
      if ps[0].first.Some? {
        Assoc(ps[0].first.value, Glued(ps[1..]), x.more);
      }
    }
  }

  /** What the words become with one part more. */
  lemma {:induction false} WordsSnoc(ps: seq<Part>, x: Part)
    ensures x.Begin? ==> WordsIn(ps + [x]) == WordsIn(ps) && !Open(ps + [x])
    ensures x.Glue? && Open(ps) ==>
              WordsIn(ps) != [] && WordsIn(ps + [x]) == SetLast(WordsIn(ps), Last(WordsIn(ps)) + x.more) && Open(ps + [x])
    ensures x.Glue? && !Open(ps) ==> WordsIn(ps + [x]) == WordsIn(ps) + Listed(x.first) && Open(ps + [x]) == x.first.Some?
  {
    TailWords(ps);
    TailWords(ps + [x]);
    TailSnoc(ps, x);
    hide Tail, Before, WordsIn, WordOf, Run;
    if x.Begin? {
      assert WordOf([]) == None by { NoWord(); }
    } else {
      WordSnoc(Tail(ps), x);
    }
  }

  lemma {:induction false} NoWord()
    ensures WordOf([]) == None && WordsIn([]) == [] && !Open([])
  {
  }

  // ----- the list under construction ------------------------------------------------------------

  /** The list holds the words of the parts so far. */
  predicate Holds(a: Acc, ps: seq<Part>, joined: bool) {
    a.pending == Open(ps) && a.ret == if joined then [Spaced(DropEmpty(WordsIn(ps)))] else WordsIn(ps)
  }

  lemma {:induction false} LedSnoc(l: seq<Str>, s: Str)
    ensures Led(l + [s]) == Led(l) + [BLANK] + s
  {
    if l == [] {
      assert [s][1..] == [] && Led([]) == [];
      assert Led([s]) == [BLANK] + s + [];
    } else {
      assert (l + [s])[1..] == l[1..] + [s];
      LedSnoc(l[1..], s);
    }
  }

  lemma {:induction false} SpacedSnoc(l: seq<Str>, s: Str)
    ensures Spaced(l + [s]) == if l == [] then s else Spaced(l) + [BLANK] + s
  {
    if l == [] {
      assert [s][1..] == [] && s + [] == s;
    } else {
      assert (l + [s])[1..] == l[1..] + [s];
      LedSnoc(l[1..], s);
    }
  }

  lemma {:induction false} DropSnoc(l: seq<Str>, s: Str)
    ensures DropEmpty(l + [s]) == if DropEmpty(l) != [] then DropEmpty(l) + [s] else if s == [] then [] else [s]
  {
    if l == [] {
      assert [s][1..] == [];
    } else {
      assert (l + [s])[1..] == l[1..] + [s];
      if l[0] == [] {
        DropSnoc(l[1..], s);
      }
    }
  }

  lemma {:induction false} DroppedStarts(l: seq<Str>)
    ensures var d := DropEmpty(l); d != [] ==> d[0] != [] && Spaced(d) != []
  {
    if l != [] && l[0] == [] {
      DroppedStarts(l[1..]);
    }
  }

  /** A word more, in a joined word. */
  lemma {:induction false} OneWordMore(l: seq<Str>, s: Str)
    ensures var w := Spaced(DropEmpty(l));
            Spaced(DropEmpty(l + [s])) == if w == [] then s else w + [BLANK] + s
  {
    DropSnoc(l, s);
    DroppedStarts(l);
    SpacedSnoc(DropEmpty(l), s);
    SpacedSnoc([], s);
    assert [] + [s] == [s];
  }

  /** More of the last word, in a joined word. */
  lemma {:induction false} LastWordMore(l: seq<Str>, more: Str)
    requires l != []
    ensures Spaced(DropEmpty(SetLast(l, Last(l) + more))) == Spaced(DropEmpty(l)) + more
  {
    hide *;
    var v, w := l[..|l| - 1], Last(l);
    LastOf(l, w + more);
    OneWordMore(v, w);
    OneWordMore(v, w + more);
    var u := Spaced(DropEmpty(v));
    Assoc(u + [BLANK], w, more);
  }

  lemma {:induction false} LastOf(l: seq<Str>, s: Str)
    requires l != []
    ensures var v := l[..|l| - 1]; l == v + [Last(l)] && SetLast(l, s) == v + [s]
  {
  }

  /** The list with one string glued on. */
  function Take(a: Acc, x: Part, joined: bool): Acc
    requires x.Glue?
  {
    if a.pending then Acc(SetLast(a.ret, Last(a.ret) + x.more), true)
    else if x.first.None? then a
    else if !joined then Acc(a.ret + [x.first.value], true)
    else Acc([if Last(a.ret) == [] then x.first.value else Last(a.ret) + [BLANK] + x.first.value], true)
  }

  predicate Shaped(a: Acc, joined: bool) { (joined ==> |a.ret| == 1) && (a.pending ==> a.ret != []) }

  lemma {:induction false} HoldsShaped(a: Acc, ps: seq<Part>, joined: bool)
    requires Holds(a, ps, joined)
    ensures Shaped(a, joined)
  {
    WordsSnoc(ps, Glue([], None));
  }

  lemma {:induction false} Glues(a: Acc, ps: seq<Part>, x: Part, joined: bool)
    requires Holds(a, ps, joined) && x.Glue?
    ensures Holds(Take(a, x, joined), ps + [x], joined)
  {
    WordsSnoc(ps, x);
    var l := WordsIn(ps);
    hide WordsIn, Open, Spaced, DropEmpty;
    if a.pending {
      LastWordMore(l, x.more);
    } else if x.first.Some? {
      OneWordMore(l, x.first.value);
    } else {
      assert l + [] == l;
    }
  }

  lemma {:induction false} Begins(a: Acc, ps: seq<Part>, joined: bool)
    requires Holds(a, ps, joined)
    ensures Holds(a.(pending := false), ps + [Begin], joined)
  {
    WordsSnoc(ps, Begin);
    hide WordsIn, Open;
  }

  lemma {:induction false} JoinIsSpaced(l: seq<Str>)
    ensures JoinSpaced(l) == Spaced(l)
  {
    if |l| == 1 {
      assert Led(l[1..]) == [] && l[0] + [] == l[0];
    } else if |l| > 1 {
      JoinIsSpaced(l[1..]);
      assert Led(l[1..]) == [BLANK] + l[1..][0] + Led(l[1..][1..]);
      assert l[0] + SPACE + Spaced(l[1..]) == l[0] + ([BLANK] + l[1..][0] + Led(l[1..][1..]));
    }
  }

  // ----- pieces ---------------------------------------------------------------------------------

  /** The further strings of a list. */
  lemma {:induction false} FurtherHolds(ret: seq<Str>, pending: bool, ps: seq<Part>, l: seq<Str>)
    requires Holds(Acc(ret, pending), ps, false) && l != []
    ensures Holds(Acc(ret + l, true), ps + Further(l), false)
    decreases l
  {
    hide *;
    var x := Glue(l[0], Some(l[0]));
    Begins(Acc(ret, pending), ps, false);
    Glues(Acc(ret, false), ps + [Begin], x, false);
    TakesNew(ret, l[0]);
    FurtherIs(l);
    assert ps + [Begin] + [x] == ps + [Begin, x];
    if |l| == 1 {
      assert [Begin, x] + [] == [Begin, x] && l == [l[0]];
    } else {
      FurtherHolds(ret + [l[0]], true, ps + [Begin, x], l[1..]);
      assert ret + [l[0]] + l[1..] == ret + l;
      assert ps + [Begin, x] + Further(l[1..]) == ps + ([Begin, x] + Further(l[1..]));
    }
  }

  lemma {:induction false} FurtherIs(l: seq<Str>)
    ensures Further([]) == []
    ensures l != [] ==> Further(l) == [Begin, Glue(l[0], Some(l[0]))] + Further(l[1..])
    ensures |l| == 1 ==> Further(l[1..]) == []
  {
  }

  lemma {:induction false} TakesNew(ret: seq<Str>, s: Str)
    ensures Take(Acc(ret, false), Glue(s, Some(s)), false) == Acc(ret + [s], true)
  {
  }

  /** A string added is its parts glued on. */
  lemma {:induction false} AddStrHolds(a: Acc, ps: seq<Part>, s: Str, joined: bool)
    requires Holds(a, ps, joined)
    ensures Holds(AddStr(a, s, joined), ps + PartsOf(Single(false, s), joined), joined)
  {
    var parts := PartsOf(Single(false, s), joined);
    HoldsShaped(a, ps, joined);
    StrTaken(a, s, joined);
    if parts != [] {
      Glues(a, ps, parts[0], joined);
      assert ps + parts == ps + [parts[0]];
    } else {
      assert ps + parts == ps;
    }
    hide Holds, AddStr, Take;
  }

  lemma {:induction false} StrTaken(a: Acc, s: Str, joined: bool)
    requires Shaped(a, joined)
    ensures var parts := PartsOf(Single(false, s), joined);
            && |parts| <= 1 && (parts != [] ==> parts[0].Glue?)
            && AddStr(a, s, joined) == if parts == [] then a else Take(a, parts[0], joined)
  {
    var last := Last(a.ret);
    assert [] + s == s && last + [] == last;
    assert joined ==> a.ret == [last] && forall w: Str :: SetLast(a.ret, w) == [w];
    assert PartsOf(Single(false, s), joined) == if joined && s == [] then [] else [Glue(s, Some(s))];
  }

  /** So is a list. */
  lemma {:induction false} AddListHolds(a: Acc, ps: seq<Part>, l: seq<Str>, quoted: bool, joined: bool)
    requires Holds(a, ps, joined)
    ensures Holds(AddList(a, l, quoted, joined), ps + PartsOf(Several(false, quoted, l), joined), joined)
  {
    hide *;
    if l != [] {
      var x := FirstPart(l, quoted, joined);
      HoldsShaped(a, ps, joined);
      Glues(a, ps, x, joined);
      ListTaken(a, l, quoted, joined);
      ListParts(l, quoted, joined);
      var b := Take(a, x, joined);
      if quoted || joined || |l| == 1 {
      } else {
        FurtherHolds(b.ret, b.pending, ps + [x], l[1..]);
        assert ps + [x] + Further(l[1..]) == ps + ([x] + Further(l[1..]));
      }
    } else {
      ListParts(l, quoted, joined);
      assert ps + [] == ps;
    }
  }

  /** The string that a list begins with. */
  function FirstPart(l: seq<Str>, quoted: bool, joined: bool): (x: Part)
    requires l != []
    ensures x.Glue?
  {
    if quoted then Glue(Spaced(l), Some(Spaced(l)))
    else if joined then
      Glue(Spaced(l), if l[0] != [] then Some(Spaced(l)) else if |l| == 1 then None else Some(Spaced(l[1..])))
    else Glue(l[0], if l[0] == [] then None else Some(l[0]))
  }

  lemma {:induction false} ListParts(l: seq<Str>, quoted: bool, joined: bool)
    ensures var parts := PartsOf(Several(false, quoted, l), joined);
            if l == [] then parts == [] && forall a :: AddList(a, l, quoted, joined) == a
            else if quoted || joined || |l| == 1 then parts == [FirstPart(l, quoted, joined)]
            else parts == [FirstPart(l, quoted, joined)] + Further(l[1..])
  {
    hide Spaced, JoinSpaced;
    FurtherIs(l);
  }

  lemma {:induction false} ListTaken(a: Acc, l: seq<Str>, quoted: bool, joined: bool)
    requires Shaped(a, joined) && l != []
    ensures var b := Take(a, FirstPart(l, quoted, joined), joined);
            AddList(a, l, quoted, joined) == if quoted || joined || |l| == 1 then b else Acc(b.ret + l[1..], true)
  {
    JoinIsSpaced(l);
    JoinIsSpaced(l[1..]);
    hide Spaced, JoinSpaced;
    if joined {
      JoinedTaken(a, l, quoted);
    } else if quoted {
      assert [] + Spaced(l) == Spaced(l);
      var ret := a.ret + [[]];
      assert !a.pending ==> Last(ret) == [] && SetLast(ret, Spaced(l)) == a.ret + [Spaced(l)];
    } else {
      assert |l| == 1 ==> l == [l[0]] && forall r: seq<Str> :: r + l[1..] == r;
      assert a.ret + [l[0]] + l[1..] == a.ret + l;
    }
  }

  lemma {:induction false} OneSpaced(l: seq<Str>)
    requires |l| == 1
    ensures Spaced(l) == l[0]
  {
    assert Led(l[1..]) == [] && l[0] + [] == l[0];
  }

  lemma {:induction false} JoinedTaken(a: Acc, l: seq<Str>, quoted: bool)
    requires Shaped(a, true) && l != [] && JoinSpaced(l) == Spaced(l) && JoinSpaced(l[1..]) == Spaced(l[1..])
    ensures AddList(a, l, quoted, true) == Take(a, FirstPart(l, quoted, true), true)
  {
    if |l| == 1 { OneSpaced(l); }
    if |l| == 2 { OneSpaced(l[1..]); }
    hide Spaced, JoinSpaced;
    var last := Last(a.ret);
    assert a.ret == [last];
    assert forall r: Str :: [] + r == r && last + [] == last;
  }

  lemma {:induction false} PlainParts(p: Piece, joined: bool)
    ensures PartsOf(p, joined) == (if p.newStr then [Begin] else []) + PartsOf(p.(newStr := false), joined)
  {
    hide Spaced, Further;
    var l := PartsOf(p.(newStr := false), joined);
    assert [] + l == l;
  }

  /** An element adds its pieces. */
  lemma {:induction false} PieceHolds(a: Acc, ps: seq<Part>, p: Piece, joined: bool)
    requires Holds(a, ps, joined)
    ensures Holds(Adds(a, p, joined), ps + PartsOf(p, joined), joined)
  {
    hide *;
    var q := p.(newStr := false);
    PlainParts(p, joined);
    AddsIs(a, p, joined);
    var b, start := a, ps;
    if p.newStr {
      Begins(a, ps, joined);
      b, start := a.(pending := false), ps + [Begin];
      assert ps + [Begin] + PartsOf(q, joined) == ps + ([Begin] + PartsOf(q, joined));
    } else {
      assert [] + PartsOf(q, joined) == PartsOf(q, joined);
    }
    if p.Single? {
      AddStrHolds(b, start, p.s, joined);
    } else {
      AddListHolds(b, start, p.l, p.quoted, joined);
    }
  }

  /** The list with a piece added. */
  function Adds(a: Acc, p: Piece, joined: bool): Acc {
    var b := if p.newStr then a.(pending := false) else a;
    if p.Single? then AddStr(b, p.s, joined) else AddList(b, p.l, p.quoted, joined)
  }

  lemma {:induction false} AddsIs(a: Acc, p: Piece, joined: bool)
    ensures var b := if p.newStr then a.(pending := false) else a;
            Adds(a, p, joined) == if p.Single? then AddStr(b, p.s, joined) else AddList(b, p.l, p.quoted, joined)
  {
  }

  /** What the first element gives, and the state after it. */
  function First(env: Env, fuel: nat, e: Elem, st: State): Out<seq<Piece>> {
    if e.Fn? then
      var o := Expand(env, fuel, e.h.s, e.args, st);
      Out(if o.ret.Fatal() then o.ret else RTrue, o.st, [Several(e.newStr, e.quoted, o.v)])
    else Out(RTrue, st, PieceOf(env, e, st.stack))
  }

  lemma {:induction false} FirstAdds(env: Env, fuel: nat, e: Elem, st: State, a: Acc, joined: bool)
    ensures var o := Element(env, fuel, e, st, a, joined);
            var f := First(env, fuel, e, st);
            && o.ret == f.ret && o.st == f.st && |f.v| <= 1
            && o.v == if f.v == [] then a else Adds(a, f.v[0], joined)
  {
    hide Expand, AddStr, AddList;
  }

  lemma {:induction false} FirstPieces(env: Env, fuel: nat, es: seq<Elem>, st: State)
    requires es != []
    ensures var f := First(env, fuel, es[0], st);
            var p := Pieces(env, fuel, es, st);
            if f.ret.Fatal() then p.ret == f.ret && p.st == f.st
            else p == Pieces(env, fuel, es[1..], f.st).(v := f.v + Pieces(env, fuel, es[1..], f.st).v)
  {
    hide Expand, PieceOf;
  }

  lemma {:induction false} ElemsHold(env: Env, fuel: nat, es: seq<Elem>, st: State, a: Acc, ps: seq<Part>, joined: bool)
    requires Holds(a, ps, joined)
    ensures var o := Elems(env, fuel, es, st, a, joined);
            var p := Pieces(env, fuel, es, st);
            && o.ret == p.ret && o.st == p.st
            && (!o.ret.Fatal() ==> Holds(o.v, ps + AllParts(p.v, joined), joined))
    decreases es
  {
    hide Expand, Element, Pieces, First, Holds, PartsOf, Adds, AllParts;
    if es == [] {
      NoElems(env, fuel, st, joined);
      assert ps + [] == ps;
    } else {
      var f := First(env, fuel, es[0], st);
      FirstAdds(env, fuel, es[0], st, a, joined);
      FirstPieces(env, fuel, es, st);
      if f.v != [] {
        PieceHolds(a, ps, f.v[0], joined);
      }
      if !f.ret.Fatal() {
        var b, next := if f.v == [] then a else Adds(a, f.v[0], joined), if f.v == [] then ps else ps + PartsOf(f.v[0], joined);
        ElemsHold(env, fuel, es[1..], f.st, b, next, joined);
        FrontParts(ps, f.v, Pieces(env, fuel, es[1..], f.st).v, joined);
      }
    }
  }

  lemma {:induction false} NoElems(env: Env, fuel: nat, st: State, joined: bool)
    ensures Pieces(env, fuel, [], st) == Out(RTrue, st, []) && AllParts([], joined) == []
  {
  }

  lemma {:induction false} FrontParts(ps: seq<Part>, front: seq<Piece>, rest: seq<Piece>, joined: bool)
    requires |front| <= 1
    ensures ps + AllParts(front + rest, joined) ==
            (if front == [] then ps else ps + PartsOf(front[0], joined)) + AllParts(rest, joined)
  {
    hide PartsOf;
    if front == [] {
      assert front + rest == rest;
    } else {
      assert (front + rest)[1..] == rest;
    }
  }

  // ----- the main result ----------------------------------------------------------------------

  /** The words of any expression are built of what its elements give. */
  lemma {:induction false} WordsAreBuilt(env: Env, fuel: nat, x: Expr, st: State, joined: bool)
    ensures var o := Words(env, fuel, x, st, joined);
            var p := Pieces(env, fuel, x.elems, st);
            && o.ret == p.ret && o.st == p.st
            && (!o.ret.Fatal() ==> o.v == Built(p.v, joined))
  {
    NoWord();
    var a := Acc(if joined then [[]] else [], false);
    assert DropEmpty([]) == [] && Spaced([]) == [];
    assert Holds(a, [], joined);
    ElemsHold(env, fuel, x.elems, st, a, [], joined);
    var l := AllParts(Pieces(env, fuel, x.elems, st).v, joined);
    assert [] + l == l;
  }

  /** A variable alone: its list, without a first empty string; and quoted one word, if the list is not empty. */
  lemma {:induction false} VariableAlone(env: Env, fuel: nat, quoted: bool, newStr: bool, h: HStr, st: State)
    ensures var l := Values(st.stack, env.alias(h.s));
            Words(env, fuel, Expr.Expr([Var(quoted, newStr, h)]), st, false) ==
            Out(RTrue, st, if l == [] then [] else if quoted then [Spaced(l)] else if l[0] == [] then l[1..] else l)
  {
    var e := Var(quoted, newStr, h);
    var x := Expr.Expr([e]);
    var l := Values(st.stack, env.alias(h.s));
    var p := Several(newStr, quoted, l);
    WordsAreBuilt(env, fuel, x, st, false);
    NoElems(env, fuel, st, false);
    assert [e][1..] == [] && PieceOf(env, e, st.stack) == [p] && [p] + [] == [p];
    assert Pieces(env, fuel, [e], st) == Out(RTrue, st, [p]);
    assert AllParts([p], false) == PartsOf(p, false) by {
      assert [p][1..] == [];
      assert PartsOf(p, false) + [] == PartsOf(p, false);
    }
    hide Words, Pieces, PieceOf, Spaced;
    PieceWords(p);
  }

  lemma {:induction false} PieceWords(p: Piece)
    requires p.Several?
    ensures WordsIn(PartsOf(p, false)) ==
            if p.l == [] then [] else if p.quoted then [Spaced(p.l)] else if p.l[0] == [] then p.l[1..] else p.l
  {
    var a := Acc([], false);
    EmptyHolds();
    AddedFirst(p);
    assert [] + PartsOf(p, false) == PartsOf(p, false);
    hide PartsOf, WordsIn, Open, Adds;
    PieceHolds(a, [], p, false);
  }

  lemma {:induction false} EmptyHolds()
    ensures Holds(Acc([], false), [], false)
  {
    NoWord();
  }

  lemma {:induction false} AddedFirst(p: Piece)
    requires p.Several?
    ensures Adds(Acc([], false), p, false).ret ==
            if p.l == [] then [] else if p.quoted then [Spaced(p.l)] else if p.l[0] == [] then p.l[1..] else p.l
  {
    JoinIsSpaced(p.l);
    var one: seq<Str> := [[]];
    hide Spaced, JoinSpaced;
    assert [] + one == one && [] + Spaced(p.l) == Spaced(p.l) && [] + p.l == p.l;
    if p.l != [] {
      assert [] + p.l[1..] == p.l[1..] && SetLast(one, Spaced(p.l)) == [Spaced(p.l)];
    }
  }
}
