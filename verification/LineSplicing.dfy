// Reading source text with its backslash-newline pairs spliced out: skipping them,
// matching across them, and closing the gaps in place.
module LineSplicing {
  import opened Tokens
  import opened Characters

  predicate EndOfLine(c: u16) { c == RETURN_ || c == NEWLINE }

  // ----- phase 2: splicing ------------------------------------------------------------

  /** The length of the backslash and line end at the beginning, or 0. */
  function Splice(s: Str): (n: nat)
    ensures n <= |s| && (n == 0 || n >= 2)
  {
    if |s| >= 2 && s[0] == BACKSLASH && EndOfLine(s[1]) then
      if |s| >= 3 && s[1] == RETURN_ && s[2] == NEWLINE then 3 else 2
    else 0
  }

  /** The text with all backslash-newline pairs deleted. */
  function Spliced(s: Str): Str
    decreases |s|
  {
    if s == [] then []
    else if Splice(s) > 0 then Spliced(s[Splice(s)..])
    else [s[0]] + Spliced(s[1..])
  }

  /** The text behind the backslash-newline pairs it begins with. */
  function Skipped(s: Str): (r: Str)
    ensures |r| <= |s| && Splice(r) == 0
    decreases |s|
  {
    if Splice(s) > 0 then Skipped(s[Splice(s)..]) else s
  }

  /** How many pairs the text begins with. */
  function Pairs(s: Str): nat
    decreases |s|
  {
    if Splice(s) > 0 then 1 + Pairs(s[Splice(s)..]) else 0
  }

  lemma {:induction false} SkippedSpliced(s: Str)
    ensures Spliced(Skipped(s)) == Spliced(s)
    ensures Skipped(s) != [] ==> Spliced(s) == [Skipped(s)[0]] + Spliced(Skipped(s)[1..])
    ensures Skipped(s) == [] <==> Spliced(s) == []
    decreases |s|
  {
    if Splice(s) > 0 {
      SkippedSpliced(s[Splice(s)..]);
    }
  }

  /** How many pairs there are in the text. */
  function AllPairs(s: Str): nat
    decreases |s|
  {
    if s == [] then 0
    else if Splice(s) > 0 then 1 + AllPairs(s[Splice(s)..])
    else AllPairs(s[1..])
  }

  lemma {:induction false} PairsSkipped(s: Str)
    ensures AllPairs(s) == Pairs(s) + AllPairs(Skipped(s))
    decreases |s|
  {
    if Splice(s) > 0 {
      PairsSkipped(s[Splice(s)..]);
    }
  }

  /** The text read from a place where no pair is looked for. */
  function Read(s: Str): Str { if s == [] then [] else [s[0]] + Spliced(s[1..]) }

  /** How many pairs are spliced out of it. */
  function ReadPairs(s: Str): nat { if s == [] then 0 else AllPairs(s[1..]) }

  /** At a place that is not a backslash-newline pair, that is the spliced text. */
  lemma {:induction false} ReadIsSpliced(s: Str)
    ensures Splice(s) == 0 ==> Read(s) == Spliced(s) && ReadPairs(s) == AllPairs(s)
  {
  }

  /** A character that is kept, or a backslash and a line end. */
  datatype Piece = Kept(c: u16) | LinuxPair | MacPair | WindowsPair {
    function Text(): Str {
      match this
      case Kept(c) => [c]
      case LinuxPair => U("\\\n")
      case MacPair => U("\\\r")
      case WindowsPair => U("\\\r\n")
    }

    /** A backslash that is kept is not in front of a line end, and a carriage return alone not in front of a line feed. */
    predicate Fits(rest: Str) {
      && (Kept? && c == BACKSLASH && rest != [] ==> !EndOfLine(rest[0]))
      && (MacPair? && rest != [] ==> rest[0] != NEWLINE)
    }
  }

  function PiecesText(ps: seq<Piece>): Str { if ps == [] then [] else ps[0].Text() + PiecesText(ps[1..]) }

  predicate PiecesFit(ps: seq<Piece>) { ps != [] ==> ps[0].Fits(PiecesText(ps[1..])) && PiecesFit(ps[1..]) }

  function KeptOf(ps: seq<Piece>): Str {
    if ps == [] then [] else (if ps[0].Kept? then [ps[0].c] else []) + KeptOf(ps[1..])
  }

  function PairsOf(ps: seq<Piece>): nat { if ps == [] then 0 else (if ps[0].Kept? then 0 else 1) + PairsOf(ps[1..]) }

  lemma {:induction false} OneSpliced(p: Piece, rest: Str)
    requires p.Fits(rest)
    ensures var s := p.Text() + rest;
            && Spliced(s) == (if p.Kept? then [p.c] else []) + Spliced(rest)
            && AllPairs(s) == (if p.Kept? then 0 else 1) + AllPairs(rest)
  {
    var s := p.Text() + rest;
    if p.Kept? {
      assert s[1..] == rest;
    } else {
      assert Splice(s) == |p.Text()| && s[|p.Text()|..] == rest;
      assert [] + Spliced(rest) == Spliced(rest);
    }
  }

  lemma {:induction false} PiecesSpliced(ps: seq<Piece>)
    requires PiecesFit(ps)
    ensures Spliced(PiecesText(ps)) == KeptOf(ps) && AllPairs(PiecesText(ps)) == PairsOf(ps)
  {
    if ps != [] {
      OneSpliced(ps[0], PiecesText(ps[1..]));
      PiecesSpliced(ps[1..]);
    }
  }

  lemma {:induction false} FirstPiece(s: Str) returns (p: Piece, rest: Str)
    requires s != []
    ensures s == p.Text() + rest && p.Fits(rest) && |rest| < |s|
  {
    p := if |s| < 2 || s[0] != BACKSLASH || !EndOfLine(s[1]) then Kept(s[0])
         else if s[1] == NEWLINE then LinuxPair
         else if |s| > 2 && s[2] == NEWLINE then WindowsPair
         else MacPair;
    rest := s[|p.Text()|..];
  }

  lemma {:induction false} PiecesIn(s: Str) returns (ps: seq<Piece>)
    ensures PiecesFit(ps) && PiecesText(ps) == s
    decreases |s|
  {
    ps := [];
    if s != [] {
      var p, rest := FirstPiece(s);
      var more := PiecesIn(rest);
      ps := [p] + more;
      assert ps[1..] == more;
    }
  }

  /** Splicing takes out exactly the backslashes in front of line ends, with these, and counts them. */
  lemma {:induction false} SplicedExactly(s: Str, r: Str, n: nat)
    ensures Spliced(s) == r && AllPairs(s) == n <==>
            exists ps :: PiecesFit(ps) && PiecesText(ps) == s && KeptOf(ps) == r && PairsOf(ps) == n
  {
    if Spliced(s) == r && AllPairs(s) == n {
      var ps := PiecesIn(s);
      PiecesSpliced(ps);
    }
    forall ps | PiecesFit(ps) && PiecesText(ps) == s && KeptOf(ps) == r && PairsOf(ps) == n
      ensures Spliced(s) == r && AllPairs(s) == n
    {
      PiecesSpliced(ps);
    }
  }

  // ----- skipping and matching ---------------------------------------------------------------

  /** Is there a backslash and a line end? */
  predicate AtPair(buffer: Str, r: nat)
    requires r <= |buffer|
    ensures AtPair(buffer, r) <==> Splice(buffer[r..]) > 0
  {
    r + 1 < |buffer| && buffer[r] == BACKSLASH && EndOfLine(buffer[r + 1])
  }

  method SkipPair(buffer: Str, offset: nat) returns (r: nat)
    requires offset <= |buffer| && AtPair(buffer, offset)
    ensures r == offset + Splice(buffer[offset..])
  {
    r := offset + 2;
    if r < |buffer| && buffer[r - 1] == RETURN_ && buffer[r] == NEWLINE {
      r := r + 1;
    }
  }

  method SkipEscapedLineEnds(buffer: Str, offset: nat, lines: nat) returns (r: nat, lines': nat)
    requires offset <= |buffer|
    ensures offset <= r <= |buffer| && buffer[r..] == Skipped(buffer[offset..])
    ensures lines' == lines + Pairs(buffer[offset..])
  {
    hide Splice, AtPair;
    r, lines' := offset, lines;
    while AtPair(buffer, r)
      invariant offset <= r <= |buffer| && Skipped(buffer[r..]) == Skipped(buffer[offset..])
      invariant lines' + Pairs(buffer[r..]) == lines + Pairs(buffer[offset..])
      decreases |buffer| - r
    {
      ghost var was, n := buffer[r..], Splice(buffer[r..]);
      r := SkipPair(buffer, r);
      lines' := lines' + 1;
      assert buffer[r..] == was[n..];
    }
  }

  /** How many first characters two texts have in common. */
  function Common(a: Str, b: Str): (n: nat)
    ensures n <= |a| && n <= |b|
  {
    if a == [] || b == [] || a[0] != b[0] then 0 else 1 + Common(a[1..], b[1..])
  }

  lemma {:induction false} CommonAt(a: Str, b: Str, n: nat)
    requires n <= |a| && n <= |b| && a[..n] == b[..n] && (n < |a| && n < |b| ==> a[n] != b[n])
    ensures Common(a, b) == n
    decreases n
  {
    if n > 0 {
      assert a[0] == a[..n][0] && b[0] == b[..n][0];
      assert a[1..][..n - 1] == a[..n][1..] && b[1..][..n - 1] == b[..n][1..];
      CommonAt(a[1..], b[1..], n - 1);
    }
  }

  /** Matches the needle against the spliced text. The match is `matchLen` characters long, with the pairs in it and
      behind it. It ends at `end`, behind the characters that agree, and the pairs on the way there are counted. */
  method MatchWhileUnsplitting(buffer: Str, start: nat, needle: Str, lines: nat)
    returns (found: bool, matchLen: nat, lines': nat, ghost end: nat)
    requires start <= |buffer|
    ensures found <==> needle <= Read(buffer[start..])
    ensures start <= end <= |buffer| && (found ==> start + matchLen == end)
    ensures var whole := Read(buffer[start..]); Place(whole, Common(needle, whole), buffer[end..])
    ensures lines' + ReadPairs(buffer[end..]) == lines + ReadPairs(buffer[start..])
  {
    matchLen, lines' := 0, lines;
    var x := start;
    ghost var whole := Read(buffer[start..]);
    AgreesWhole(needle, whole);
    hide Read, Spliced, Splice, Skipped, Pairs, AllPairs, ReadPairs, Agrees, Common;
    for n := 0 to |needle|
      invariant start <= x <= |buffer| && Agrees(needle, whole, n) && Place(whole, n, buffer[x..])
      invariant lines' + ReadPairs(buffer[x..]) == lines + ReadPairs(buffer[start..])
    {
      NextPlace(needle, whole, n, buffer[x..]);
      if x >= |buffer| || buffer[x] != needle[n] {
        found, end := false, x;
        return;
      }
      assert buffer[x..][1..] == buffer[x + 1..];
      x, lines' := SkipEscapedLineEnds(buffer, x + 1, lines');
    }
    AgreesAll(needle, whole);
    found, matchLen, end := true, x - start, x;
  }

  /** The first `n` characters of what is read from some place are read, and `text` is left, with no pair in front. */
  predicate Place(whole: Str, n: nat, text: Str) {
    if n == 0 then whole == Read(text) else n <= |whole| && whole[n..] == Spliced(text) && Splice(text) == 0
  }

  /** The first `n` characters of the needle are those of the text. */
  predicate Agrees(needle: Str, whole: Str, n: nat) { n <= |needle| && n <= |whole| && needle[..n] == whole[..n] }

  lemma {:induction false} AgreesWhole(needle: Str, whole: Str)
    ensures Agrees(needle, whole, 0) && (Agrees(needle, whole, |needle|) <==> needle <= whole)
  {
  }

  lemma {:induction false} NextPlace(needle: Str, whole: Str, n: nat, text: Str)
    requires Place(whole, n, text) && Agrees(needle, whole, n) && n < |needle|
    ensures text != [] ==> Place(whole, n + 1, Skipped(text[1..]))
    ensures text != [] && text[0] == needle[n] ==> Agrees(needle, whole, n + 1)
    ensures text != [] ==> ReadPairs(text) == Pairs(text[1..]) + ReadPairs(Skipped(text[1..]))
    ensures text == [] || text[0] != needle[n] ==> !(needle <= whole) && Common(needle, whole) == n
  {
    ReadFirst(whole, n, text);
    if text != [] {
      SkippedSpliced(text[1..]);
      PairsSkipped(text[1..]);
      ReadIsSpliced(Skipped(text[1..]));
    }
    if text == [] || text[0] != needle[n] {
      CommonAt(needle, whole, n);
    }
  }

  lemma {:induction false} AgreesAll(needle: Str, whole: Str)
    requires Agrees(needle, whole, |needle|)
    ensures Common(needle, whole) == |needle|
  {
    CommonAt(needle, whole, |needle|);
  }

  /** At the place where the rest of the text read begins. */
  lemma {:induction false} ReadFirst(whole: Str, n: nat, text: Str)
    requires n <= |whole|
    requires Place(whole, n, text)
    ensures n == |whole| <==> text == []
    ensures text != [] ==> whole[n] == text[0] && whole[n + 1..] == Spliced(text[1..])
  {
    ReadIsSpliced(text);
    if n == 0 {
      assert whole[0..] == whole;
    }
    if text != [] {
      assert whole[n..] == [text[0]] + Spliced(text[1..]);
      assert whole[n] == whole[n..][0] && whole[n + 1..] == whole[n..][1..];
    }
  }

  // ----- closing the gaps in place ----------------------------------------------------------------

  /** After `k` characters of the spliced text `all`, `text` is left, with no pair in front. */
  predicate Left(all: Str, k: nat, text: Str) { k <= |all| && all[k..] == Spliced(text) && Splice(text) == 0 }

  lemma {:induction false} LeftStarts(text: Str)
    ensures Left(Spliced(text), 0, Skipped(text))
  {
    SkippedSpliced(text);
    assert Spliced(text)[0..] == Spliced(text);
  }

  lemma {:induction false} LeftNext(all: Str, k: nat, text: Str)
    requires Left(all, k, text)
    ensures k == |all| <==> text == []
    ensures text != [] ==> all[k] == text[0] && Left(all, k + 1, Skipped(text[1..]))
    ensures text != [] ==> AllPairs(text) == Pairs(text[1..]) + AllPairs(Skipped(text[1..]))
  {
    if text != [] {
      SkippedSpliced(text[1..]);
      PairsSkipped(text[1..]);
      assert all[k..] == [text[0]] + Spliced(text[1..]);
      assert all[k] == all[k..][0] && all[k + 1..] == all[k..][1..];
    }
  }

  /** While a buffer is compacted: the first characters of the spliced text stand between `start` and `clean`, and
      nothing is changed in front of them, nor from `x` on. */
  ghost predicate Compacted(was: Str, now: Str, start: nat, clean: nat, x: nat, all: Str) {
    && start <= clean <= x <= |was| == |now| && now[..start] == was[..start] && now[x..] == was[x..]
    && clean - start <= |all| && now[start..clean] == all[..clean - start]
  }

  lemma {:induction false} NameCompacted(was: Str, now: Str, start: nat, clean: nat, x: nat, all: Str)
    requires Compacted(was, now, start, clean, x, all)
    ensures start <= clean <= x <= |was| == |now| && now[..start] == was[..start] && now[x..] == was[x..]
    ensures clean - start <= |all| && now[start..clean] == all[..clean - start]
  {
  }

  /** Copies a character down, if there is a gap. */
  method CopyDown(buffer: array<u16>, ghost was: Str, start: nat, clean: nat, x: nat, ghost all: Str, y: nat)
    requires Compacted(was, buffer[..], start, clean, x, all) && x < y <= buffer.Length
    requires clean - start < |all| && all[clean - start] == buffer[x]
    modifies buffer
    ensures Compacted(was, buffer[..], start, clean + 1, y, all)
  {
    ghost var k := clean - start;
    assert buffer[x] == buffer[..][x..][0] == was[x];
    if clean < x {
      buffer[clean] := buffer[x];
    }
    var now := buffer[..];
    assert forall i | y <= i < |now| :: now[i] == was[x..][i - x] == was[i];
    assert forall i | start <= i < clean :: now[i] == all[..k][i - start];
    assert now[..start] == was[..start];
    assert now[start..clean + 1] == all[..k + 1];
  }

  /** Takes one more character, and skips what follows it. */
  method CompactChar(buffer: array<u16>, ghost was: Str, start: nat, clean: nat, x: nat, len: nat, ghost all: Str, lines: nat)
    returns (y: nat, lines': nat)
    requires x < len <= buffer.Length && Compacted(was, buffer[..], start, clean, x, all)
    requires Left(all, clean - start, was[x..len])
    modifies buffer
    ensures x < y <= len && Compacted(was, buffer[..], start, clean + 1, y, all)
    ensures Left(all, clean + 1 - start, was[y..len]) && all[clean - start] == was[x]
    ensures y < len ==> buffer[y] == was[y]
    ensures lines' + AllPairs(was[y..len]) == lines + AllPairs(was[x..len])
  {
    LeftNext(all, clean - start, was[x..len]);
    Unscanned(was, buffer[..], x, len);
    hide Left, Skipped, Pairs, AllPairs;
    y, lines' := SkipEscapedLineEnds(buffer[..len], x + 1, lines);
    Suffix(buffer[..], was, x, y);
    Unscanned(was, buffer[..], y, len);
    CopyDown(buffer, was, start, clean, x, all, y);
    Unscanned(was, buffer[..], y, len);
  }

  lemma {:induction false} Suffix(a: Str, b: Str, x: nat, y: nat)
    requires x <= y <= |a| == |b| && a[x..] == b[x..]
    ensures a[y..] == b[y..]
  {
    assert a[y..] == a[x..][y - x..] && b[y..] == b[x..][y - x..];
  }

  /** How a name ends: in front of its terminator, in front of a line end, or with the file. */
  datatype Ending = Terminated | Malformed | AtEof

  predicate Stops(c: u16, term: u16) { c == term || EndOfLine(c) }

  /** The length of a name that `term` ends. */
  function NameLen(s: Str, term: u16): (n: nat)
    ensures n <= |s|
  {
    if s == [] || Stops(s[0], term) then 0 else 1 + NameLen(s[1..], term)
  }

  function EndingOf(s: Str, term: u16): Ending {
    var n := NameLen(s, term);
    if n == |s| then AtEof else if s[n] == term then Terminated else Malformed
  }

  lemma {:induction false} NameAt(s: Str, term: u16, n: nat)
    requires n <= |s| && (forall i | 0 <= i < n :: !Stops(s[i], term)) && (n < |s| ==> Stops(s[n], term))
    ensures NameLen(s, term) == n
    decreases n
  {
    if n > 0 {
      NameAt(s[1..], term, n - 1);
    }
  }

  /** Puts a zero behind the name. At the end of the file there may be no room for it. */
  method Terminate(buffer: array<u16>, ghost was: Str, inc: nat, clean: nat, x: nat, ghost all: Str)
    requires Compacted(was, buffer[..], inc, clean, x, all)
    modifies buffer
    ensures buffer[..inc] == was[..inc] && buffer[inc..clean] == all[..clean - inc]
    ensures clean < buffer.Length ==> buffer[clean] == 0
    ensures x < buffer.Length ==> buffer[x + 1..] == was[x + 1..]
  {
    ghost var now := buffer[..];
    assert buffer[inc..clean] == now[inc..clean];
    if x < |was| {
      Suffix(now, was, x, x + 1);
      assert buffer[x + 1..] == now[x + 1..];
    }
    if clean < buffer.Length {
      buffer[clean] := 0;
    }
  }

  /** Takes characters from the beginning of a name at `inc` to what ends it. */
  method ScanName(buffer: array<u16>, ghost was: Str, inc: nat, len: nat, term: u16, ghost all: Str, lines: nat)
    returns (ending: Ending, clean: nat, x: nat, lines': nat)
    requires inc <= len <= buffer.Length && !EndOfLine(term) && was == buffer[..] && Left(all, 0, was[inc..len])
    modifies buffer
    ensures x <= len && Compacted(was, buffer[..], inc, clean, x, all)
    ensures ending == EndingOf(all, term) && clean - inc == NameLen(all, term)
    ensures ending.AtEof? <==> x == len
    ensures lines' + AllPairs(was[x..len]) == lines + AllPairs(was[inc..len]) + if ending.Malformed? then 1 else 0
  {
    x, clean, ending, lines' := inc, inc, Terminated, lines;
    hide Spliced, Splice, Skipped, Pairs, AllPairs, Left, NameLen, EndingOf;
    while x < len && buffer[x] != term
      invariant Compacted(was, buffer[..], inc, clean, x, all) && x <= len
      invariant Left(all, clean - inc, was[x..len])
      invariant forall i | 0 <= i < clean - inc :: !Stops(all[i], term)
      invariant ending.Terminated? && (x < len ==> buffer[x] == was[x])
      invariant lines' + AllPairs(was[x..len]) == lines + AllPairs(was[inc..len])
      decreases len - x
    {
      if EndOfLine(buffer[x]) {
        ending, lines' := Malformed, lines' + 1;
        break;
      }
      x, lines' := CompactChar(buffer, was, inc, clean, x, len, all, lines');
      clean := clean + 1;
    }
    NameEnds(all, clean - inc, was, x, len, term);
    if x == len {
      ending := AtEof;
    }
  }

  /** Reads the name of an include from behind its opening quote, and compacts it: afterwards the spliced name stands
      at `inc`, with a zero behind it, and nothing behind the place reached is changed. The lines counted are those of
      the pairs passed, and the one whose end the name meets. */
  method CompactName(buffer: array<u16>, len: nat, start: nat, term: u16, lines: nat)
    returns (ending: Ending, inc: nat, clean: nat, x: nat, lines': nat)
    requires start <= len <= buffer.Length && !EndOfLine(term)
    modifies buffer
    ensures ending == EndingOf(Spliced(old(buffer[start..len])), term)
    ensures start <= inc <= clean <= x <= len
    ensures buffer[..inc] == old(buffer[..inc])
    ensures ending.Terminated? ==> x < len && clean < len && buffer[clean] == 0 && buffer[x + 1..] == old(buffer[x + 1..])
    ensures ending.Malformed? ==> buffer[x..] == old(buffer[x..])
    ensures ending.AtEof? && clean < buffer.Length ==> buffer[clean] == 0
    ensures ending.AtEof? ==> x == len && (len < buffer.Length ==> buffer[len + 1..] == old(buffer[len + 1..]))
    ensures var all := Spliced(old(buffer[start..len])); buffer[inc..clean] == all[..NameLen(all, term)]
    ensures lines' + AllPairs(old(buffer[x..len])) == lines + AllPairs(old(buffer[start..len])) + if ending.Malformed? then 1 else 0
  {
    ghost var was := buffer[..];
    ghost var all := Spliced(buffer[start..len]);
    LeftStarts(buffer[start..len]);
    PairsSkipped(buffer[start..len]);
    inc, lines' := SkipEscapedLineEnds(buffer[..len], start, lines);
    ending, clean, x, lines' := ScanName(buffer, was, inc, len, term, all, lines');
    hide *;
    NameCompacted(was, buffer[..], inc, clean, x, all);
    if !ending.Malformed? {
      Terminate(buffer, was, inc, clean, x, all);
    } else {
      assert buffer[inc..clean] == buffer[..][inc..clean];
    }
  }

  /** What is not scanned yet is unchanged. */
  lemma {:induction false} Unscanned(was: Str, now: Str, x: nat, len: nat)
    requires |was| == |now| && x <= len <= |was| && now[x..] == was[x..]
    ensures x < len ==> now[x] == was[x] && now[..len][x + 1..] == was[x..len][1..] && was[x..len][0] == was[x]
    ensures now[..len][x..] == was[x..len]
  {
    assert now[x..][..len - x] == was[x..][..len - x];
    assert now[..len][x..] == now[x..][..len - x];
    assert was[x..len] == was[x..][..len - x];
    if x < len {
      assert now[x] == now[x..][0];
    }
  }

  lemma {:induction false} NameEnds(all: Str, k: nat, was: Str, x: nat, len: nat, term: u16)
    requires x <= len <= |was| && Left(all, k, was[x..len]) && (forall i | 0 <= i < k :: !Stops(all[i], term))
    requires x < len ==> Stops(was[x], term)
    ensures NameLen(all, term) == k
    ensures EndingOf(all, term) == if x == len then AtEof else if was[x] == term then Terminated else Malformed
  {
    LeftNext(all, k, was[x..len]);
    NameAt(all, term, k);
  }

  predicate Letter(c: u16) { 97 <= c <= 122 }

  function LetterLen(s: Str): (n: nat)
    ensures n <= |s|
  {
    if s == [] || !Letter(s[0]) then 0 else 1 + LetterLen(s[1..])
  }

  lemma {:induction false} LettersAt(s: Str, n: nat)
    requires n <= |s| && (forall i | 0 <= i < n :: Letter(s[i])) && (n < |s| ==> !Letter(s[n]))
    ensures LetterLen(s) == n
    decreases n
  {
    if n > 0 {
      LettersAt(s[1..], n - 1);
    }
  }

  lemma {:induction false} SkippedNone(s: Str)
    requires Splice(s) == 0
    ensures Skipped(s) == s
  {
  }

  const INCLUDE: Str := U("include")
  const IMPORT: Str := U("import")

  /** Reads the keyword behind a '#', compacts it, and says whether a file name follows. What is behind the keyword is
      left, unchanged, at `x`. */
  method CompactKeyword(buffer: array<u16>, len: nat, start: nat, lines: nat)
    returns (includes: bool, clean: nat, x: nat, lines': nat)
    requires start <= len <= buffer.Length && Splice(buffer[start..len]) == 0
    modifies buffer
    ensures start <= clean <= x <= len && buffer[..start] == old(buffer[..start]) && buffer[x..] == old(buffer[x..])
    ensures var all := Spliced(old(buffer[start..len]));
            var n := LetterLen(all);
            && buffer[start..clean] == all[..n] && all[n..] == Spliced(buffer[x..len])
            && (includes <==> all[..n] == INCLUDE || all[..n] == IMPORT)
    ensures lines' + AllPairs(buffer[x..len]) == lines + AllPairs(old(buffer[start..len]))
  {
    ghost var was := buffer[..];
    ghost var all := Spliced(buffer[start..len]);
    LeftStarts(buffer[start..len]);
    clean, x, lines' := start, start, lines;
    SkippedNone(buffer[start..len]);
    hide Spliced, Splice, Skipped, Pairs, AllPairs, Left, LetterLen;
    while x < len && Letter(buffer[x])
      invariant Compacted(was, buffer[..], start, clean, x, all) && x <= len && (x < len ==> buffer[x] == was[x])
      invariant Left(all, clean - start, was[x..len])
      invariant forall i | 0 <= i < clean - start :: Letter(all[i])
      invariant lines' + AllPairs(was[x..len]) == lines + AllPairs(was[start..len])
      decreases len - x
    {
      x, lines' := CompactChar(buffer, was, start, clean, x, len, all, lines');
      clean := clean + 1;
    }
    KeywordEnds(all, clean - start, was, x, len);
    assert buffer[start..clean] == buffer[..][start..clean];
    Unscanned(was, buffer[..], x, len);
    assert buffer[x..len] == buffer[..][..len][x..];
    includes := buffer[start..clean] == INCLUDE || buffer[start..clean] == IMPORT;
  }

  lemma {:induction false} KeywordEnds(all: Str, k: nat, was: Str, x: nat, len: nat)
    requires x <= len <= |was| && Left(all, k, was[x..len]) && (forall i | 0 <= i < k :: Letter(all[i]))
    requires x < len ==> !Letter(was[x])
    ensures LetterLen(all) == k && all[k..] == Spliced(was[x..len])
  {
    LeftNext(all, k, was[x..len]);
    LettersAt(all, k);
  }
}
