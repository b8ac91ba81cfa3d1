// fileFixify(): making a path relative to the output directory, by steps up that
// are limited in number.
module FileFixify {
  import opened Tokens
  import opened Characters

  const DOT: Str := [46]
  const DOTDOT: Str := [46, 46]

  // ----- clean paths ------------------------------------------------------------------

  predicate CleanName(c: Str) { c != [] && SLASH !in c && c != DOT && c != DOTDOT }

  predicate Clean(cs: seq<Str>) { forall i | 0 <= i < |cs| :: CleanName(cs[i]) }

  /** Parts of a path, among which may be "..". */
  predicate Parts(cs: seq<Str>) { forall i | 0 <= i < |cs| :: cs[i] != [] && SLASH !in cs[i] }

  /** "/a/b" for [a, b], and nothing for []. */
  function Abs(cs: seq<Str>): Str {
    if cs == [] then [] else Abs(cs[..|cs| - 1]) + [SLASH] + cs[|cs| - 1]
  }

  /** The clean absolute path with the names `cs`. */
  function Path(cs: seq<Str>): Str { if cs == [] then [SLASH] else Abs(cs) }

  /** "a/b" for [a, b]. */
  function Join(cs: seq<Str>): Str
    requires cs != []
  {
    if |cs| == 1 then cs[0] else cs[0] + [SLASH] + Join(cs[1..])
  }

  /** "../" so many times. */
  function Dots(n: nat): Str { if n == 0 then [] else DOTDOT + [SLASH] + Dots(n - 1) }

  // ----- reading a path -----------------------------------------------------------------

  /** The parts between slashes. */
  function Split(s: Str): (parts: seq<Str>)
    ensures parts != []
  {
    if s == [] then [[]]
    else
      var rest := Split(s[1..]);
      if s[0] == SLASH then [[]] + rest else [[s[0]] + rest[0]] + rest[1..]
  }

  /** Going along the parts: empty ones and "." stay, ".." goes up. */
  function Walk(at: seq<Str>, parts: seq<Str>): seq<Str>
    decreases parts
  {
    if parts == [] then at else Walk(Go(at, parts[0]), parts[1..])
  }

  function Go(at: seq<Str>, p: Str): seq<Str> {
    if p == [] || p == DOT || (p == DOTDOT && at == []) then at
    else if p == DOTDOT then at[..|at| - 1]
    else at + [p]
  }

  predicate IsAbsolute(s: Str) { s != [] && s[0] == SLASH }

  /** What a path means in a directory: the names of the normalised absolute path. */
  function Resolve(dir: Str, s: Str): seq<Str> {
    Walk([], Split(if IsAbsolute(s) then s else dir + [SLASH] + s))
  }

  lemma {:induction false} SplitJoin(a: Str, b: Str)
    ensures Split(a + [SLASH] + b) == Split(a) + Split(b)
  {
    var s := a + [SLASH] + b;
    if a == [] {
      assert s[1..] == b;
    } else {
      assert s[1..] == a[1..] + [SLASH] + b;
      SplitJoin(a[1..], b);
    }
  }

  lemma {:induction false} SplitName(c: Str)
    requires SLASH !in c
    ensures Split(c) == [c]
  {
    if c != [] {
      SplitName(c[1..]);
      assert [c[0]] + c[1..] == c;
    }
  }

  lemma {:induction false} SplitAbs(cs: seq<Str>)
    requires Parts(cs)
    ensures Split(Abs(cs)) == [[]] + cs
  {
    if cs != [] {
      var init, last := cs[..|cs| - 1], cs[|cs| - 1];
      SplitAbs(init);
      SplitJoin(Abs(init), last);
      SplitName(last);
      assert init + [last] == cs;
    }
  }

  lemma {:induction false} SplitNames(cs: seq<Str>)
    requires Parts(cs) && cs != []
    ensures Split(Join(cs)) == cs && !IsAbsolute(Join(cs)) && Join(cs) != []
  {
    SplitName(cs[0]);
    if |cs| > 1 {
      SplitNames(cs[1..]);
      SplitJoin(cs[0], Join(cs[1..]));
      assert [cs[0]] + cs[1..] == cs;
    }
  }

  function Ups(n: nat): seq<Str> { if n == 0 then [] else [DOTDOT] + Ups(n - 1) }

  lemma {:induction false} SplitDots(n: nat, s: Str)
    ensures Split(Dots(n) + s) == Ups(n) + Split(s)
  {
    if n == 0 {
      assert Dots(n) + s == s;
    } else {
      SplitDots(n - 1, s);
      assert Dots(n) + s == DOTDOT + [SLASH] + (Dots(n - 1) + s);
      SplitJoin(DOTDOT, Dots(n - 1) + s);
      SplitName(DOTDOT);
      assert Ups(n) + Split(s) == [DOTDOT] + (Ups(n - 1) + Split(s));
    }
  }

  lemma {:induction false} WalkAppend(at: seq<Str>, a: seq<Str>, b: seq<Str>)
    ensures Walk(at, a + b) == Walk(Walk(at, a), b)
    decreases a
  {
    if a == [] {
      assert a + b == b;
    } else {
      assert (a + b)[1..] == a[1..] + b;
      WalkAppend(Go(at, a[0]), a[1..], b);
    }
  }

  lemma {:induction false} WalkOne(at: seq<Str>, p: Str)
    ensures Walk(at, [p]) == Go(at, p)
  {
    var one: seq<Str> := [p];
    assert one[1..] == [];
  }

  lemma {:induction false} WalkNames(at: seq<Str>, cs: seq<Str>)
    requires Clean(cs)
    ensures Walk(at, cs) == at + cs
    decreases cs
  {
    if cs == [] {
      assert at + cs == at;
    } else {
      WalkNames(at + [cs[0]], cs[1..]);
      assert at + [cs[0]] + cs[1..] == at + cs;
    }
  }

  lemma {:induction false} WalkUps(at: seq<Str>, n: nat)
    requires n <= |at|
    ensures Walk(at, Ups(n)) == at[..|at| - n]
    decreases n
  {
    if n == 0 {
      assert at[..|at|] == at;
    } else {
      assert Ups(n)[1..] == Ups(n - 1);
      WalkUps(at[..|at| - 1], n - 1);
    }
  }

  // ----- cleaning a path --------------------------------------------------------------

  /** Steps up first, and then names. */
  predicate Normal(cs: seq<Str>) {
    && Parts(cs) && (forall i | 0 <= i < |cs| :: cs[i] != DOT)
    && forall i, j | 0 <= i < j < |cs| && cs[j] == DOTDOT :: cs[i] == DOTDOT
  }

  /** Takes the parts in, behind those that are reduced already: "." and nothing go, ".." takes a name with it. */
  function Reduced(cs: seq<Str>, parts: seq<Str>): (r: seq<Str>)
    requires Normal(cs) && forall i | 0 <= i < |parts| :: SLASH !in parts[i]
    ensures Normal(r)
    decreases parts
  {
    if parts == [] then cs
    else
      var p := parts[0];
      if p == [] || p == DOT then Reduced(cs, parts[1..])
      else if p == DOTDOT && cs != [] && cs[|cs| - 1] != DOTDOT then Reduced(cs[..|cs| - 1], parts[1..])
      else
        Reduced(cs + [p], parts[1..])
  }

  /** The parts of a path when it is cleaned. */
  function CleanParts(s: Str): (r: seq<Str>)
    ensures Normal(r)
  {
    SplitParts(s);
    Reduced([], Split(s))
  }

  /** The path without what is redundant: what QDir::cleanPath() promises. */
  function CleanPath(s: Str): Str {
    var cs := CleanParts(s);
    if s == [] then []
    else if IsAbsolute(s) then Path(cs)
    else if cs == [] then DOT
    else
      Join(cs)
  }

  lemma {:induction false} SplitParts(s: Str)
    ensures forall i | 0 <= i < |Split(s)| :: SLASH !in Split(s)[i]
  {
    if s != [] {
      SplitParts(s[1..]);
    }
  }

  /** Reducing the parts does not change where they lead. */
  lemma {:induction false} ReducedMeans(at: seq<Str>, cs: seq<Str>, parts: seq<Str>)
    requires Normal(cs) && forall i | 0 <= i < |parts| :: SLASH !in parts[i]
    ensures Walk(at, Reduced(cs, parts)) == Walk(Walk(at, cs), parts)
    decreases parts
  {
    if parts != [] {
      var p := parts[0];
      if p == [] || p == DOT {
        ReducedMeans(at, cs, parts[1..]);
      } else if p == DOTDOT && cs != [] && cs[|cs| - 1] != DOTDOT {
        WalkLast(at, cs);
        ReducedMeans(at, cs[..|cs| - 1], parts[1..]);
      } else {
        WalkAppend(at, cs, [p]);
        WalkOne(Walk(at, cs), p);
        ReducedMeans(at, cs + [p], parts[1..]);
      }
    }
  }

  /** A name at the end is taken off by a step up. */
  lemma {:induction false} WalkLast(at: seq<Str>, cs: seq<Str>)
    requires Normal(cs) && cs != [] && cs[|cs| - 1] != DOTDOT
    ensures Go(Walk(at, cs), DOTDOT) == Walk(at, cs[..|cs| - 1])
  {
    var init, last := cs[..|cs| - 1], cs[|cs| - 1];
    assert init + [last] == cs;
    WalkAppend(at, init, [last]);
    var up := Walk(at, init);
    WalkOne(up, last);
    assert (up + [last])[..|up|] == up;
  }

  // ----- paths as strings ------------------------------------------------------------------

  lemma {:induction false} AbsJoin(es: seq<Str>, xs: seq<Str>)
    requires xs != []
    ensures Abs(es + xs) == Abs(es) + [SLASH] + Join(xs)
    decreases xs
  {
    if |xs| == 1 {
      assert (es + xs)[..|es|] == es;
    } else {
      assert es + xs == (es + [xs[0]]) + xs[1..];
      AbsJoin(es + [xs[0]], xs[1..]);
      assert (es + [xs[0]])[..|es|] == es;
      assert Abs(es) + [SLASH] + xs[0] + [SLASH] + Join(xs[1..]) == Abs(es) + [SLASH] + Join(xs);
    }
  }

  /** The directory `es` is above the file `cs`. */
  predicate Above(es: seq<Str>, cs: seq<Str>) { |es| < |cs| && cs[..|es|] == es }

  /** For the strings that is a prefix that ends in a slash. */
  lemma {:induction false} PrefixIsAbove(es: seq<Str>, cs: seq<Str>)
    requires Parts(es) && Parts(cs) && es != []
    ensures Abs(es) + [SLASH] <= Path(cs) <==> Above(es, cs)
    ensures Above(es, cs) ==> Path(cs)[|Abs(es)| + 1..] == Join(cs[|es|..])
  {
    var p := Abs(es) + [SLASH];
    if Above(es, cs) {
      AbsJoin(es, cs[|es|..]);
      assert es + cs[|es|..] == cs;
      hide *;
      assert p + Join(cs[|es|..]) == Abs(es) + [SLASH] + Join(cs[|es|..]);
    } else if p <= Path(cs) {
      PrefixOnlyAbove(es, cs, Path(cs)[|p|..]);
    }
  }

  lemma {:induction false} PrefixOnlyAbove(es: seq<Str>, cs: seq<Str>, t: Str)
    requires Parts(es) && Parts(cs) && es != [] && Path(cs) == Abs(es) + [SLASH] + t
    ensures Above(es, cs)
  {
    AbsLong(es);
    SplitAbs(es);
    SplitAbs(cs);
    SplitJoin(Abs(es), t);
    hide Split, Parts;
    var none: seq<Str> := [[]];
    assert (none + cs)[1..] == cs && (none + es + Split(t))[1..] == es + Split(t);
  }

  lemma {:induction false} AbsLong(es: seq<Str>)
    requires Parts(es) && es != []
    ensures |Abs(es)| >= 2 && Abs(es)[0] == SLASH && Abs(es)[1] != SLASH
  {
    if |es| > 1 {
      AbsLong(es[..|es| - 1]);
    } else {
      assert Abs(es[..0]) == [];
      assert es[0][0] in es[0];
    }
  }

  lemma {:induction false} PathInjective(cs: seq<Str>, ds: seq<Str>)
    requires Parts(cs) && Parts(ds)
    ensures Path(cs) == Path(ds) <==> cs == ds
  {
    SplitAbs(cs);
    SplitAbs(ds);
    if Path(cs) == Path(ds) {
      if cs == [] || ds == [] {
        if cs != [] { AbsLong(cs); }
        if ds != [] { AbsLong(ds); }
      } else {
        assert ([[]] + cs)[1..] == cs && ([[]] + ds)[1..] == ds;
      }
    }
  }

  /** Index of the last slash, or -1. */
  function LastSlash(s: Str): (r: int)
    ensures -1 <= r < |s|
  {
    if s == [] then -1 else if s[|s| - 1] == SLASH then |s| - 1 else LastSlash(s[..|s| - 1])
  }

  lemma {:induction false} LastSlashBefore(a: Str, c: Str)
    requires SLASH !in c
    ensures LastSlash(a + [SLASH] + c) == |a|
    decreases c
  {
    var s := a + [SLASH] + c;
    if c != [] {
      assert s[..|s| - 1] == a + [SLASH] + c[..|c| - 1];
      LastSlashBefore(a, c[..|c| - 1]);
    }
  }

  lemma {:induction false} Parent(ds: seq<Str>)
    requires Parts(ds) && ds != []
    ensures LastSlash(Abs(ds)) == |Abs(ds[..|ds| - 1])| && Abs(ds)[..LastSlash(Abs(ds))] == Abs(ds[..|ds| - 1])
  {
    LastSlashBefore(Abs(ds[..|ds| - 1]), ds[|ds| - 1]);
  }

  // ----- fixing ---------------------------------------------------------------------------------

  /** The file is below the directory `j` steps up, which is not the root. */
  predicate Reached(cs: seq<Str>, ds: seq<Str>, j: nat) { j < |ds| && Above(ds[..|ds| - j], cs) }

  /** How many steps up, at most `depth` and not to the root, until the file is below; at least `i`. 0 if none. */
  function StepsUp(cs: seq<Str>, ds: seq<Str>, depth: int, i: nat): (r: nat)
    requires i > 0
    ensures r > 0 ==> i <= r <= depth && Reached(cs, ds, r)
    decreases |ds| - i
  {
    if i > depth || i >= |ds| then 0
    else if Reached(cs, ds, i) then i
    else StepsUp(cs, ds, depth, i + 1)
  }

  lemma {:induction false} NoneBefore(cs: seq<Str>, ds: seq<Str>, depth: int, i: nat)
    requires i > 0
    ensures var r := StepsUp(cs, ds, depth, i);
            forall j | i <= j && (if r > 0 then j < r else j <= depth) :: !Reached(cs, ds, j)
    decreases |ds| - i
  {
    if i <= depth && i < |ds| && !Reached(cs, ds, i) {
      NoneBefore(cs, ds, depth, i + 1);
    }
  }

  /** The steps up and the rest of the path; the path itself if there are none. */
  function Stepped(cs: seq<Str>, ds: seq<Str>, depth: int, i: nat): Str
    requires i > 0
  {
    var r := StepsUp(cs, ds, depth, i);
    if r > 0 then Dots(r) + Join(cs[|ds| - r..]) else Path(cs)
  }

  /** The path of the file `cs`, for use in the directory `ds`. */
  function Fixed(cs: seq<Str>, ds: seq<Str>, depth: int): Str {
    if cs == ds then DOT
    else if ds != [] && Above(ds, cs) then Join(cs[|ds|..])
    else
      Stepped(cs, ds, depth, 1)
  }

  lemma {:induction false} DotsSnoc(n: nat)
    ensures Dots(n) + (DOTDOT + [SLASH]) == Dots(n + 1)
  {
    if n > 0 {
      DotsSnoc(n - 1);
      assert DOTDOT + [SLASH] + Dots(n - 1) + (DOTDOT + [SLASH]) == DOTDOT + [SLASH] + (Dots(n - 1) + (DOTDOT + [SLASH]));
    }
  }

  method DotPrefix(i: nat) returns (s: Str)
    ensures s == Dots(i)
  {
    s := [];
    for o := 0 to i
      invariant s == Dots(o)
    {
      DotsSnoc(o);
      s := s + (DOTDOT + [SLASH]);
    }
  }

  /** The directory with its last `i - 1` names cut off. */
  predicate CutTo(ds: seq<Str>, i: nat, dir: Str) {
    if ds == [] then i == 1 && dir == [SLASH] else 1 <= i <= |ds| && dir == Abs(ds[..|ds| - (i - 1)])
  }

  lemma {:induction false} CutStarts(ds: seq<Str>)
    ensures CutTo(ds, 1, Path(ds))
  {
    assert ds[..|ds|] == ds;
  }

  /** One name cut off: the next directory above, or nothing at the root. */
  lemma {:induction false} CutShorter(ds: seq<Str>, i: nat, dir: Str)
    requires Parts(ds) && CutTo(ds, i, dir)
    ensures LastSlash(dir) >= 0
    ensures var cut := dir[..LastSlash(dir)];
            if i < |ds| then cut == Abs(ds[..|ds| - i]) && cut != [] && CutTo(ds, i + 1, cut) else cut == []
  {
    if ds != [] {
      var es, up := ds[..|ds| - (i - 1)], ds[..|ds| - i];
      assert es[..|es| - 1] == up;
      PartsUp(ds, i - 1);
      PartsUp(ds, i);
      hide Parts;
      Parent(es);
      if i < |ds| {
        AbsLong(up);
      }
    }
  }

  /** The root, or the next directory above: the file is below that, or one step further. */
  lemma {:induction false} CutNext(cs: seq<Str>, ds: seq<Str>, depth: int, i: nat, dir: Str)
    requires Parts(cs) && Parts(ds) && CutTo(ds, i, dir) && 1 <= i <= depth
    ensures LastSlash(dir) >= 0
    ensures var cut := dir[..LastSlash(dir)];
            if cut == [] then Stepped(cs, ds, depth, i) == Path(cs)
            else if cut + [SLASH] <= Path(cs) then Stepped(cs, ds, depth, i) == Dots(i) + Path(cs)[|cut| + 1..]
            else CutTo(ds, i + 1, cut) && Stepped(cs, ds, depth, i) == Stepped(cs, ds, depth, i + 1)
  {
    hide *;
    Steps(cs, ds, depth, i);
    CutShorter(ds, i, dir);
    if i < |ds| {
      PartsUp(ds, i);
      PrefixIsAbove(ds[..|ds| - i], cs);
      ReachedIs(cs, ds, i);
    }
  }

  lemma {:induction false} ReachedIs(cs: seq<Str>, ds: seq<Str>, i: nat)
    requires i < |ds|
    ensures ds[..|ds| - i] != [] && (Reached(cs, ds, i) <==> Above(ds[..|ds| - i], cs))
  {
  }

  lemma {:induction false} PartsUp(ds: seq<Str>, i: nat)
    requires Parts(ds) && i <= |ds|
    ensures Parts(ds[..|ds| - i])
  {
  }

  /** At the root, at a directory above the file, or one step further. */
  lemma {:induction false} Steps(cs: seq<Str>, ds: seq<Str>, depth: int, i: nat)
    requires 1 <= i <= depth
    ensures i >= |ds| ==> Stepped(cs, ds, depth, i) == Path(cs)
    ensures i < |ds| && Reached(cs, ds, i) ==>
      |ds| - i <= |cs| && Stepped(cs, ds, depth, i) == Dots(i) + Join(cs[|ds| - i..])
    ensures i < |ds| && !Reached(cs, ds, i) ==> Stepped(cs, ds, depth, i) == Stepped(cs, ds, depth, i + 1)
  {
    hide Path, Join, Dots;
  }

  /** Cuts the directory shorter until the file is below it; then the steps up and the rest of the file's path. */
  method StepUp(file: Str, dir: Str, depth: int, ghost cs: seq<Str>, ghost ds: seq<Str>) returns (ret: Str)
    requires Parts(cs) && Parts(ds) && file == Path(cs) && dir == Path(ds)
    ensures ret == Stepped(cs, ds, depth, 1)
  {
    ret := file;
    var matchDir, i := dir, 1;
    hide *;
    CutStarts(ds);
    while i <= depth
      invariant i >= 1 && ret == file && Stepped(cs, ds, depth, 1) == Stepped(cs, ds, depth, i)
      invariant CutTo(ds, i, matchDir)
      decreases depth - i
    {
      CutNext(cs, ds, depth, i, matchDir);
      var sl := LastSlash(matchDir);
      if sl == -1 {
        break;
      }
      matchDir := matchDir[..sl];
      if matchDir == [] {
        break;
      }
      if matchDir + [SLASH] <= ret {
        var rest := ret[|matchDir| + 1..];
        var dots := DotPrefix(i);
        ret := dots + rest;
        return;
      }
      i := i + 1;
    }
    if i > depth {
      NoSteps(cs, ds, depth, i);
    }
  }

  lemma {:induction false} NoSteps(cs: seq<Str>, ds: seq<Str>, depth: int, i: nat)
    requires i > 0 && i > depth
    ensures Stepped(cs, ds, depth, i) == Path(cs)
  {
  }

  /** Makes a cleaned absolute path relative. */
  method MakeRelative(file: Str, dir: Str, depth: int, ghost cs: seq<Str>, ghost ds: seq<Str>) returns (ret: Str)
    requires Parts(cs) && Parts(ds) && file == Path(cs) && dir == Path(ds)
    ensures Fixed(cs, ds, depth) == if ret == [] then DOT else ret
  {
    PathInjective(cs, ds);
    if ds != [] {
      PrefixIsAbove(ds, cs);
    } else {
      NoDoubleSlash(cs);
    }
    NotEmpty(cs, ds, depth);
    if file == dir {
      ret := [];
    } else if dir + [SLASH] <= file {
      ret := file[|dir| + 1..];
    } else {
      ret := StepUp(file, dir, depth, cs, ds);
    }
  }

  lemma {:induction false} NoDoubleSlash(cs: seq<Str>)
    requires Parts(cs)
    ensures !([SLASH] + [SLASH] <= Path(cs))
  {
    if cs != [] {
      AbsLong(cs);
    }
  }

  lemma {:induction false} NotEmpty(cs: seq<Str>, ds: seq<Str>, depth: int)
    requires Parts(cs) && Parts(ds)
    ensures Fixed(cs, ds, depth) != []
  {
    if ds != [] && Above(ds, cs) {
      SplitNames(cs[|ds|..]);
    } else if cs != [] {
      AbsLong(cs);
    }
  }

  // ----- the path means the file ------------------------------------------------------------------

  lemma {:induction false} ResolveAbsolute(dir: Str, cs: seq<Str>)
    requires Parts(cs)
    ensures Resolve(dir, Path(cs)) == Walk([], cs)
  {
    if cs == [] {
      assert [SLASH][1..] == [] && Split([]) == [[]];
      assert Split(Path(cs)) == [[], []];
      var one: seq<Str> := [[]];
      assert Split(Path(cs))[1..] == one && one[1..] == [];
      assert Walk([], one) == [] && Walk([], Split(Path(cs))) == Walk([], one);
    } else {
      AbsLong(cs);
      SplitAbs(cs);
      assert ([[]] + cs)[1..] == cs;
    }
  }

  /** A relative path is walked from the directory. */
  lemma {:induction false} ResolveRelative(ds: seq<Str>, s: Str)
    requires Clean(ds) && !IsAbsolute(s)
    ensures Resolve(Path(ds), s) == Walk(ds, Split(s))
  {
    SplitJoin(Path(ds), s);
    WalkAppend([], Split(Path(ds)), Split(s));
    ResolveAbsolute([], ds);
    WalkNames([], ds);
    assert [] + ds == ds;
    if ds != [] { AbsLong(ds); }
  }

  lemma {:induction false} ResolveSteps(ds: seq<Str>, i: nat, xs: seq<Str>)
    requires Clean(ds) && Clean(xs) && xs != [] && i <= |ds|
    ensures Resolve(Path(ds), Dots(i) + Join(xs)) == ds[..|ds| - i] + xs
  {
    SplitNames(xs);
    SplitDots(i, Join(xs));
    assert !IsAbsolute(Dots(i) + Join(xs)) by {
      if i == 0 { assert Dots(i) + Join(xs) == Join(xs); }
    }
    ResolveRelative(ds, Dots(i) + Join(xs));
    WalkAppend(ds, Ups(i), xs);
    WalkUps(ds, i);
    WalkNames(ds[..|ds| - i], xs);
  }

  /** For all cleaned paths and every depth, the fixed path means the file, in the directory it was made for. */
  lemma {:induction false} FixedMeansFile(cs: seq<Str>, ds: seq<Str>, depth: int)
    requires Normal(cs) && Clean(ds)
    ensures Resolve(Path(ds), Fixed(cs, ds, depth)) == Walk([], cs)
  {
    hide *;
    if Clean(cs) {
      ResolveClean(ds, cs);
      CleanFixedMeansFile(cs, ds, depth);
    } else {
      AboveRoot(cs, ds, depth);
      ResolveAbsolute(Path(ds), cs);
    }
  }

  lemma {:induction false} ResolveClean(ds: seq<Str>, cs: seq<Str>)
    requires Clean(cs)
    ensures Resolve(Path(ds), Path(cs)) == cs && Walk([], cs) == cs
  {
    ResolveAbsolute(Path(ds), cs);
    WalkNames([], cs);
    assert [] + cs == cs;
  }

  /** A path that goes up first, from the root, is below no directory, and stays as it is. */
  lemma {:induction false} AboveRoot(cs: seq<Str>, ds: seq<Str>, depth: int)
    requires Normal(cs) && !Clean(cs) && Clean(ds)
    ensures Fixed(cs, ds, depth) == Path(cs) && Parts(cs)
  {
    assert cs[0] == DOTDOT;
    hide Path, Join;
    forall j: nat | true
      ensures !Reached(cs, ds, j)
    {
      NotReached(cs, ds, j);
    }
    assert ds[..|ds| - 0] == ds && (ds != [] ==> !Reached(cs, ds, 0));
  }

  lemma {:induction false} NotReached(cs: seq<Str>, ds: seq<Str>, j: nat)
    requires cs != [] && cs[0] == DOTDOT && Clean(ds)
    ensures !Reached(cs, ds, j)
  {
    if j < |ds| {
      assert ds[0] == ds[..|ds| - j][0];
      assert CleanName(ds[0]);
      assert |ds| - j < |cs| ==> cs[..|ds| - j][0] == DOTDOT;
    }
  }

  lemma {:induction false} ResolveDot(ds: seq<Str>)
    requires Clean(ds)
    ensures Resolve(Path(ds), DOT) == ds
  {
    SplitName(DOT);
    ResolveRelative(ds, DOT);
    WalkOne(ds, DOT);
  }

  lemma {:induction false} DotsNone()
    ensures Dots(0) == []
  {
  }

  /** The steps up and the rest of the path of a file below that. */
  lemma {:induction false} ResolveBelow(ds: seq<Str>, i: nat, cs: seq<Str>)
    requires Clean(ds) && Clean(cs) && i <= |ds| && Above(ds[..|ds| - i], cs)
    ensures |ds| - i <= |cs| && Resolve(Path(ds), Dots(i) + Join(cs[|ds| - i..])) == cs
  {
    hide Resolve, Path, Dots, Join;
    assert Clean(cs[|ds| - i..]);
    ResolveSteps(ds, i, cs[|ds| - i..]);
  }

  lemma {:induction false} CleanFixedMeansFile(cs: seq<Str>, ds: seq<Str>, depth: int)
    requires Clean(cs) && Clean(ds)
    ensures Resolve(Path(ds), Fixed(cs, ds, depth)) == cs
  {
    var i := StepsUp(cs, ds, depth, 1);
    hide Resolve, Path, Clean, Walk, Split, Dots, Join;
    assert ds[..|ds| - 0] == ds;
    if cs == ds {
      ResolveDot(ds);
    } else if ds != [] && Above(ds, cs) {
      ResolveBelow(ds, 0, cs);
      DotsNone();
      assert [] + Join(cs[|ds|..]) == Join(cs[|ds|..]);
    } else if i > 0 {
      ResolveBelow(ds, i, cs);
    } else {
      ResolveClean(ds, cs);
    }
  }

  /** The path stays absolute if and only if the file is not the directory or below it, and is not below a directory,
      other than the root, within `depth` steps up. */
  lemma {:induction false} StaysAbsolute(cs: seq<Str>, ds: seq<Str>, depth: int)
    requires Parts(cs) && Clean(ds)
    ensures IsAbsolute(Fixed(cs, ds, depth)) <==>
            cs != ds && !Reached(cs, ds, 0) && forall j: nat | j <= depth :: !Reached(cs, ds, j)
  {
    var i := StepsUp(cs, ds, depth, 1);
    assert ds[..|ds|] == ds;
    NoneBefore(cs, ds, depth, 1);
    if cs == ds {
    } else if ds != [] && Above(ds, cs) {
      SplitNames(cs[|ds|..]);
    } else if i > 0 {
      assert (Dots(i) + Join(cs[|ds| - i..]))[0] == DOTDOT[0];
    } else if cs != [] {
      AbsLong(cs);
    }
  }

  // ----- the whole function -------------------------------------------------------------------------

  /** Cleaning a path does not change what it means, in whatever directory. */
  lemma {:induction false} CleanMeans(ds: seq<Str>, s: Str)
    requires Clean(ds) && s != []
    ensures IsAbsolute(CleanPath(s)) == IsAbsolute(s) && CleanPath(s) != []
    ensures Resolve(Path(ds), CleanPath(s)) == Resolve(Path(ds), s)
  {
    var cs := CleanParts(s);
    SplitParts(s);
    if IsAbsolute(s) {
      ReducedMeans([], [], Split(s));
      ResolveAbsolute(Path(ds), cs);
      if cs != [] { AbsLong(cs); }
    } else {
      ReducedMeans(ds, [], Split(s));
      ResolveRelative(ds, s);
      if cs == [] {
        SplitName(DOT);
        assert [DOT][1..] == [];
      } else {
        SplitNames(cs);
      }
      ResolveRelative(ds, CleanPath(s));
    }
  }

  // ----- how many steps up -------------------------------------------------------------------

  /** The steps up that a path begins with, when it is cleaned. */
  function StepsOf(cs: seq<Str>): (n: nat)
    ensures n <= |cs|
  {
    if cs == [] || cs[0] != DOTDOT then 0 else 1 + StepsOf(cs[1..])
  }

  /** In the directory the relative path means the file. */
  predicate Means(ds: seq<Str>, s: Str, cs: seq<Str>) { s != [] && !IsAbsolute(s) && Resolve(Path(ds), s) == cs }

  /** The steps, and then names. */
  lemma {:induction false} StepsFirst(cs: seq<Str>)
    requires Normal(cs)
    ensures var n := StepsOf(cs); cs == Ups(n) + cs[n..] && Clean(cs[n..])
  {
    if cs == [] || cs[0] != DOTDOT {
      assert forall i | 0 <= i < |cs| :: cs[i] != DOTDOT;
      assert Ups(0) + cs[0..] == cs;
    } else {
      StepsFirst(cs[1..]);
      var n := StepsOf(cs);
      assert Ups(n) == [DOTDOT] + Ups(n - 1) && n - 1 == StepsOf(cs[1..]);
      hide *;
      assert cs == [cs[0]] + cs[1..] && cs[1..][n - 1..] == cs[n..];
      assert [DOTDOT] + (Ups(n - 1) + cs[n..]) == ([DOTDOT] + Ups(n - 1)) + cs[n..];
    }
  }

  /** With more steps than there are directories the root is reached. */
  lemma {:induction false} WalkUp(at: seq<Str>, n: nat)
    ensures Walk(at, Ups(n)) == if n <= |at| then at[..|at| - n] else []
    decreases n
  {
    if n <= |at| {
      WalkUps(at, n);
    } else {
      assert Ups(n)[1..] == Ups(n - 1);
      WalkUp(Go(at, DOTDOT), n - 1);
    }
  }

  /** Up and then down again. */
  lemma {:induction false} MeansUpAndDown(ds: seq<Str>, s: Str)
    requires Clean(ds) && s != [] && !IsAbsolute(s)
    ensures var n := StepsOf(CleanParts(s));
            var xs := CleanParts(s)[n..];
            Resolve(Path(ds), s) == (if n <= |ds| then ds[..|ds| - n] else []) + xs
  {
    var parts := CleanParts(s);
    var n := StepsOf(parts);
    SplitParts(s);
    ResolveRelative(ds, s);
    ReducedMeans(ds, [], Split(s));
    StepsFirst(parts);
    WalkAppend(ds, Ups(n), parts[n..]);
    WalkUp(ds, n);
    WalkNames(Walk(ds, Ups(n)), parts[n..]);
  }

  /** Parts that are cleaned stay. */
  lemma {:induction false} ReducedNormal(cs: seq<Str>, parts: seq<Str>)
    requires Normal(cs) && Normal(cs + parts)
    ensures forall i | 0 <= i < |parts| :: SLASH !in parts[i]
    ensures Reduced(cs, parts) == cs + parts
    decreases parts
  {
    forall i | 0 <= i < |parts| ensures SLASH !in parts[i] {
      assert parts[i] == (cs + parts)[|cs| + i];
    }
    if parts == [] {
      assert cs + parts == cs;
    } else {
      var p := parts[0];
      assert p == (cs + parts)[|cs|] && (cs + [p]) + parts[1..] == cs + parts;
      assert cs != [] && p == DOTDOT ==> cs[|cs| - 1] == (cs + parts)[|cs| - 1] == DOTDOT;
      assert Normal(cs + [p]) by {
        assert cs + [p] == (cs + parts)[..|cs| + 1];
      }
      ReducedNormal(cs + [p], parts[1..]);
    }
  }

  lemma {:induction false} UpsAre(n: nat)
    ensures |Ups(n)| == n && forall i | 0 <= i < n :: Ups(n)[i] == DOTDOT
  {
    if n > 0 {
      UpsAre(n - 1);
    }
  }

  lemma {:induction false} StepsCounted(n: nat, xs: seq<Str>)
    requires Clean(xs)
    ensures StepsOf(Ups(n) + xs) == n
  {
    if n == 0 {
      assert Ups(0) + xs == xs;
    } else {
      assert Ups(n) + xs == [DOTDOT] + (Ups(n - 1) + xs);
      StepsCounted(n - 1, xs);
    }
  }

  /** A path that is written as steps up and names. */
  lemma {:induction false} PartsOfSteps(n: nat, xs: seq<Str>)
    requires Clean(xs) && xs != []
    ensures !IsAbsolute(Dots(n) + Join(xs)) && StepsOf(CleanParts(Dots(n) + Join(xs))) == n
  {
    SplitNames(xs);
    SplitDots(n, Join(xs));
    UpsAndNames(n, xs);
    assert Normal([]);
    assert n == 0 ==> Dots(n) + Join(xs) == Join(xs);
    assert n > 0 ==> (Dots(n) + Join(xs))[0] == DOTDOT[0];
    hide Split, Dots, Join, Ups, Reduced, StepsOf, Normal, Clean;
    assert [] + (Ups(n) + xs) == Ups(n) + xs;
    ReducedNormal([], Ups(n) + xs);
    StepsCounted(n, xs);
  }

  lemma {:induction false} UpsAndNames(n: nat, xs: seq<Str>)
    requires Clean(xs)
    ensures Normal(Ups(n) + xs)
  {
    UpsAre(n);
  }

  /** Steps up alone. */
  lemma {:induction false} PartsOfDots(n: nat)
    requires n > 0
    ensures Dots(n) != [] && !IsAbsolute(Dots(n)) && CleanParts(Dots(n)) == Ups(n) && StepsOf(Ups(n)) == n
  {
    var none: seq<Str> := [[]];
    SplitDots(n, []);
    assert Dots(n) + [] == Dots(n) && Split([]) == none;
    UpsAre(n);
    var parts := Ups(n);
    ReducedNormal([], parts);
    assert [] + parts == parts && parts + [] == parts;
    ReducedNothing([], parts);
    StepsCounted(n, []);
  }

  /** An empty part at the end goes. */
  lemma {:induction false} ReducedNothing(cs: seq<Str>, parts: seq<Str>)
    requires Normal(cs) && forall i | 0 <= i < |parts| :: SLASH !in parts[i]
    ensures var none: seq<Str> := [[]];
            && (forall i | 0 <= i < |parts + none| :: SLASH !in (parts + none)[i])
            && Reduced(cs, parts + none) == Reduced(cs, parts)
    decreases parts
  {
    var none: seq<Str> := [[]];
    if parts == [] {
      assert parts + none == none && none[1..] == [];
    } else {
      var p := parts[0];
      assert (parts + none)[1..] == parts[1..] + none && (parts + none)[0] == p;
      if p == [] || p == DOT {
        ReducedNothing(cs, parts[1..]);
      } else if p == DOTDOT && cs != [] && cs[|cs| - 1] != DOTDOT {
        ReducedNothing(cs[..|cs| - 1], parts[1..]);
      } else {
        ReducedNothing(cs + [p], parts[1..]);
      }
    }
  }

  /** The steps of the path the code makes. */
  lemma {:induction false} FixedSteps(cs: seq<Str>, ds: seq<Str>, depth: int)
    requires Clean(cs) && Clean(ds) && !IsAbsolute(Fixed(cs, ds, depth))
    ensures cs == ds || Above(ds, cs) || StepsUp(cs, ds, depth, 1) > 0
    ensures StepsOf(CleanParts(Fixed(cs, ds, depth))) ==
            if cs == ds || Above(ds, cs) then 0 else StepsUp(cs, ds, depth, 1)
  {
    var r := StepsUp(cs, ds, depth, 1);
    StaysAbsolute(cs, ds, depth);
    assert ds[..|ds| - 0] == ds;
    if cs == ds {
      SplitName(DOT);
      var one: seq<Str> := [DOT];
      assert one[1..] == [];
      assert StepsOf(CleanParts(DOT)) == 0;
    } else if ds != [] && Above(ds, cs) {
      PartsOfSteps(0, cs[|ds|..]);
      assert Dots(0) + Join(cs[|ds|..]) == Join(cs[|ds|..]);
    } else if r > 0 {
      PartsOfSteps(r, cs[|ds| - r..]);
    } else if cs != [] {
      AbsLong(cs);
    }
  }

  /** The path the code makes has the fewest steps up of all relative paths that mean the file if and only if the file
      is not a directory above the one the path is for. */
  lemma {:induction false} FewestSteps(cs: seq<Str>, ds: seq<Str>, depth: int)
    requires Clean(cs) && Clean(ds) && !IsAbsolute(Fixed(cs, ds, depth))
    ensures (forall s | Means(ds, s, cs) :: StepsOf(CleanParts(s)) >= StepsOf(CleanParts(Fixed(cs, ds, depth)))) <==>
            !Above(cs, ds)
  {
    FixedSteps(cs, ds, depth);
    if Above(cs, ds) {
      AboveSteps(cs, ds, depth);
    } else {
      forall s | Means(ds, s, cs) ensures StepsOf(CleanParts(s)) >= StepsOf(CleanParts(Fixed(cs, ds, depth))) {
        NoFewer(cs, ds, depth, s);
      }
    }
  }

  lemma {:induction false} NoFewer(cs: seq<Str>, ds: seq<Str>, depth: int, s: Str)
    requires Clean(cs) && Clean(ds) && Means(ds, s, cs) && !Above(cs, ds)
    ensures cs == ds || Above(ds, cs) || StepsOf(CleanParts(s)) >= StepsUp(cs, ds, depth, 1)
  {
    var j := StepsOf(CleanParts(s));
    MeansUpAndDown(ds, s);
    NoneBefore(cs, ds, depth, 1);
    assert ds[..|ds| - 0] == ds && cs[..|cs|] == cs;
    if j < |ds| {
      assert cs[..|ds| - j] == ds[..|ds| - j];
      assert Above(cs, ds) || cs == ds || Reached(cs, ds, j);
    }
  }

  /** A directory above is written with one step up more than it takes, and the name that leads back down; it stays
      absolute if that is too deep, or the root. */
  lemma {:induction false} AboveSteps(cs: seq<Str>, ds: seq<Str>, depth: int)
    requires Clean(cs) && Clean(ds) && Above(cs, ds)
    ensures var n := |ds| - |cs|;
            Fixed(cs, ds, depth) ==
              if |cs| >= 2 && n + 1 <= depth then Dots(n + 1) + Join([cs[|cs| - 1]]) else Path(cs)
    ensures var n := |ds| - |cs|; Means(ds, Dots(n), cs) && StepsOf(CleanParts(Dots(n))) == n
    ensures cs != ds && !Above(ds, cs)
    ensures StepsUp(cs, ds, depth, 1) == if |cs| >= 2 && |ds| - |cs| + 1 <= depth then |ds| - |cs| + 1 else 0
  {
    hide *;
    AboveReached(cs, ds, depth);
    AboveFixed(cs, ds, depth);
    AboveMeans(cs, ds);
  }

  lemma {:induction false} AboveMeans(cs: seq<Str>, ds: seq<Str>)
    requires Clean(ds) && Above(cs, ds)
    ensures var n := |ds| - |cs|; Means(ds, Dots(n), cs) && StepsOf(CleanParts(Dots(n))) == n
  {
    var n := |ds| - |cs|;
    PartsOfDots(n);
    UpsAre(n);
    MeansUpAndDown(ds, Dots(n));
    hide Resolve, CleanParts, Dots, Ups, Clean, StepsOf;
    var up := ds[..|cs|];
    assert Ups(n)[n..] == [] && up + [] == up == cs;
  }

  lemma {:induction false} AboveFixed(cs: seq<Str>, ds: seq<Str>, depth: int)
    requires Above(cs, ds)
    requires StepsUp(cs, ds, depth, 1) == if |cs| >= 2 && |ds| - |cs| + 1 <= depth then |ds| - |cs| + 1 else 0
    ensures var n := |ds| - |cs|;
            Fixed(cs, ds, depth) ==
              if |cs| >= 2 && n + 1 <= depth then Dots(n + 1) + Join([cs[|cs| - 1]]) else Path(cs)
    ensures cs != ds && !Above(ds, cs)
  {
    hide Dots, Join, Path, StepsUp;
    if |cs| >= 2 {
      assert cs[|cs| - 1..] == [cs[|cs| - 1]];
    }
  }

  lemma {:induction false} AboveReached(cs: seq<Str>, ds: seq<Str>, depth: int)
    requires Above(cs, ds)
    ensures StepsUp(cs, ds, depth, 1) == if |cs| >= 2 && |ds| - |cs| + 1 <= depth then |ds| - |cs| + 1 else 0
  {
    var n := |ds| - |cs|;
    NoneBefore(cs, ds, depth, 1);
    forall j: nat | true ensures Reached(cs, ds, j) <==> n < j < |ds| {
      if n < j < |ds| {
        assert cs[..|ds| - j] == ds[..|cs|][..|ds| - j] == ds[..|ds| - j];
      }
    }
    if |cs| >= 2 && n + 1 <= depth {
      assert Reached(cs, ds, n + 1);
    }
  }

  /** "/a/b" for use in "/a/b/c" is "../../b", although ".." means it. */
  lemma {:induction false} TooHigh(a: Str, b: Str, c: Str)
    requires Clean([a, b, c])
    ensures Fixed([a, b], [a, b, c], 4) == DOTDOT + [SLASH] + DOTDOT + [SLASH] + b
    ensures Means([a, b, c], DOTDOT, [a, b])
  {
    var cs, ds := [a, b], [a, b, c];
    assert ds[..2] == cs && Above(cs, ds);
    assert Clean(cs) by { assert forall i | 0 <= i < 2 :: cs[i] == ds[i]; }
    AboveSteps(cs, ds, 4);
    TwoSteps(b);
    SplitName(DOTDOT);
    ResolveRelative(ds, DOTDOT);
    WalkOne(ds, DOTDOT);
  }

  lemma {:induction false} TwoSteps(b: Str)
    ensures Dots(2) + Join([b]) == DOTDOT + [SLASH] + DOTDOT + [SLASH] + b
  {
    assert Dots(0) == [] && Dots(1) == DOTDOT + [SLASH] + Dots(0) && Dots(2) == DOTDOT + [SLASH] + Dots(1);
  }

  /** The absolute path of a file in a directory. */
  function InDir(dir: Str, file: Str): Str { if IsAbsolute(file) then file else dir + [SLASH] + file }

  lemma {:induction false} InDirMeans(ins: seq<Str>, ds: seq<Str>, file: Str)
    requires Clean(ins)
    ensures IsAbsolute(InDir(Path(ins), file)) && Resolve(Path(ds), InDir(Path(ins), file)) == Resolve(Path(ins), file)
  {
    if ins != [] { AbsLong(ins); }
  }

  /** How many steps up are tried: what the project says, or what the build cache says, for makefiles; 4 otherwise. */
  function Depth(generates: bool, projectDepth: Option<int>, cacheDepth: int): int {
    if generates && projectDepth.Some? then projectDepth.value
    else if generates && cacheDepth != -1 then cacheDepth
    else 4
  }

  /** Behind a directory that has its slash already, or is given one. */
  lemma {:induction false} PrependedMeans(ins: seq<Str>, file: Str)
    requires Clean(ins) && !IsAbsolute(file)
    ensures var dir := Path(ins);
            && dir != []
            && (dir[|dir| - 1] == SLASH ==> IsAbsolute(dir + file) && Resolve([], dir + file) == Resolve(dir, file))
  {
    if ins == [] {
      ResolveRelative(ins, file);
      SplitJoin([], file);
      assert [] + [SLASH] + file == [SLASH] + file;
      var none: seq<Str> := [[]];
      assert Split([]) == none && (none + Split(file))[1..] == Split(file);
    } else {
      var last := ins[|ins| - 1];
      AbsLong(ins);
      assert last[|last| - 1] in last;
    }
  }

  /** Puts the directory in front of a relative path. */
  method Prepend(file: Str, dir: Str, ghost ins: seq<Str>) returns (ret: Str)
    requires Clean(ins) && dir == Path(ins) && !IsAbsolute(file)
    ensures IsAbsolute(ret) && Resolve([], ret) == Resolve(dir, file)
  {
    PrependedMeans(ins, file);
    InDirMeans(ins, [], file);
    var pwd := dir;
    if pwd[|pwd| - 1] != SLASH {
      pwd := pwd + [SLASH];
    }
    ret := pwd + file;
  }

  /** The absolute path from which a file is fixed. */
  function Full(dir: Str, file: Str): Str { if IsAbsolute(file) then file else dir + [SLASH] + CleanPath(file) }

  lemma {:induction false} FullIs(dir: Str, file: Str)
    ensures Full(dir, file) == if IsAbsolute(file) then file else dir + [SLASH] + CleanPath(file)
  {
  }

  /** Makes a file relative: cleaned, its absolute path means what it did, and that is what is fixed. */
  lemma {:induction false} FixMeans(ins: seq<Str>, ds: seq<Str>, depth: int, file: Str, full: Str)
    requires Clean(ins) && Clean(ds) && file != []
    requires full == Full(Path(ins), file)
    ensures IsAbsolute(full) && CleanPath(full) == Path(CleanParts(full)) && Parts(CleanParts(full)) && Parts(ds)
    ensures Resolve(Path(ds), Fixed(CleanParts(full), ds, depth)) == Resolve(Path(ins), file)
  {
    CleanMeans(ins, file);
    InDirMeans(ins, ds, file);
    InDirMeans(ins, ds, CleanPath(file));
    CleanMeans(ds, full);
    ResolveAbsolute(Path(ds), CleanParts(full));
    FixedMeansFile(CleanParts(full), ds, depth);
  }

  /** Fixes the path of a file, given in `inDir`, for use in `outDir`. There it means the same file: from another
      directory it is as fixed. An absolute path means it everywhere, and a path that is not to be fixed is cleaned
      only. */
  method Fixify(file: Str, inDir: Str, outDir: Str, absolute: bool, relative: bool, noFixpath: bool, generates: bool,
                projectDepth: Option<int>, cacheDepth: int, ghost ins: seq<Str>, ghost ds: seq<Str>)
    returns (ret: Str)
    requires Clean(ins) && inDir == Path(ins) && Clean(ds) && outDir == Path(ds)
    ensures ret == [] <==> file == []
    ensures file != [] && absolute ==> IsAbsolute(ret) && Resolve([], ret) == Resolve(inDir, file)
    ensures file != [] && !absolute && !relative && noFixpath ==>
              IsAbsolute(ret) == IsAbsolute(file) && Resolve(inDir, ret) == Resolve(inDir, file)
    ensures file != [] && !absolute && (relative || !noFixpath) ==>
              && Resolve(outDir, ret) == Resolve(inDir, file)
              && (outDir != inDir || IsAbsolute(file) ==>
                   ret == Fixed(CleanParts(Full(inDir, file)), ds, Depth(generates, projectDepth, cacheDepth)))
              && (outDir == inDir && !IsAbsolute(file) ==> ret == CleanPath(file))
  {
    assert DOT != [];
    hide *;
    if file == [] {
      return [];
    }
    ret := file;
    CleanMeans(ins, file);
    if absolute || (!relative && noFixpath) {
      if absolute && !IsAbsolute(ret) {
        ret := Prepend(ret, inDir, ins);
      }
      AbsoluteMeans(ins, ret);
      ret := CleanPath(ret);
    } else {
      var qfile := CleanPath(file);
      if outDir != inDir || IsAbsolute(qfile) {
        if !IsAbsolute(qfile) {
          ret := inDir + [SLASH] + qfile;
        }
        FullIs(inDir, file);
        FixMeans(ins, ds, Depth(generates, projectDepth, cacheDepth), file, ret);
        ghost var cs := CleanParts(ret);
        ret := MakeRelative(CleanPath(ret), outDir, Depth(generates, projectDepth, cacheDepth), cs, ds);
      } else {
        ret := CleanPath(ret);
      }
    }
    if ret == [] {
      ret := DOT;
    }
  }

  /** An absolute path means the same in every directory, and is not empty; it stays so when it is cleaned. */
  lemma {:induction false} AbsoluteMeans(ins: seq<Str>, s: Str)
    requires Clean(ins)
    ensures IsAbsolute(s) ==>
              s != [] && CleanPath(s) != [] && IsAbsolute(CleanPath(s)) && Resolve([], CleanPath(s)) == Resolve([], s)
    ensures IsAbsolute(s) ==> Resolve([], s) == Resolve(Path(ins), s)
  {
    if IsAbsolute(s) {
      CleanMeans(ins, s);
    }
  }
}
