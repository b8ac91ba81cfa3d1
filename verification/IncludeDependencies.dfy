// The files a source file includes, directly or not: a depth-first walk that marks
// nodes with a flag and takes the marks off again.
module IncludeDependencies {
  import opened Tokens

  // ----- the include graph ------------------------------------------------------------

  /** A file: whether it exists, and the files it includes itself. */
  datatype Node = Node(there: bool, children: seq<Str>)

  type Graph = map<Str, Node>

  predicate Edge(g: Graph, a: Str, b: Str) {
    a in g && b in g && b in g[a].children && g[b].there
  }

  /** One or more include edges from the first file to the last, through files that exist. */
  predicate Path(g: Graph, w: seq<Str>) {
    |w| > 1 && forall i | 0 <= i < |w| - 1 :: Edge(g, w[i], w[i + 1])
  }

  ghost predicate Includes(g: Graph, a: Str, b: Str) {
    exists w :: Path(g, w) && w[0] == a && w[|w| - 1] == b
  }

  lemma {:induction false} IncludesThrough(g: Graph, a: Str, b: Str, c: Str)
    requires Edge(g, a, b) && Includes(g, b, c)
    ensures Includes(g, a, c)
  {
    var w :| Path(g, w) && w[0] == b && w[|w| - 1] == c;
    var v := [a] + w;
    forall i | 0 <= i < |v| - 1 ensures Edge(g, v[i], v[i + 1]) {
      if i > 0 { assert Edge(g, w[i - 1], w[i]); }
    }
    assert Path(g, v) && v[0] == a && v[|v| - 1] == c;
  }

  lemma {:induction false} IncludedBelow(g: Graph, a: Str, child: Str, n: Str)
    requires a in g && child in g && child in g[a].children && g[child].there
    requires n == child || Includes(g, child, n)
    ensures Includes(g, a, n)
  {
    if n == child {
      assert Path(g, [a, n]);
    } else {
      IncludesThrough(g, a, child, n);
    }
  }

  /** A set of files that holds the existing children of `a`, and of its own members, holds all that `a` includes. */
  lemma {:induction false} ClosedHolds(g: Graph, s: set<Str>, a: Str, b: Str)
    requires forall c | Edge(g, a, c) :: c in s
    requires forall n, c | n in s && Edge(g, n, c) :: c in s
    requires Includes(g, a, b)
    ensures b in s
  {
    var w :| Path(g, w) && w[0] == a && w[|w| - 1] == b;
    var i := 1;
    assert Edge(g, w[0], w[1]);
    while i < |w| - 1
      invariant 1 <= i < |w| && w[i] in s
    {
      assert Edge(g, w[i], w[i + 1]);
      i := i + 1;
    }
  }

  // ----- what a walk finds ----------------------------------------------------------------

  /** The files `found` are newly marked, exist, and all they include is marked. */
  ghost predicate Walked(g: Graph, before: set<Str>, now: set<Str>, found: seq<Str>) {
    && NoDup(found) && now == before + SetOf(found) && SetOf(found) !! before
    && (forall n | n in found :: n in g && g[n].there)
    && (forall n, c | n in found && Edge(g, n, c) :: c in now)
  }

  /** Of the files `list`, those that exist are marked. */
  ghost predicate AllMarked(g: Graph, list: seq<Str>, now: set<Str>) {
    forall c | c in list && c in g && g[c].there :: c in now
  }

  /** Every file found is `a`, if it exists, or included by it. */
  ghost predicate From(g: Graph, a: Str, found: seq<Str>) {
    a in g && forall n | n in found :: g[a].there && (n == a || Includes(g, a, n))
  }

  ghost predicate Below(g: Graph, a: Str, found: seq<Str>) {
    forall n | n in found :: Includes(g, a, n)
  }

  lemma {:induction false} WalkedNothing(g: Graph, now: set<Str>, a: Str)
    ensures Walked(g, now, now, []) && AllMarked(g, [], now) && Below(g, a, [])
    ensures a in g ==> From(g, a, [])
  {
    assert now + SetOf([]) == now;
  }

  /** The first `i` children of `a` have been walked. */
  ghost predicate Progress(g: Graph, a: Str, i: nat, before: set<Str>, now: set<Str>, found: seq<Str>) {
    && a in g && i <= |g[a].children| && before <= now && |g.Keys - now| <= |g.Keys - before|
    && Walked(g, before, now, found) && AllMarked(g, g[a].children[..i], now) && Below(g, a, found)
  }

  lemma {:induction false} ProgressStart(g: Graph, a: Str, now: set<Str>)
    requires a in g
    ensures Progress(g, a, 0, now, now, [])
  {
    WalkedNothing(g, now, a);
  }

  /** After the next child of `a`. */
  lemma {:induction false} ProgressNext(g: Graph, a: Str, i: nat, start: set<Str>, before: set<Str>, now: set<Str>,
                                        found: seq<Str>, more: seq<Str>)
    requires Progress(g, a, i, start, before, found) && i < |g[a].children| && g[a].children[i] in g
    requires Walked(g, before, now, more) && From(g, g[a].children[i], more) && AllMarked(g, [g[a].children[i]], now)
    ensures Progress(g, a, i + 1, start, now, found + more)
  {
    var list, c := g[a].children, g[a].children[i];
    assert list[..i + 1] == list[..i] + [c];
    forall n | n in more ensures Includes(g, a, n) {
      IncludedBelow(g, a, c, n);
    }
    WalkedTrans(g, start, before, now, found, more);
    NotMore(g.Keys, start, now);
  }

  lemma {:induction false} WalkedTrans(g: Graph, a: set<Str>, b: set<Str>, c: set<Str>, first: seq<Str>,
                                       second: seq<Str>)
    requires Walked(g, a, b, first) && Walked(g, b, c, second)
    ensures Walked(g, a, c, first + second)
  {
    assert SetOf(first + second) == SetOf(first) + SetOf(second);
    forall i, j | 0 <= i < j < |first + second| ensures (first + second)[i] != (first + second)[j] {
      if i < |first| <= j {
        assert first[i] in SetOf(first) && second[j - |first|] in SetOf(second);
      }
    }
  }

  lemma {:induction false} NotMore(all: set<Str>, before: set<Str>, now: set<Str>)
    requires before <= now
    ensures |all - now| <= |all - before|
  {
    var x, y := all - now, all - before;
    assert x + (y - x) == y;
  }

  lemma {:induction false} ProgressEnd(g: Graph, a: Str, before: set<Str>, now: set<Str>, found: seq<Str>)
    requires a in g && Progress(g, a, |g[a].children|, before, now, found)
    ensures Walked(g, before, now, found) && AllMarked(g, g[a].children, now) && Below(g, a, found)
  {
    assert g[a].children[..|g[a].children|] == g[a].children;
  }

  lemma {:induction false} WalkedNode(g: Graph, before: set<Str>, now: set<Str>, a: Str, rest: seq<Str>)
    requires a in g && g[a].there && a !in before && Progress(g, a, |g[a].children|, before + {a}, now, rest)
    ensures Walked(g, before, now, [a] + rest) && From(g, a, [a] + rest) && AllMarked(g, [a], now)
  {
    hide Progress, Includes, Edge;
    ProgressEnd(g, a, before + {a}, now, rest);
    WalkedFirst(g, before, now, a, rest);
    NothingToDo(g, a, now);
  }

  lemma {:induction false} WalkedFirst(g: Graph, before: set<Str>, now: set<Str>, a: Str, rest: seq<Str>)
    requires a in g && g[a].there && a !in before && Walked(g, before + {a}, now, rest) &&
             AllMarked(g, g[a].children, now)
    ensures Walked(g, before, now, [a] + rest) && a in now
  {
    assert SetOf([a] + rest) == {a} + SetOf(rest);
    forall i, j | 0 <= i < j < |rest| + 1 ensures ([a] + rest)[i] != ([a] + rest)[j] {
      assert rest[j - 1] in SetOf(rest);
    }
  }

  lemma {:induction false} FoundAll(g: Graph, a: Str, found: seq<Str>, now: set<Str>)
    requires a in g && Progress(g, a, |g[a].children|, {}, now, found)
    ensures (forall n :: n in found <==> Includes(g, a, n)) && NoDup(found) && now == SetOf(found)
  {
    ProgressEnd(g, a, {}, now, found);
    forall n | Includes(g, a, n) ensures n in found {
      ClosedHolds(g, now, a, n);
      assert n in SetOf(found);
    }
  }

  lemma {:induction false} NoChildren(g: Graph, a: Str)
    requires a in g ==> g[a].children == []
    ensures forall n :: !Includes(g, a, n)
  {
    forall n ensures !Includes(g, a, n) {
      if w :| Path(g, w) && w[0] == a && w[|w| - 1] == n {
        FirstEdge(g, w);
      }
    }
  }

  lemma {:induction false} FirstEdge(g: Graph, w: seq<Str>)
    requires Path(g, w)
    ensures w[0] in g && g[w[0]].children != []
  {
    assert Edge(g, w[0], w[1]);
  }

  lemma {:induction false} Smaller(all: set<Str>, before: set<Str>, now: set<Str>, a: Str)
    requires a in all && a !in before && before + {a} <= now
    ensures |all - now| < |all - before|
  {
    var x, y := all - now, all - before;
    assert x + (y - x) == y;
    assert a in y - x;
  }

  // ----- the program ---------------------------------------------------------------------------

  class SourceDependChildren {
    var children: seq<SourceFile>

    constructor ()
      ensures children == []
    {
      children := [];
    }

    method AddChild(s: SourceFile)
      modifies this
      ensures children == old(children) + [s]
    {
      children := children + [s];
    }
  }

  class SourceFile {
    const file: Str
    var exists_: bool
    var deps: SourceDependChildren?
    var traversed: bool

    constructor (file: Str, fileExists: bool)
      ensures this.file == file && exists_ == fileExists && deps == null && !traversed
    {
      this.file, exists_, deps, traversed := file, fileExists, null, false;
    }
  }

  function NamesOf(s: seq<SourceFile>): seq<Str> { seq(|s|, i requires 0 <= i < |s| => s[i].file) }

  /** The node `n` is the file `f` of the graph. */
  ghost predicate ShowsNode(files: map<Str, SourceFile>, g: Graph, f: Str, n: SourceFile)
    requires f in g
    reads n`deps, n`exists_, n.deps
  {
    && n.file == f && n.exists_ == g[f].there
    && g[f].children == (if n.deps == null then [] else NamesOf(n.deps.children))
    && (n.deps != null ==> forall c | c in n.deps.children :: c.file in g && c.file in files && files[c.file] == c)
  }

  class QMakeSourceFileInfo {
    /** The files by name: one node each. */
    const files: map<Str, SourceFile>

    constructor (files: map<Str, SourceFile>)
      ensures this.files == files
    {
      this.files := files;
    }

    /** The include lists. */
    ghost function Lists(): set<SourceDependChildren>
      reads files.Values`deps
    {
      set f | f in files && files[f].deps != null :: files[f].deps
    }

    /** The nodes show the graph `g`, which is closed. */
    ghost predicate Shows(g: Graph)
      reads files.Values`deps, files.Values`exists_, Lists()
    {
      files.Keys == g.Keys && forall f | f in g :: ShowsNode(files, g, f, files[f])
    }

    /** Nodes of the table. */
    predicate Ours(s: seq<SourceFile>) { forall c | c in s :: c.file in files && files[c.file] == c }

    ghost function Marked(): set<Str>
      reads files.Values`traversed
    {
      set f | f in files && files[f].traversed
    }

    lemma {:induction false} OursAre(s: seq<SourceFile>)
      requires Ours(s)
      ensures forall i | 0 <= i < |s| :: s[i].file in files && files[s[i].file] == s[i]
    {
    }

    /** Sets the flag of a node and puts it in the list. */
    method Mark(node: SourceFile, place: SourceDependChildren, ghost g: Graph)
      requires Shows(g) && node.file in files && files[node.file] == node && place !in Lists()
      modifies node`traversed, place
      ensures Shows(g) && Marked() == old(Marked()) + {node.file}
      ensures place.children == old(place.children) + [node]
    {
      place.AddChild(node);
      node.traversed := true;
      forall f | f in files ensures files[f].traversed == (f == node.file || old(files[f].traversed)) {
        assert ShowsNode(files, g, f, files[f]);
      }
    }

    lemma {:induction false} NodeShown(g: Graph, node: SourceFile)
      requires Shows(g) && node.file in files && files[node.file] == node
      ensures node.file in g && g[node.file].there == node.exists_ && files.Keys == g.Keys
      ensures g[node.file].children == if node.deps == null then [] else NamesOf(node.deps.children)
      ensures node.deps != null ==> node.deps in Lists()
      ensures node.deps != null ==> forall c | c in node.deps.children :: c.file in g && c.file in files && files[c.file] == c
      ensures node.traversed <==> node.file in Marked()
    {
      assert ShowsNode(files, g, node.file, node);
    }

    lemma {:induction false} OneMore(g: Graph, node: SourceFile, s: seq<SourceFile>)
      requires Shows(g) && node.file in files && files[node.file] == node && Ours(s) && node.file !in Marked()
      ensures Ours(s + [node]) && files.Keys == g.Keys
      ensures |files.Keys - (Marked() + {node.file})| < |files.Keys - Marked()|
    {
      Smaller(files.Keys, Marked(), Marked() + {node.file}, node.file);
    }

    /** Adds the node and what it includes to `place`, unless they are there already. */
    method DependTreeWalker(node: SourceFile, place: SourceDependChildren,
                            ghost g: Graph) returns (ghost found: seq<Str>)
      requires Shows(g) && node.file in files && files[node.file] == node && place !in Lists() && Ours(place.children)
      modifies files.Values`traversed, place
      ensures Shows(g) && NamesOf(place.children) == old(NamesOf(place.children)) + found && Ours(place.children)
      ensures Walked(g, old(Marked()), Marked(), found) && From(g, node.file, found) &&
              AllMarked(g, [node.file], Marked())
      decreases |files.Keys - Marked()|, 1
    {
      NodeShown(g, node);
      if node.traversed || !node.exists_ {
        found := [];
        WalkedNothing(g, Marked(), node.file);
        NamesAppend(place.children, []);
        NothingToDo(g, node.file, Marked());
      } else {
        found := WalkNew(node, place, g);
      }
    }

    method WalkNew(node: SourceFile, place: SourceDependChildren, ghost g: Graph) returns (ghost found: seq<Str>)
      requires Shows(g) && node.file in files && files[node.file] == node && place !in Lists() && Ours(place.children)
      requires node.file in g && g[node.file].there && node.file !in Marked()
      modifies files.Values`traversed, place
      ensures Shows(g) && NamesOf(place.children) == old(NamesOf(place.children)) + found && Ours(place.children)
      ensures Walked(g, old(Marked()), Marked(), found) && From(g, node.file, found) &&
              AllMarked(g, [node.file], Marked())
      decreases |files.Keys - Marked()|, 0
    {
      hide *;
      ghost var a, before, names := node.file, Marked(), NamesOf(place.children);
      NamesOne(place.children, node);
      OneMore(g, node, place.children);
      Mark(node, place, g);
      ghost var rest := WalkChildren(node, place, g, before + {a});
      WalkedNode(g, before, Marked(), a, rest);
      found := [a] + rest;
      AssocNames(names, [a], rest);
    }

    /** Walks the files a node includes itself. */
    method WalkChildren(node: SourceFile, place: SourceDependChildren, ghost g: Graph, ghost before: set<Str>)
      returns (ghost found: seq<Str>)
      requires Shows(g) && node.file in files && files[node.file] == node && place !in Lists() && Ours(place.children)
      requires node.file in g && Marked() == before
      modifies files.Values`traversed, place
      ensures Shows(g) && NamesOf(place.children) == old(NamesOf(place.children)) + found && Ours(place.children)
      ensures Progress(g, node.file, |g[node.file].children|, before, Marked(), found)
      decreases |files.Keys - Marked()|, 3
    {
      hide *;
      found := [];
      NodeShown(g, node);
      NamesAppend(place.children, []);
      ProgressStart(g, node.file, before);
      if node.deps != null {
        ghost var names := NamesOf(place.children);
        NamesAre(node.deps.children);
        for i := 0 to |node.deps.children|
          invariant Shows(g) && NamesOf(place.children) == names + found && Ours(place.children)
          invariant Progress(g, node.file, i, before, Marked(), found)
        {
          found := WalkChild(node, i, place, g, before, found, names);
        }
      }
    }

    /** Walks the `i`-th of them. */
    method WalkChild(node: SourceFile, i: nat, place: SourceDependChildren, ghost g: Graph, ghost before: set<Str>,
                     ghost found: seq<Str>, ghost names: seq<Str>) returns (ghost all: seq<Str>)
      requires Shows(g) && node.file in files && files[node.file] == node && place !in Lists() && Ours(place.children)
      requires node.file in g && node.deps != null && i < |node.deps.children|
      requires Progress(g, node.file, i, before, Marked(), found) && NamesOf(place.children) == names + found
      modifies files.Values`traversed, place
      ensures Shows(g) && Ours(place.children)
      ensures Progress(g, node.file, i + 1, before, Marked(), all) && NamesOf(place.children) == names + all
      decreases |files.Keys - before|, 2
    {
      NodeShown(g, node);
      var child := node.deps.children[i];
      assert g[node.file].children[i] == child.file;
      ghost var now := Marked();
      assert |files.Keys - now| <= |files.Keys - before|;
      assert i < |g[node.file].children| && child.file in g && child.file in files && files[child.file] == child;
      hide Shows, Ours, AllMarked, From, Progress, Marked, NamesOf, Lists;
      ghost var more := DependTreeWalker(child, place, g);
      ProgressNext(g, node.file, i, before, now, Marked(), found, more);
      all := found + more;
      AssocNames(names, found, more);
    }

    /** The names of exactly the existing files that a file includes, directly or not, each once; and all marks are
        taken off again. */
    method Dependencies(file: Str, ghost g: Graph) returns (ret: seq<Str>)
      requires Shows(g) && Marked() == {}
      modifies files.Values`traversed
      ensures NoDup(ret) && forall n :: n in ret <==> file in files && Includes(g, file, n)
      ensures Marked() == {}
    {
      ret := [];
      if file !in files {
        NoChildren(g, file);
        return;
      }
      var node := files[file];
      assert ShowsNode(files, g, file, node);
      if node.deps == null {
        NoChildren(g, file);
      } else {
        hide *;
        ret := Collect(node, g);
      }
    }

    method Collect(node: SourceFile, ghost g: Graph) returns (ret: seq<Str>)
      requires Shows(g) && Marked() == {} && node.file in files && files[node.file] == node && node.file in g
      modifies files.Values`traversed
      ensures NoDup(ret) && forall n :: n in ret <==> Includes(g, node.file, n)
      ensures Marked() == {}
    {
      var place := new SourceDependChildren();
      assert NamesOf([]) == [] && Ours([]);
      hide Shows, Ours, Progress, Marked, NamesOf, NoDup, Includes, SetOf;
      ghost var found := WalkChildren(node, place, g, {});
      FoundAll(g, node.file, found, Marked());
      assert [] + found == found;
      ret := Unmark(place, g, found);
    }

    /** Takes the marks off again, and lists the names. */
    method Unmark(place: SourceDependChildren, ghost g: Graph, ghost found: seq<Str>) returns (ret: seq<Str>)
      requires Shows(g) && Ours(place.children) && NamesOf(place.children) == found && NoDup(found) &&
               Marked() == SetOf(found)
      modifies files.Values`traversed
      ensures Marked() == {} && ret == found
    {
      ret := [];
      ghost var list := place.children;
      NamesAre(list);
      OursAre(list);
      EndSlices(found);
      hide *;
      for i := 0 to |place.children|
        invariant place.children == list && |list| == |found|
        invariant Shows(g) && Marked() == SetOf(found[i..]) && ret == found[..i]
      {
        var child := place.children[i];
        UnmarkOne(child, g);
        LastUnmarked(found, i);
        ret := ret + [child.file];
      }
    }

    method UnmarkOne(node: SourceFile, ghost g: Graph)
      requires Shows(g) && node.file in files && files[node.file] == node
      modifies node`traversed
      ensures Shows(g) && Marked() == old(Marked()) - {node.file}
    {
      node.traversed := false;
      forall f | f in files ensures files[f].traversed == (f != node.file && old(files[f].traversed)) {
        assert ShowsNode(files, g, f, files[f]);
      }
    }
  }

  lemma {:induction false} NamesAre(s: seq<SourceFile>)
    ensures |NamesOf(s)| == |s| && forall i | 0 <= i < |s| :: s[i].file == NamesOf(s)[i]
  {
  }

  lemma {:induction false} EndSlices(s: seq<Str>)
    ensures s[..0] == [] && s[0..] == s && SetOf(s[|s|..]) == {} && s[..|s|] == s
  {
  }

  lemma {:induction false} LastUnmarked(found: seq<Str>, i: nat)
    requires NoDup(found) && i < |found|
    ensures SetOf(found[i..]) - {found[i]} == SetOf(found[i + 1..]) && found[..i + 1] == found[..i] + [found[i]]
  {
    assert found[i..] == [found[i]] + found[i + 1..];
  }

  lemma {:induction false} AssocNames(a: seq<Str>, b: seq<Str>, c: seq<Str>)
    ensures a + b + c == a + (b + c)
  {
  }

  lemma {:induction false} NothingToDo(g: Graph, a: Str, now: set<Str>)
    requires a in g && (a in now || !g[a].there)
    ensures AllMarked(g, [a], now)
  {
  }

  lemma {:induction false} NamesOne(a: seq<SourceFile>, n: SourceFile)
    ensures NamesOf(a + [n]) == NamesOf(a) + [n.file]
  {
  }

  lemma {:induction false} NamesAppend(a: seq<SourceFile>, b: seq<SourceFile>)
    ensures NamesOf(a + b) == NamesOf(a) + NamesOf(b)
  {
  }
}
