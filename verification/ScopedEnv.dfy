// The stack of variable maps with its tombstones is a plain scoped environment:
// what each operation does to what is visible, at every depth.
module ScopedEnv {
  import opened Tokens
  import opened ValueStack

  /** What a name means once the frames above depth `k` are popped. */
  function View(s: Stack, k: nat, name: Str): seq<Str>
    requires k < |s|
  {
    Values(s[..k + 1], name)
  }

  lemma {:induction false} InnermostPrefix(s: seq<Frame>, t: seq<Frame>, n: nat, name: Str)
    requires n <= |s| && n <= |t| && s[..n] == t[..n]
    ensures Innermost(s, n, name) == Innermost(t, n, name)
    decreases n
  {
    if n > 0 {
      assert s[n - 1] == s[..n][n - 1] == t[..n][n - 1] == t[n - 1];
      assert s[..n - 1] == s[..n][..n - 1] == t[..n][..n - 1] == t[..n - 1];
      InnermostPrefix(s, t, n - 1, name);
    }
  }

  lemma {:induction false} TopView(s: Stack, name: Str)
    ensures View(s, |s| - 1, name) == Values(s, name)
  {
    assert s[..|s|] == s;
  }

  /** Depths below the top do not depend on the top frame. */
  lemma {:induction false} LowerViews(s: Stack, f: Frame, k: nat, name: Str)
    requires k < |s| - 1
    ensures View(s[|s| - 1 := f], k, name) == View(s, k, name)
  {
    assert s[|s| - 1 := f][..k + 1] == s[..k + 1];
  }

  /** The value of a name the top frame does not bind. */
  lemma {:induction false} UnboundTop(s: Stack, f: Frame, name: Str)
    requires name !in Top(s) && name !in f
    ensures Values(s[|s| - 1 := f], name) == Values(s, name)
  {
    var t := s[|s| - 1 := f];
    InnermostPrefix(s, t, |s| - 1, name);
  }

  /** Fetching a name for writing, without a write, changes nothing that is visible at any depth. */
  lemma {:induction false} MaterializeKeepsViews(s: Stack, name: Str, k: nat, other: Str)
    requires k < |s|
    ensures View(Materialize(s, name), k, other) == View(s, k, other)
  {
    var t := Materialize(s, name);
    if t != s {
      SetTopViews(s, name, Vals(Values(s, name)), k, other);
      TopView(s, name);
    }
  }

  /** Writing a name in the top frame changes that name, in the innermost scope only. */
  lemma {:induction false} SetTopViews(s: Stack, name: Str, v: Val, k: nat, other: Str)
    requires k < |s|
    ensures View(SetTop(s, name, v), k, other) ==
            if k == |s| - 1 && other == name then Deref(v) else View(s, k, other)
  {
    var t := SetTop(s, name, v);
    if k < |s| - 1 {
      LowerViews(s, Top(s)[name := v], k, other);
    } else {
      TopView(s, other);
      TopView(t, other);
      if other != name && other !in Top(s) {
        UnboundTop(s, Top(s)[name := v], other);
      }
    }
  }

  /** Unsetting hides the name, in the innermost scope only; it says whether there was a value to hide. */
  lemma {:induction false} UnsetViews(s: Stack, name: Str, k: nat, other: Str)
    requires k < |s|
    ensures var (found, t) := Unset(s, name);
            && |t| == |s|
            && View(t, k, other) == (if k == |s| - 1 && other == name then [] else View(s, k, other))
            && (!found ==> t == s && Values(s, name) == [])
  {
    var i := Binding(s, name);
    TopView(s, other);
    if i >= 0 && s[i][name].Vals? {
      if |s| == 1 {
        var t: Stack := [s[0] - {name}];
        TopView(t, other);
        if other !in s[0] {
          UnboundTop(s, s[0] - {name}, other);
        } else {
          assert other == name || other in t[0];
        }
        assert s[|s| - 1 := s[0] - {name}] == t;
      } else {
        SetTopViews(s, name, Fake, k, other);
      }
    }
  }

  /** A name that is unset stays hidden until its frame is popped; then the outer value is visible again. */
  lemma {:induction false} UnsetThenPop(s: Stack, name: Str)
    requires |s| > 1
    ensures var (found, t) := Unset(s, name);
            Values(t, name) == [] && Values(Pop(t), name) == Values(Pop(s), name)
  {
    var (found, t) := Unset(s, name);
    UnsetViews(s, name, |s| - 1, name);
    UnsetViews(s, name, |s| - 2, name);
    TopView(t, name);
  }

  /** Entering a function: its frame on top, the rest visible through it except numbered parameters. */
  lemma {:induction false} PushViews(s: Stack, f: Frame, name: Str)
    ensures Values(Push(s, f), name) ==
            if name in f then Deref(f[name])
            else if IsFunctParam(name) then []
            else Values(s, name)
    ensures Pop(Push(s, f)) == s
  {
    var t := Push(s, f);
    assert t[..|s|] == s[..|s|] == s;
    if name !in f && !IsFunctParam(name) {
      InnermostPrefix(s, t, |s|, name);
    }
  }

  // ----- export -----------------------------------------------------------------------

  lemma {:induction false} OnlyGlobal(s: seq<Frame>, n: nat, name: Str)
    requires 0 < n <= |s| && name in s[0] && (forall j | 0 < j < n :: name !in s[j])
    ensures Innermost(s, n, name) == 0
    decreases n
  {
    if n > 1 {
      OnlyGlobal(s, n - 1, name);
    }
  }

  /** The value of the innermost binding of a name. */
  function Nearest(s: Stack, name: Str): seq<Str>
    requires Innermost(s, |s|, name) >= 0
  {
    Deref(s[Innermost(s, |s|, name)][name])
  }

  /** Exporting a name that has a binding above the global frame makes its value the one at every depth, but for a numbered
      parameter the one in the global frame only, and the global frame's binding the only one. No other name is affected. */
  lemma {:induction false} ExportViews(s: Stack, name: Str, k: nat, other: Str)
    requires k < |s| && Innermost(s, |s|, name) > 0
    ensures var t := Export(s, name);
            && |t| == |s|
            && View(t, k, other) == (if other != name then View(s, k, other)
                                     else if k > 0 && IsFunctParam(name) then [] else Nearest(s, name))
            && name in t[0] && (forall j | 0 < j < |t| :: name !in t[j])
    ensures !IsFunctParam(name) ==> Nearest(s, name) == Values(s, name)
  {
    var t := Export(s, name);
    if other == name {
      var u := t[..k + 1];
      assert forall j | 0 < j < |u| :: name !in u[j];
      OnlyGlobal(u, k + 1, name);
    } else {
      SameInnermost(s[..k + 1], t[..k + 1], k + 1, name, other);
    }
  }

  lemma {:induction false} SameInnermost(s: seq<Frame>, t: seq<Frame>, n: nat, name: Str, other: Str)
    requires n <= |s| == |t| && other != name
    requires forall j | 0 <= j < |s| :: s[j] - {name} == t[j] - {name}
    ensures Innermost(s, n, other) == Innermost(t, n, other)
    ensures forall j | 0 <= j < n :: (other in s[j] <==> other in t[j]) && (other in s[j] ==> s[j][other] == t[j][other])
    decreases n
  {
    if n > 0 {
      SameInnermost(s, t, n - 1, name, other);
      assert other in s[n - 1] <==> other in s[n - 1] - {name};
      assert other in t[n - 1] <==> other in t[n - 1] - {name};
    }
  }

  /** Export keeps the visible value of a name if and only if the name is not a numbered parameter with a value in
      a function's frame. */
  lemma {:induction false} ExportKeepsValue(s: Stack, name: Str)
    ensures Values(Export(s, name), name) == Values(s, name) <==>
            !(IsFunctParam(name) && |s| > 1 && name in Top(s) && Deref(Top(s)[name]) != [])
  {
    var i := Innermost(s, |s|, name);
    if i > 0 {
      if IsFunctParam(name) {
        assert name !in Top(Export(s, name));
      } else {
        ExportViews(s, name, |s| - 1, name);
        TopView(Export(s, name), name);
      }
    }
  }
}
