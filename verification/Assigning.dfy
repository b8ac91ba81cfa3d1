// What the assignment operators do to the value of a variable.
module Assigning {
  import opened Tokens
  import opened ValueStack
  import opened Semantics
  import opened ScopedEnv

  /** `part` has exactly the strings of `all` at the places `chosen`, in their order; `at` says which place each is from. */
  predicate SelectedAt(at: seq<nat>, part: seq<Str>, all: seq<Str>, chosen: set<nat>) {
    && |at| == |part|
    && (forall i, j | 0 <= i < j < |at| :: at[i] < at[j])
    && (forall i | 0 <= i < |at| :: at[i] < |all| && part[i] == all[at[i]])
    && (forall i | 0 <= i < |at| :: at[i] in chosen)
    && (forall p | p in chosen :: p in at)
  }

  ghost predicate Selected(part: seq<Str>, all: seq<Str>, chosen: set<nat>) {
    exists at :: SelectedAt(at, part, all, chosen)
  }

  function NonEmpty(l: seq<Str>): set<nat> { set i: nat | i < |l| && l[i] != [] }

  /** The places of the first occurrences of non-empty strings that are not in `was`. */
  function NewIn(was: seq<Str>, l: seq<Str>): set<nat> {
    set i: nat | i < |l| && l[i] != [] && l[i] !in was && l[i] !in l[..i]
  }

  /** The places of `was` whose strings stay when `l` is taken out; an empty string takes nothing out. */
  function Staying(was: seq<Str>, l: seq<Str>): set<nat> { set i: nat | i < |was| && (was[i] == [] || was[i] !in l) }

  /** The list `now` that an operator makes of `was` and the words on its right-hand side. */
  ghost predicate Makes(op: AssignOp, was: seq<Str>, vals: seq<Str>, now: seq<Str>)
    requires !op.Replace?
  {
    match op
    case Set => Selected(now, vals, NonEmpty(vals))
    case Append => was <= now && Selected(now[|was|..], vals, NonEmpty(vals))
    case AppendUnique => was <= now && Selected(now[|was|..], vals, NewIn(was, vals))
    case Remove => Selected(now, was, Staying(was, vals))
  }

  /** Only the value of `name` in the innermost scope has changed: it is `now`, by way of what special names do. */
  ghost predicate Changed(env: Env, name: Str, now: seq<Str>, s: Stack, t: Stack) {
    && |t| == |s|
    && Values(t, name) == env.hook(name, now)
    && forall k: nat, other | k < |s| && (k < |s| - 1 || other != name) :: View(t, k, other) == View(s, k, other)
  }

  /** What an operator with the words `vals` does to a variable: from the stack `s` to the stack `t`. */
  ghost predicate Assigned(env: Env, name: Str, op: AssignOp, vals: seq<Str>, s: Stack, t: Stack) {
    var was := Values(s, name);
    if !op.Replace? then exists now :: Makes(op, was, vals, now) && Changed(env, name, now, s, t)
    else
      match env.substitute(Last(vals), was)
      case None => t == s
      case Some(now) => Changed(env, name, now, s, t)
  }

  // ----- lists with one string more -------------------------------------------------------

  lemma {:induction false} SelectedNone(chosen: set<nat>)
    requires chosen == {}
    ensures Selected([], [], chosen)
  {
    assert SelectedAt([], [], [], chosen);
  }

  lemma {:induction false} SelectedSnoc(part: seq<Str>, all: seq<Str>, x: Str, take: bool, before: set<nat>, after: set<nat>)
    requires Selected(part, all, before)
    requires forall p :: p in after <==> p in before || (take && p == |all|)
    ensures Selected(part + if take then [x] else [], all + [x], after)
  {
    var at :| SelectedAt(at, part, all, before);
    if take {
      SelectedMore(at, part, all, x, before, after);
    } else {
      assert part + [] == part;
      assert SelectedAt(at, part, all + [x], after);
    }
  }

  lemma {:induction false} SelectedMore(at: seq<nat>, part: seq<Str>, all: seq<Str>, x: Str, before: set<nat>, after: set<nat>)
    requires SelectedAt(at, part, all, before)
    requires forall p :: p in after <==> p in before || p == |all|
    ensures Selected(part + [x], all + [x], after)
  {
    var n: nat := |all|;
    var more: seq<nat> := at + [n];
    forall p | p in after ensures p in more {
      assert p in at || p == n;
      assert more[|at|] == n;
    }
    assert SelectedAt(more, part + [x], all + [x], after);
  }

  lemma {:induction false} RemoveEmptySnoc(l: seq<Str>, x: Str)
    ensures RemoveEmpty(l + [x]) == RemoveEmpty(l) + if x == [] then [] else [x]
  {
    hide *;
    RemoveEmptyFirst(l);
    RemoveEmptyFirst(l + [x]);
    if l == [] {
      assert [] + [x] == [x] && [x][1..] == [];
    } else {
      assert (l + [x])[0] == l[0] && (l + [x])[1..] == l[1..] + [x];
      RemoveEmptySnoc(l[1..], x);
    }
  }

  lemma {:induction false} RemoveEmptyFirst(l: seq<Str>)
    ensures RemoveEmpty(l) == if l == [] then [] else (if l[0] == [] then [] else [l[0]]) + RemoveEmpty(l[1..])
    ensures RemoveEmpty([]) == []
  {
  }

  lemma {:induction false} RemoveEmptySelects(l: seq<Str>)
    ensures Selected(RemoveEmpty(l), l, NonEmpty(l))
  {
    if l == [] {
      SelectedNone(NonEmpty(l));
    } else {
      var v, x := l[..|l| - 1], l[|l| - 1];
      RemoveEmptySelects(v);
      RemoveEmptySnoc(v, x);
      assert l == v + [x];
      SelectedSnoc(RemoveEmpty(v), v, x, x != [], NonEmpty(v), NonEmpty(l));
      assert RemoveEmpty(v) + [] == RemoveEmpty(v);
    }
  }

  lemma {:induction false} InsertUniqueSnoc(l: seq<Str>, xs: seq<Str>, x: Str)
    ensures var r := InsertUnique(l, xs);
            InsertUnique(l, xs + [x]) == if x == [] || x in r then r else r + [x]
    decreases xs
  {
    if xs == [] {
      assert [x][1..] == [];
    } else {
      assert (xs + [x])[1..] == xs[1..] + [x];
      InsertUniqueSnoc(if xs[0] == [] || xs[0] in l then l else l + [xs[0]], xs[1..], x);
    }
  }

  /** What is put in is what was there, and then the new strings. */
  lemma {:induction false} InsertUniqueSelects(was: seq<Str>, l: seq<Str>)
    ensures var r := InsertUnique(was, l);
            && was <= r && Selected(r[|was|..], l, NewIn(was, l))
            && forall s :: s in r <==> s in was || (s in l && s != [])
    decreases l
  {
    hide *;
    if l == [] {
      NothingNew(was);
      SelectedNone(NewIn(was, l));
    } else {
      var v, x := l[..|l| - 1], l[|l| - 1];
      var r := InsertUnique(was, v);
      InsertUniqueSelects(was, v);
      InsertUniqueSnoc(was, v, x);
      assert l == v + [x];
      var take := x != [] && x !in r;
      NewInSnoc(was, v, x, r);
      SelectedSnoc(r[|was|..], v, x, take, NewIn(was, v), NewIn(was, l));
      assert r[|was|..] + [] == r[|was|..];
      assert (r + [x])[|was|..] == r[|was|..] + [x];
      InOneMore(v, x);
      InOneMore(r, x);
    }
  }

  lemma {:induction false} NothingNew(was: seq<Str>)
    ensures InsertUnique(was, []) == was && was[|was|..] == [] && NewIn(was, []) == {}
  {
  }

  lemma {:induction false} InOneMore(l: seq<Str>, x: Str)
    ensures forall s :: s in l + [x] <==> s in l || s == x
  {
  }

  lemma {:induction false} NewInSnoc(was: seq<Str>, l: seq<Str>, x: Str, r: seq<Str>)
    requires forall s :: s in r <==> s in was || (s in l && s != [])
    ensures forall p :: p in NewIn(was, l + [x]) <==> p in NewIn(was, l) || (x != [] && x !in r && p == |l|)
  {
    forall p: nat | p < |l| ensures (l + [x])[..p] == l[..p] && (l + [x])[p] == l[p] {
    }
    assert (l + [x])[..|l|] == l;
  }

  lemma {:induction false} RemoveAllSnoc(l: seq<Str>, y: Str, x: Str)
    ensures RemoveAll(l + [y], x) == RemoveAll(l, x) + if y == x then [] else [y]
  {
    hide *;
    RemoveAllFirst(l, x);
    RemoveAllFirst(l + [y], x);
    if l == [] {
      assert [] + [y] == [y] && [y][1..] == [];
    } else {
      assert (l + [y])[0] == l[0] && (l + [y])[1..] == l[1..] + [y];
      RemoveAllSnoc(l[1..], y, x);
    }
  }

  lemma {:induction false} RemoveAllFirst(l: seq<Str>, x: Str)
    ensures RemoveAll(l, x) == if l == [] then [] else (if l[0] == x then [] else [l[0]]) + RemoveAll(l[1..], x)
    ensures RemoveAll([], x) == []
  {
  }

  lemma {:induction false} RemoveEachSnoc(l: seq<Str>, y: Str, xs: seq<Str>)
    ensures RemoveEach(l + [y], xs) == RemoveEach(l, xs) + if y == [] || y !in xs then [y] else []
    decreases xs
  {
    if xs != [] {
      var rest := if xs[0] == [] then l else RemoveAll(l, xs[0]);
      RemoveAllSnoc(l, y, xs[0]);
      assert y in xs <==> y == xs[0] || y in xs[1..];
      if xs[0] == [] || y != xs[0] {
        RemoveEachSnoc(rest, y, xs[1..]);
      } else {
        assert RemoveAll(l, xs[0]) + [] == rest;
        assert RemoveEach(rest, xs[1..]) + [] == RemoveEach(rest, xs[1..]);
      }
    }
  }

  lemma {:induction false} NothingLeft(xs: seq<Str>)
    ensures RemoveEach([], xs) == []
    decreases xs
  {
    if xs != [] {
      NothingLeft(xs[1..]);
    }
  }

  lemma {:induction false} RemoveEachSelects(l: seq<Str>, xs: seq<Str>)
    ensures Selected(RemoveEach(l, xs), l, Staying(l, xs))
  {
    hide RemoveEach, Selected;
    if l == [] {
      NothingLeft(xs);
      SelectedNone(Staying(l, xs));
    } else {
      var v, x := l[..|l| - 1], l[|l| - 1];
      RemoveEachSelects(v, xs);
      RemoveEachSnoc(v, x, xs);
      assert l == v + [x];
      SelectedSnoc(RemoveEach(v, xs), v, x, x == [] || x !in xs, Staying(v, xs), Staying(l, xs));
      assert RemoveEach(v, xs) + [] == RemoveEach(v, xs);
    }
  }

  // ----- the operators ------------------------------------------------------------------

  lemma {:induction false} SetChanges(env: Env, name: Str, now: seq<Str>, s: Stack)
    ensures Changed(env, name, now, s, SetTop(s, name, Vals(env.hook(name, now))))
  {
    var v := Vals(env.hook(name, now));
    var t := SetTop(s, name, v);
    SetTopViews(s, name, v, |s| - 1, name);
    TopView(t, name);
    forall k: nat, other | k < |s| && (k < |s| - 1 || other != name) ensures View(t, k, other) == View(s, k, other) {
      SetTopViews(s, name, v, k, other);
    }
  }

  /** What each operator makes of the value before. */
  lemma {:induction false} OperatorMakes(env: Env, name: Str, op: AssignOp, vals: seq<Str>, s: Stack)
    ensures Assigned(env, name, op, vals, s, AssignTo(env, name, op, vals, s))
  {
    var was := Values(s, name);
    hide Values, SetTop, Changed, Selected;
    match op {
      case Set =>
        var now := RemoveEmpty(vals);
        RemoveEmptySelects(vals);
        SetChanges(env, name, now, s);
        assert Makes(op, was, vals, now);
      case Append =>
        var now := was + RemoveEmpty(vals);
        RemoveEmptySelects(vals);
        SetChanges(env, name, now, s);
        assert now[|was|..] == RemoveEmpty(vals);
        assert Makes(op, was, vals, now);
      case AppendUnique =>
        var now := InsertUnique(was, vals);
        InsertUniqueSelects(was, vals);
        SetChanges(env, name, now, s);
        assert Makes(op, was, vals, now);
      case Remove =>
        var now := RemoveEach(was, vals);
        RemoveEachSelects(was, vals);
        SetChanges(env, name, now, s);
        assert Makes(op, was, vals, now);
      case Replace =>
        var now := env.substitute(Last(vals), was);
        if now.Some? {
          SetChanges(env, name, now.value, s);
        }
    }
  }

  /** An assignment statement: its right-hand side is evaluated first, so the value before is the one after that. */
  lemma {:induction false} AssignmentMakes(env: Env, fuel: nat, lhs: seq<Str>, op: AssignOp, rhs: Expr, st: State)
    ensures var r := Assignment(env, fuel, lhs, op, rhs, st);
            var o := Words(env, fuel, rhs, st, op.Replace?);
            if |lhs| != 1 then r == Result(RTrue, st)
            else if o.ret.Fatal() then r == Result(o.ret, o.st)
            else
              && r == Result(RTrue, o.st.(stack := r.st.stack))
              && Assigned(env, env.alias(lhs[0]), op, o.v, o.st.stack, r.st.stack)
  {
    hide Words, Assigned, AssignTo;
    if |lhs| == 1 {
      var o := Words(env, fuel, rhs, st, op.Replace?);
      OperatorMakes(env, env.alias(lhs[0]), op, o.v, o.st.stack);
    }
  }

  /** An operator makes one list only. */
  lemma {:induction false} MakesOne(op: AssignOp, was: seq<Str>, vals: seq<Str>, a: seq<Str>, b: seq<Str>)
    requires !op.Replace? && Makes(op, was, vals, a) && Makes(op, was, vals, b)
    ensures a == b
  {
    match op {
      case Set => SelectsOne(a, b, vals, NonEmpty(vals));
      case Append => SelectsOne(a[|was|..], b[|was|..], vals, NonEmpty(vals));
      case AppendUnique => SelectsOne(a[|was|..], b[|was|..], vals, NewIn(was, vals));
      case Remove => SelectsOne(a, b, was, Staying(was, vals));
    }
    assert was <= a ==> a == was + a[|was|..];
    assert was <= b ==> b == was + b[|was|..];
  }

  lemma {:induction false} SelectsOne(a: seq<Str>, b: seq<Str>, all: seq<Str>, chosen: set<nat>)
    requires Selected(a, all, chosen) && Selected(b, all, chosen)
    ensures a == b
  {
    var at :| SelectedAt(at, a, all, chosen);
    var bt :| SelectedAt(bt, b, all, chosen);
    SameRising(at, bt);
  }

  lemma {:induction false} SomeInBoth(a: seq<nat>, b: seq<nat>)
    requires forall p :: p in a ==> p in b
    ensures a != [] ==> b != []
  {
    if a != [] {
      assert a[0] in b;
    }
  }

  /** Two rising sequences of the same numbers are equal. */
  lemma {:induction false} SameRising(a: seq<nat>, b: seq<nat>)
    requires forall i, j | 0 <= i < j < |a| :: a[i] < a[j]
    requires forall i, j | 0 <= i < j < |b| :: b[i] < b[j]
    requires forall p :: p in a <==> p in b
    ensures a == b
  {
    SomeInBoth(a, b);
    SomeInBoth(b, a);
    if a != [] {
      var x, y := a[|a| - 1], b[|b| - 1];
      assert x in b && y in a;
      assert x == y;
      var u, v := a[..|a| - 1], b[..|b| - 1];
      assert a == u + [x] && b == v + [x];
      forall p ensures p in u <==> p in v {
        assert p in a <==> p in u || p == x;
        assert p in b <==> p in v || p == x;
        assert x !in u && x !in v;
      }
      SameRising(u, v);
    }
  }
}
