// Putting the extra compilers into the order of their input/output chain: in place,
// one jump after the other, and with a bound on the jumps.
module CompilerChain {
  import opened Tokens

  type Name = Str

  /** The files that compilers write and read, by compiler. */
  datatype Files = Files(outputs: map<Name, seq<Str>>, inputs: map<Name, seq<Str>>)

  function Of(m: map<Name, seq<Str>>, x: Name): seq<Str> { if x in m then m[x] else [] }

  /** The compiler `y` reads something `x` writes. */
  predicate Feeds(f: Files, x: Name, y: Name) {
    exists o :: o in Of(f.outputs, x) && o in Of(f.inputs, y)
  }

  /** No compiler stands after one that reads what it writes. */
  predicate Chained(f: Files, quc: seq<Name>) {
    forall i, j | 0 <= i < j < |quc| :: !Feeds(f, quc[j], quc[i])
  }

  /** The first compiler from `from` on, and in front of `compOut`, that reads the file `o`; or -1. */
  function Reader(f: Files, quc: seq<Name>, compOut: nat, o: Str, from: nat): (r: int)
    requires from <= compOut < |quc|
    ensures r == -1 || (from <= r < compOut && o in Of(f.inputs, quc[r]))
    ensures r == -1 ==> forall i | from <= i < compOut :: o !in Of(f.inputs, quc[i])
    decreases compOut - from
  {
    if from == compOut then -1
    else if o in Of(f.inputs, quc[from]) then from
    else Reader(f, quc, compOut, o, from + 1)
  }

  /** The same for the first of the files `outs` that is read at all. */
  function FirstReader(f: Files, quc: seq<Name>, compOut: nat, outs: seq<Str>): (r: int)
    requires compOut < |quc|
    ensures r == -1 || (0 <= r < compOut && exists o :: o in outs && o in Of(f.inputs, quc[r]))
    ensures r == -1 ==> forall i, o | 0 <= i < compOut && o in outs :: o !in Of(f.inputs, quc[i])
    decreases outs
  {
    if outs == [] then -1
    else
      var r := Reader(f, quc, compOut, outs[0], 0);
      assert forall o | o in outs :: o == outs[0] || o in outs[1..];
      if r >= 0 then r else FirstReader(f, quc, compOut, outs[1..])
  }

  /** The list with its element at `from` moved to the earlier place `to`. */
  function Moved(quc: seq<Name>, from: nat, to: nat): seq<Name>
    requires to <= from < |quc|
  {
    quc[..to] + [quc[from]] + quc[to..from] + quc[from + 1..]
  }

  /** The list the loop ends with, the jumps it took, and whether it ran into the bound. */
  datatype Outcome = Outcome(list: seq<Name>, jumps: nat, bounded: bool)

  /** The loop with a bound of `limit` jumps. */
  function Ordered(f: Files, quc: seq<Name>, compOut: nat, jumps: nat, limit: nat): Outcome
    requires jumps <= limit + 1
    decreases limit + 1 - jumps, |quc| - compOut
  {
    if compOut >= |quc| then Outcome(quc, jumps, false)
    else if jumps > limit then Outcome(quc, jumps, true)
    else
      var r := FirstReader(f, quc, compOut, Of(f.outputs, quc[compOut]));
      if r >= 0 then Ordered(f, Moved(quc, compOut, r), r, jumps + 1, limit) else Ordered(f, quc, compOut + 1, jumps, limit)
  }

  lemma {:induction false} ReaderOf(f: Files, quc: seq<Name>, compOut: nat, outs: seq<Str>, n: nat)
    requires compOut < |quc| && n < |outs|
    ensures var r := Reader(f, quc, compOut, outs[n], 0);
            FirstReader(f, quc, compOut, outs[n..]) == if r >= 0 then r else FirstReader(f, quc, compOut, outs[n + 1..])
    ensures 0 == compOut ==> Reader(f, quc, compOut, outs[n], 0) == -1
  {
    assert outs[n..][1..] == outs[n + 1..];
  }

  lemma {:induction false} ReaderFrom(f: Files, quc: seq<Name>, compOut: nat, o: Str, n: nat)
    requires n < compOut < |quc|
    ensures Reader(f, quc, compOut, o, n) == if o in Of(f.inputs, quc[n]) then n else Reader(f, quc, compOut, o, n + 1)
    ensures n + 1 == compOut ==> Reader(f, quc, compOut, o, n + 1) == -1
  {
  }

  lemma {:induction false} NoReader(f: Files, quc: seq<Name>, compOut: nat, outs: seq<Str>)
    requires compOut < |quc|
    ensures FirstReader(f, quc, compOut, outs[|outs|..]) == -1
  {
  }

  lemma {:induction false} OrderedStep(f: Files, quc: seq<Name>, compOut: nat, jumps: nat, limit: nat)
    requires compOut < |quc| && jumps <= limit
    ensures var r := FirstReader(f, quc, compOut, Of(f.outputs, quc[compOut]));
            Ordered(f, quc, compOut, jumps, limit) ==
            if r >= 0 then Ordered(f, Moved(quc, compOut, r), r, jumps + 1, limit) else Ordered(f, quc, compOut + 1, jumps, limit)
  {
    hide FirstReader, Moved;
  }

  lemma {:induction false} OrderedEnds(f: Files, quc: seq<Name>, compOut: nat, jumps: nat, limit: nat)
    requires (compOut >= |quc| || jumps > limit) && jumps <= limit + 1
    ensures Ordered(f, quc, compOut, jumps, limit) == Outcome(quc, jumps, compOut < |quc|)
  {
  }

  /** Inserting the element at its new place, and removing it from its old one. */
  lemma {:induction false} MovedInPlace(quc: seq<Name>, from: nat, to: nat)
    requires to <= from < |quc|
    ensures var put := quc[..to] + [quc[from]] + quc[to..];
            put[..from + 1] + put[from + 2..] == Moved(quc, from, to) && |Moved(quc, from, to)| == |quc|
  {
    var put := quc[..to] + [quc[from]] + quc[to..];
    assert put[..from + 1] == quc[..to] + [quc[from]] + quc[to..from];
    assert put[from + 2..] == quc[from + 1..];
  }

  class MakefileGenerator {
    const files: Files
    var quc: seq<Name>

    constructor (files: Files, quc: seq<Name>)
      ensures this.files == files && this.quc == quc
    {
      this.files, this.quc := files, quc;
    }

    /** The earlier compiler that the one at `compOut` has to stand in front of, or -1. */
    method FindReader(compOut: nat) returns (r: int)
      requires compOut < |quc|
      ensures r == FirstReader(files, quc, compOut, Of(files.outputs, quc[compOut]))
    {
      var outputs := Of(files.outputs, quc[compOut]);
      hide *;
      assert outputs[0..] == outputs;
      for out := 0 to |outputs|
        invariant FirstReader(files, quc, compOut, outputs) == FirstReader(files, quc, compOut, outputs[out..])
      {
        ReaderOf(files, quc, compOut, outputs, out);
        for compIn := 0 to |quc|
          invariant Reader(files, quc, compOut, outputs[out], 0) ==
                    if compIn < compOut then Reader(files, quc, compOut, outputs[out], compIn) else -1
        {
          if compIn < compOut {
            ReaderFrom(files, quc, compOut, outputs[out], compIn);
          }
          if compIn != compOut {
            var inputs := Of(files.inputs, quc[compIn]);
            for i := 0 to |inputs|
              invariant compOut > compIn ==> outputs[out] !in inputs[..i]
            {
              if inputs[i] == outputs[out] && compOut > compIn {
                return compIn;
              }
            }
            assert inputs[..|inputs|] == inputs;
          }
        }
      }
      NoReader(files, quc, compOut, outputs);
      r := -1;
    }

    /** Reorders the list in place; `bounded` says that it gave up. */
    method OrderCompilers() returns (bounded: bool)
      modifies this
      ensures var o := Ordered(files, old(quc), 0, 0, old(|quc|)); quc == o.list && bounded == o.bounded
    {
      hide *;
      var compOut, jumpCount := 0, 0;
      bounded := false;
      while compOut < |quc|
        invariant |quc| == old(|quc|) && 0 <= compOut && 0 <= jumpCount <= |quc| + 1 && !bounded
        invariant Ordered(files, quc, compOut, jumpCount, |quc|) == Ordered(files, old(quc), 0, 0, old(|quc|))
        decreases |quc| + 1 - jumpCount, |quc| - compOut
      {
        if jumpCount > |quc| {
          bounded := true;
          break;
        }
        var compIn := FindReader(compOut);
        OrderedStep(files, quc, compOut, jumpCount, |quc|);
        if compIn >= 0 {
          jumpCount := jumpCount + 1;
          MovedInPlace(quc, compOut, compIn);
          var x := quc[compOut];
          quc := quc[..compIn] + [x] + quc[compIn..];
          quc := quc[..compOut + 1] + quc[compOut + 2..];
          compOut := compIn;
        } else {
          compOut := compOut + 1;
        }
      }
      OrderedEnds(files, quc, compOut, jumpCount, |quc|);
    }
  }

  // ----- what the loop achieves ------------------------------------------------------------

  lemma {:induction false} MovedPermutes(quc: seq<Name>, from: nat, to: nat)
    requires to <= from < |quc|
    ensures multiset(Moved(quc, from, to)) == multiset(quc) && |Moved(quc, from, to)| == |quc|
  {
    assert quc == quc[..to] + quc[to..from] + [quc[from]] + quc[from + 1..];
  }

  /** The loop only permutes the list, whatever the compilers. */
  lemma {:induction false} OrderedPermutes(f: Files, quc: seq<Name>, compOut: nat, jumps: nat, limit: nat)
    requires jumps <= limit + 1
    ensures multiset(Ordered(f, quc, compOut, jumps, limit).list) == multiset(quc)
    decreases limit + 1 - jumps, |quc| - compOut
  {
    if compOut < |quc| && jumps <= limit {
      var r := FirstReader(f, quc, compOut, Of(f.outputs, quc[compOut]));
      if r >= 0 {
        MovedPermutes(quc, compOut, r);
        OrderedPermutes(f, Moved(quc, compOut, r), r, jumps + 1, limit);
      } else {
        OrderedPermutes(f, quc, compOut + 1, jumps, limit);
      }
    }
  }

  /** The part in front of `compOut` stays chained when the loop goes on by one place. */
  lemma {:induction false} OneFurther(f: Files, quc: seq<Name>, compOut: nat)
    requires compOut < |quc| && Chained(f, quc[..compOut])
    requires FirstReader(f, quc, compOut, Of(f.outputs, quc[compOut])) < 0
    ensures Chained(f, quc[..compOut + 1])
  {
    var p := quc[..compOut + 1];
    forall i, j | 0 <= i < j < |p| ensures !Feeds(f, p[j], p[i]) {
      if j < compOut {
        assert quc[..compOut][i] == p[i] && quc[..compOut][j] == p[j];
      }
    }
  }

  /** Unless it ran into the bound, the list is chained. */
  lemma {:induction false} OrderedIsChained(f: Files, quc: seq<Name>, compOut: nat, jumps: nat, limit: nat)
    requires jumps <= limit + 1 && compOut <= |quc| && Chained(f, quc[..compOut])
    ensures var o := Ordered(f, quc, compOut, jumps, limit); !o.bounded ==> Chained(f, o.list)
    decreases limit + 1 - jumps, |quc| - compOut
  {
    if compOut == |quc| {
      assert quc[..compOut] == quc;
    } else if jumps <= limit {
      var r := FirstReader(f, quc, compOut, Of(f.outputs, quc[compOut]));
      if r >= 0 {
        var m := Moved(quc, compOut, r);
        assert m[..r] == quc[..compOut][..r];
        OrderedIsChained(f, m, r, jumps + 1, limit);
      } else {
        OneFurther(f, quc, compOut);
        OrderedIsChained(f, quc, compOut + 1, jumps, limit);
      }
    }
  }

  /** The whole loop: a permutation, and chained if the bound was not hit. */
  lemma {:induction false} OrderIsSound(f: Files, quc: seq<Name>, limit: nat)
    ensures var o := Ordered(f, quc, 0, 0, limit);
            multiset(o.list) == multiset(quc) && (o.bounded || Chained(f, o.list))
  {
    OrderedPermutes(f, quc, 0, 0, limit);
    OrderedIsChained(f, quc, 0, 0, limit);
  }

  /** A chained list is left as it is, without a jump. */
  lemma {:induction false} ChainedIsKept(f: Files, quc: seq<Name>, compOut: nat, limit: nat)
    requires Chained(f, quc) && compOut <= |quc|
    ensures Ordered(f, quc, compOut, 0, limit) == Outcome(quc, 0, false)
    decreases |quc| - compOut
  {
    if compOut < |quc| {
      var r := FirstReader(f, quc, compOut, Of(f.outputs, quc[compOut]));
      if r >= 0 {
        assert Feeds(f, quc[compOut], quc[r]);
      }
      ChainedIsKept(f, quc, compOut + 1, limit);
    }
  }

  // ----- the bound ----------------------------------------------------------------------------

  /** A bound that is not hit is no part of the outcome; and it is hit if and only if it is lower than the jumps. */
  lemma {:induction false} OneOutcome(f: Files, quc: seq<Name>, compOut: nat, jumps: nat, a: nat, b: nat)
    requires jumps <= a + 1 && jumps <= b + 1 && (compOut < |quc| || jumps <= b) && !Ordered(f, quc, compOut, jumps, a).bounded
    ensures var o := Ordered(f, quc, compOut, jumps, a);
            && jumps <= o.jumps
            && (o.jumps <= b ==> Ordered(f, quc, compOut, jumps, b) == o)
            && (o.jumps > b ==> Ordered(f, quc, compOut, jumps, b).bounded)
    decreases a + 1 - jumps, |quc| - compOut
  {
    if compOut < |quc| && jumps <= a {
      var r := FirstReader(f, quc, compOut, Of(f.outputs, quc[compOut]));
      if r >= 0 {
        if jumps <= b {
          OneOutcome(f, Moved(quc, compOut, r), r, jumps + 1, a, b);
        } else {
          FewerJumps(f, Moved(quc, compOut, r), r, jumps + 1, a);
        }
      } else {
        if jumps <= b {
          OneOutcome(f, quc, compOut + 1, jumps, a, b);
        } else {
          FewerJumps(f, quc, compOut + 1, jumps, a);
        }
      }
    }
  }

  lemma {:induction false} FewerJumps(f: Files, quc: seq<Name>, compOut: nat, jumps: nat, limit: nat)
    requires jumps <= limit + 1
    ensures Ordered(f, quc, compOut, jumps, limit).jumps >= jumps
    decreases limit + 1 - jumps, |quc| - compOut
  {
    if compOut < |quc| && jumps <= limit {
      var r := FirstReader(f, quc, compOut, Of(f.outputs, quc[compOut]));
      if r >= 0 {
        FewerJumps(f, Moved(quc, compOut, r), r, jumps + 1, limit);
      } else {
        FewerJumps(f, quc, compOut + 1, jumps, limit);
      }
    }
  }

  // ----- exactly when the list comes out in order ------------------------------------------------

  /** No jump is taken in a chained list, wherever the loop stands. */
  lemma {:induction false} NoJump(f: Files, quc: seq<Name>, compOut: nat, jumps: nat, limit: nat)
    requires Chained(f, quc) && compOut <= |quc| && jumps <= limit
    ensures Ordered(f, quc, compOut, jumps, limit) == Outcome(quc, jumps, false)
    decreases |quc| - compOut
  {
    if compOut < |quc| {
      var r := FirstReader(f, quc, compOut, Of(f.outputs, quc[compOut]));
      if r >= 0 {
        assert Feeds(f, quc[compOut], quc[r]);
      }
      NoJump(f, quc, compOut + 1, jumps, limit);
    }
  }

  /** If the list is in order where the bound is hit, one jump more would not be taken. */
  lemma {:induction false} OneJumpMore(f: Files, quc: seq<Name>, compOut: nat, jumps: nat, limit: nat)
    requires jumps <= limit + 1 && compOut <= |quc| && Chained(f, Ordered(f, quc, compOut, jumps, limit).list)
    ensures var o := Ordered(f, quc, compOut, jumps, limit + 1);
            !o.bounded && o.jumps <= limit + 1
    decreases limit + 1 - jumps, |quc| - compOut
  {
    if compOut < |quc| {
      if jumps > limit {
        NoJump(f, quc, compOut, jumps, limit + 1);
      } else {
        var r := FirstReader(f, quc, compOut, Of(f.outputs, quc[compOut]));
        if r >= 0 {
          OneJumpMore(f, Moved(quc, compOut, r), r, jumps + 1, limit);
        } else {
          OneJumpMore(f, quc, compOut + 1, jumps, limit);
        }
      }
    }
  }

  /** A bound of one jump less than are taken without it is hit, but where nothing is left to do. */
  lemma {:induction false} LastJump(f: Files, quc: seq<Name>, compOut: nat, jumps: nat, a: nat, limit: nat)
    requires jumps <= a + 1 && jumps <= limit + 1 && compOut <= |quc|
    requires var o := Ordered(f, quc, compOut, jumps, a); !o.bounded && o.jumps <= limit + 1
    ensures Ordered(f, quc, compOut, jumps, limit).list == Ordered(f, quc, compOut, jumps, a).list
    decreases a + 1 - jumps, |quc| - compOut
  {
    if compOut < |quc| {
      var r := FirstReader(f, quc, compOut, Of(f.outputs, quc[compOut]));
      if r >= 0 {
        FewerJumps(f, Moved(quc, compOut, r), r, jumps + 1, a);
        LastJump(f, Moved(quc, compOut, r), r, jumps + 1, a, limit);
      } else {
        LastJump(f, quc, compOut + 1, jumps, a, limit);
        if jumps > limit {
          StaysAtBound(f, quc, compOut + 1, jumps, limit);
        }
      }
    }
  }

  lemma {:induction false} StaysAtBound(f: Files, quc: seq<Name>, compOut: nat, jumps: nat, limit: nat)
    requires jumps == limit + 1
    ensures Ordered(f, quc, compOut, jumps, limit).list == quc
  {
  }

  /** The list comes out in order if and only if the loop without the bound ends, after at most one jump more than the
      bound. */
  lemma {:induction false} ChainedExactly(f: Files, quc: seq<Name>, limit: nat)
    ensures Chained(f, Ordered(f, quc, 0, 0, limit).list) <==>
            exists a: nat :: !Ordered(f, quc, 0, 0, a).bounded && Ordered(f, quc, 0, 0, a).jumps <= limit + 1
  {
    if Chained(f, Ordered(f, quc, 0, 0, limit).list) {
      OneJumpMore(f, quc, 0, 0, limit);
    }
    if a: nat :| !Ordered(f, quc, 0, 0, a).bounded && Ordered(f, quc, 0, 0, a).jumps <= limit + 1 {
      LastJump(f, quc, 0, 0, a, limit);
      OrderIsSound(f, quc, a);
    }
  }

  // ----- what a jump does to the pairs that stand out of order -----------------------------------

  /** What the compilers behind `x` that feed it weigh. */
  function Behind(f: Files, c: Name -> nat, x: Name, rest: seq<Name>): nat {
    if rest == [] then 0 else (if Feeds(f, rest[0], x) then c(x) else 0) + Behind(f, c, x, rest[1..])
  }

  /** What the compilers in front of `x` that it feeds weigh. */
  function InFront(f: Files, c: Name -> nat, seg: seq<Name>, x: Name): nat {
    if seg == [] then 0 else (if Feeds(f, x, seg[0]) then c(seg[0]) else 0) + InFront(f, c, seg[1..], x)
  }

  /** The pairs out of order, each with the weight of the compiler that is fed. */
  function Weight(f: Files, c: Name -> nat, quc: seq<Name>): nat {
    if quc == [] then 0 else Behind(f, c, quc[0], quc[1..]) + Weight(f, c, quc[1..])
  }

  /** The pairs out of order. */
  function OutOfOrder(f: Files, quc: seq<Name>): nat { Weight(f, _ => 1, quc) }

  lemma {:induction false} BehindAppend(f: Files, c: Name -> nat, x: Name, a: seq<Name>, b: seq<Name>)
    ensures Behind(f, c, x, a + b) == Behind(f, c, x, a) + Behind(f, c, x, b)
  {
    hide Feeds;
    if a == [] {
      assert a + b == b;
    } else {
      assert (a + b)[1..] == a[1..] + b;
      BehindAppend(f, c, x, a[1..], b);
    }
  }

  /** Moving `x` in front of `seg`, with `post` behind. */
  lemma {:induction false} ShiftOne(f: Files, c: Name -> nat, seg: seq<Name>, x: Name, post: seq<Name>)
    ensures Weight(f, c, seg + ([x] + post)) + Behind(f, c, x, seg) == Weight(f, c, [x] + (seg + post)) + InFront(f, c, seg, x)
  {
    assert ([x] + (seg + post))[1..] == seg + post;
    BehindAppend(f, c, x, seg, post);
    hide Feeds;
    if seg == [] {
      assert seg + ([x] + post) == [x] + post && seg + post == post;
    } else {
      var y, s := seg[0], seg[1..];
      assert (seg + ([x] + post))[1..] == s + ([x] + post) && (seg + post)[1..] == s + post;
      assert ([x] + (s + post))[1..] == s + post && [x][1..] == [];
      ShiftOne(f, c, s, x, post);
      BehindAppend(f, c, y, s, [x] + post);
      BehindAppend(f, c, y, [x], post);
      BehindAppend(f, c, y, s, post);
      BehindAppend(f, c, x, s, post);
    }
  }

  lemma {:induction false} Shift(f: Files, c: Name -> nat, pre: seq<Name>, seg: seq<Name>, x: Name, post: seq<Name>)
    ensures Weight(f, c, pre + (seg + ([x] + post))) + Behind(f, c, x, seg) ==
            Weight(f, c, pre + ([x] + (seg + post))) + InFront(f, c, seg, x)
  {
    var a, b := seg + ([x] + post), [x] + (seg + post);
    hide Feeds;
    if pre == [] {
      assert pre + a == a && pre + b == b;
      ShiftOne(f, c, seg, x, post);
    } else {
      var y := pre[0];
      assert (pre + a)[1..] == pre[1..] + a && (pre + b)[1..] == pre[1..] + b;
      Shift(f, c, pre[1..], seg, x, post);
      BehindAppend(f, c, y, pre[1..], a);
      BehindAppend(f, c, y, pre[1..], b);
      BehindAppend(f, c, y, seg, [x] + post);
      BehindAppend(f, c, y, [x], post);
      BehindAppend(f, c, y, [x], seg + post);
      BehindAppend(f, c, y, seg, post);
    }
  }

  /** What one jump takes off, and what it puts on. */
  lemma {:induction false} JumpWeighs(f: Files, c: Name -> nat, quc: seq<Name>, from: nat, to: nat)
    requires to <= from < |quc|
    ensures Weight(f, c, quc) + Behind(f, c, quc[from], quc[to..from]) ==
            Weight(f, c, Moved(quc, from, to)) + InFront(f, c, quc[to..from], quc[from])
  {
    var pre, seg, x, post := quc[..to], quc[to..from], quc[from], quc[from + 1..];
    assert quc == pre + (seg + ([x] + post)) && Moved(quc, from, to) == pre + ([x] + (seg + post));
    Shift(f, c, pre, seg, x, post);
  }

  /** The loop may jump from `from` to `to`. */
  ghost predicate Jump(f: Files, quc: seq<Name>, from: nat, to: nat) {
    to < from < |quc| && Chained(f, quc[..from]) && Feeds(f, quc[from], quc[to])
  }

  /** Whatever the order of these compilers is, a jump makes the list lighter. */
  ghost predicate Lighter(f: Files, w: seq<Name> -> nat, quc: seq<Name>) {
    forall q, from, to | multiset(q) == multiset(quc) && Jump(f, q, from, to) :: w(Moved(q, from, to)) < w(q)
  }

  /** Then the loop takes no more jumps than the list weighs. */
  lemma {:induction false} EndsBefore(f: Files, w: seq<Name> -> nat, quc: seq<Name>, compOut: nat, jumps: nat, limit: nat)
    requires Lighter(f, w, quc) && compOut <= |quc| && Chained(f, quc[..compOut])
    requires jumps + w(quc) <= limit
    ensures var o := Ordered(f, quc, compOut, jumps, limit); !o.bounded && o.jumps <= jumps + w(quc)
    decreases limit + 1 - jumps, |quc| - compOut
  {
    if compOut < |quc| {
      var r := FirstReader(f, quc, compOut, Of(f.outputs, quc[compOut]));
      if r >= 0 {
        var m := Moved(quc, compOut, r);
        assert Jump(f, quc, compOut, r);
        MovedPermutes(quc, compOut, r);
        assert m[..r] == quc[..compOut][..r];
        assert Lighter(f, w, m);
        EndsBefore(f, w, m, r, jumps + 1, limit);
      } else {
        OneFurther(f, quc, compOut);
        EndsBefore(f, w, quc, compOut + 1, jumps, limit);
      }
    }
  }

  // ----- chains that feed on through others -------------------------------------------------------

  /** What feeds a compiler that feeds another feeds that one as well, and none feeds itself. */
  ghost predicate Transitive(f: Files, quc: seq<Name>) {
    && (forall x, y, z | x in quc && y in quc && z in quc && Feeds(f, x, y) && Feeds(f, y, z) :: Feeds(f, x, z))
    && (forall x | x in quc :: !Feeds(f, x, x))
  }

  lemma {:induction false} NothingBehind(f: Files, c: Name -> nat, x: Name, seg: seq<Name>)
    requires forall y | y in seg :: !Feeds(f, y, x)
    ensures Behind(f, c, x, seg) == 0
  {
    hide Feeds;
    if seg != [] {
      NothingBehind(f, c, x, seg[1..]);
    }
  }

  lemma {:induction false} TransitiveIsLighter(f: Files, quc: seq<Name>)
    requires Transitive(f, quc)
    ensures Lighter(f, q => OutOfOrder(f, q), quc)
  {
    forall q, from, to | multiset(q) == multiset(quc) && Jump(f, q, from, to)
      ensures OutOfOrder(f, Moved(q, from, to)) < OutOfOrder(f, q)
    {
      TransitiveJump(f, quc, q, from, to);
    }
  }

  lemma {:induction false} Unfed(f: Files, p: seq<Name>, i: nat, j: nat)
    requires Chained(f, p) && i < j < |p|
    ensures !Feeds(f, p[j], p[i])
  {
  }

  lemma {:induction false} FeedsOn(f: Files, quc: seq<Name>, x: Name, y: Name, z: Name)
    requires Transitive(f, quc) && x in quc && y in quc && z in quc
    ensures Feeds(f, x, y) && Feeds(f, y, z) ==> Feeds(f, x, z)
    ensures !Feeds(f, x, x)
  {
  }

  /** Nothing between the two places of a jump feeds the compiler that jumps. */
  lemma {:induction false} JumpsUnfed(f: Files, quc: seq<Name>, q: seq<Name>, from: nat, to: nat, k: nat)
    requires Transitive(f, quc) && multiset(q) == multiset(quc) && Jump(f, q, from, to) && to <= k < from
    ensures !Feeds(f, q[k], q[from])
  {
    assert q[k] in multiset(q) && q[from] in multiset(q) && q[to] in multiset(q);
    hide Feeds, Transitive, Chained;
    FeedsOn(f, quc, q[k], q[from], q[to]);
    if k > to {
      Unfed(f, q[..from], to, k);
    }
  }

  lemma {:induction false} TransitiveJump(f: Files, quc: seq<Name>, q: seq<Name>, from: nat, to: nat)
    requires Transitive(f, quc) && multiset(q) == multiset(quc) && Jump(f, q, from, to)
    ensures OutOfOrder(f, Moved(q, from, to)) < OutOfOrder(f, q)
  {
    var x, seg := q[from], q[to..from];
    hide Feeds, Transitive;
    forall y | y in seg ensures !Feeds(f, y, x) {
      var k :| 0 <= k < |seg| && seg[k] == y;
      JumpsUnfed(f, quc, q, from, to, to + k);
    }
    NothingBehind(f, _ => 1, x, seg);
    JumpWeighs(f, _ => 1, q, from, to);
    assert seg[0] == q[to] && InFront(f, _ => 1, seg, x) >= 1;
  }

  /** If the compilers feed on through others, the loop takes no more jumps than pairs stand out of order; and with one
      more of them than the bound the list still comes out in order. */
  lemma {:induction false} TransitiveIsOrdered(f: Files, quc: seq<Name>, limit: nat)
    requires Transitive(f, quc) && OutOfOrder(f, quc) <= limit + 1
    ensures Chained(f, Ordered(f, quc, 0, 0, limit).list)
    ensures var o := Ordered(f, quc, 0, 0, limit);
            OutOfOrder(f, quc) <= limit ==> !o.bounded && o.jumps <= OutOfOrder(f, quc)
  {
    TransitiveIsLighter(f, quc);
    var w := q => OutOfOrder(f, q);
    EndsBefore(f, w, quc, 0, 0, limit + 1);
    if OutOfOrder(f, quc) <= limit {
      EndsBefore(f, w, quc, 0, 0, limit);
    }
    ChainedExactly(f, quc, limit);
  }

  // ----- which chains can be ordered at all ---------------------------------------------------------

  /** Some order of these compilers is chained. */
  ghost predicate Orderable(f: Files, quc: seq<Name>) { exists p :: multiset(p) == multiset(quc) && Chained(f, p) }

  /** The first place of `x`. */
  function Place(p: seq<Name>, x: Name): (k: nat)
    ensures k <= |p| && (x in p <==> k < |p|)
    ensures (k < |p| ==> p[k] == x) && forall i | 0 <= i < k :: p[i] != x
  {
    if p == [] || p[0] == x then 0 else 1 + Place(p[1..], x)
  }

  function Power(b: nat, n: nat): (r: nat)
    requires b > 0
    ensures r > 0
  {
    if n == 0 then 1 else b * Power(b, n - 1)
  }

  lemma {:induction false} MorePower(b: nat, n: nat, m: nat)
    requires b > 0 && n < m
    ensures b * Power(b, n) <= Power(b, m)
    decreases m
  {
    if n + 1 < m {
      MorePower(b, n, m - 1);
      assert Power(b, m) == b * Power(b, m - 1);
      assert b * Power(b, m - 1) >= 1 * Power(b, m - 1) by { Times(1, b, Power(b, m - 1)); }
    }
  }

  lemma {:induction false} Times(a: nat, b: nat, k: nat)
    requires a <= b
    ensures a * k <= b * k
  {
  }

  /** A weight that outweighs, for each compiler that is fed, all pairs in which the compiler that feeds it is fed. */
  function Heavy(p: seq<Name>, n: nat): Name -> nat { x => Power(n + 1, Place(p, x)) }

  lemma {:induction false} BehindAtMost(f: Files, c: Name -> nat, x: Name, seg: seq<Name>)
    ensures Behind(f, c, x, seg) <= |seg| * c(x)
  {
    hide Feeds;
    if seg != [] {
      BehindAtMost(f, c, x, seg[1..]);
      assert |seg| * c(x) == c(x) + |seg[1..]| * c(x);
    }
  }

  /** In a chained order what feeds another stands in front of it. */
  lemma {:induction false} FeedsForward(f: Files, p: seq<Name>, x: Name, y: Name)
    requires Chained(f, p) && x in p && y in p && x != y && Feeds(f, x, y)
    ensures Place(p, x) < Place(p, y)
  {
    hide Chained, Feeds;
    if Place(p, y) < Place(p, x) {
      Unfed(f, p, Place(p, y), Place(p, x));
    }
  }

  lemma {:induction false} OrderableJump(f: Files, quc: seq<Name>, p: seq<Name>, q: seq<Name>, from: nat, to: nat)
    requires Chained(f, p) && multiset(p) == multiset(quc) && multiset(q) == multiset(quc) && Jump(f, q, from, to)
    ensures Weight(f, Heavy(p, |quc|), Moved(q, from, to)) < Weight(f, Heavy(p, |quc|), q)
  {
    var n, x, y, seg := |quc|, q[from], q[to], q[to..from];
    assert Feeds(f, x, y) && x in multiset(q) && y in multiset(q) && seg != [] && seg[0] == y;
    hide *;
    NotTwice(f, p, q, to, from);
    FeedsForward(f, p, x, y);
    SameLength(q, quc);
    HeavyFeeds(p, n, x, y, |seg|);
    BehindAtMost(f, Heavy(p, n), x, seg);
    JumpWeighs(f, Heavy(p, n), q, from, to);
    FirstInFront(f, Heavy(p, n), seg, x);
  }

  lemma {:induction false} FirstInFront(f: Files, c: Name -> nat, seg: seq<Name>, x: Name)
    requires seg != [] && Feeds(f, x, seg[0])
    ensures InFront(f, c, seg, x) >= c(seg[0])
  {
  }

  lemma {:induction false} HeavyFeeds(p: seq<Name>, n: nat, x: Name, y: Name, k: nat)
    requires k <= n && Place(p, x) < Place(p, y)
    ensures k * Heavy(p, n)(x) < Heavy(p, n)(y)
  {
    hide Power, Place;
    MorePower(n + 1, Place(p, x), Place(p, y));
    Outweighs(k, n, Power(n + 1, Place(p, x)), Power(n + 1, Place(p, y)));
  }

  lemma {:induction false} Outweighs(k: nat, n: nat, a: nat, b: nat)
    requires k <= n && a > 0 && (n + 1) * a <= b
    ensures k * a < b
  {
    Times(k, n, a);
    assert (n + 1) * a == n * a + a;
  }

  lemma {:induction false} SameLength(q: seq<Name>, quc: seq<Name>)
    requires multiset(q) == multiset(quc)
    ensures |q| == |quc|
  {
    assert |q| == |multiset(q)| == |multiset(quc)| == |quc|;
  }

  lemma {:induction false} CountTwo(q: seq<Name>, i: nat, j: nat)
    requires i < j < |q| && q[i] == q[j]
    ensures multiset(q)[q[i]] >= 2
  {
    assert q == q[..i] + [q[i]] + q[i + 1..j] + [q[j]] + q[j + 1..];
  }

  lemma {:induction false} TwoPlaces(p: seq<Name>, x: Name) returns (i: nat, j: nat)
    requires multiset(p)[x] >= 2
    ensures i < j < |p| && p[i] == x && p[j] == x
  {
    assert x in multiset(p);
    i := Place(p, x);
    var rest := p[i + 1..];
    assert p == p[..i] + [x] + rest && x !in p[..i];
    assert x in multiset(rest);
    j := i + 1 + Place(rest, x);
  }

  /** A compiler that feeds itself is not listed twice, if there is an order. */
  lemma {:induction false} NotTwice(f: Files, p: seq<Name>, q: seq<Name>, i: nat, j: nat)
    requires Chained(f, p) && multiset(p) == multiset(q) && i < j < |q| && Feeds(f, q[j], q[i])
    ensures q[i] != q[j]
  {
    hide Chained, Feeds;
    if q[j] == q[i] {
      CountTwo(q, i, j);
      var a, b := TwoPlaces(p, q[i]);
      Unfed(f, p, a, b);
    }
  }

  /** Without the bound the loop ends, with a chained list, if and only if there is a chained order at all; a bound is
      hit if and only if it is lower than the jumps the loop then takes. */
  lemma {:induction false} EndsIfOrderable(f: Files, quc: seq<Name>)
    ensures Orderable(f, quc) <==> exists limit: nat :: !Ordered(f, quc, 0, 0, limit).bounded
    ensures forall a: nat, b: nat :: !Ordered(f, quc, 0, 0, a).bounded ==>
              (Ordered(f, quc, 0, 0, b).bounded <==> b < Ordered(f, quc, 0, 0, a).jumps)
              && (!Ordered(f, quc, 0, 0, b).bounded ==> Ordered(f, quc, 0, 0, b) == Ordered(f, quc, 0, 0, a))
  {
    if Orderable(f, quc) {
      var p :| multiset(p) == multiset(quc) && Chained(f, p);
      var c := Heavy(p, |quc|);
      forall q, from, to | multiset(q) == multiset(quc) && Jump(f, q, from, to)
        ensures Weight(f, c, Moved(q, from, to)) < Weight(f, c, q)
      {
        OrderableJump(f, quc, p, q, from, to);
      }
      EndsBefore(f, q => Weight(f, c, q), quc, 0, 0, Weight(f, c, quc));
    }
    hide Chained;
    if limit: nat :| !Ordered(f, quc, 0, 0, limit).bounded {
      OrderIsSound(f, quc, limit);
      assert Orderable(f, quc);
    }
    forall a: nat, b: nat | !Ordered(f, quc, 0, 0, a).bounded
      ensures (Ordered(f, quc, 0, 0, b).bounded <==> b < Ordered(f, quc, 0, 0, a).jumps)
      ensures !Ordered(f, quc, 0, 0, b).bounded ==> Ordered(f, quc, 0, 0, b) == Ordered(f, quc, 0, 0, a)
    {
      OneOutcome(f, quc, 0, 0, a, b);
    }
  }

  // ----- chains in which each compiler feeds one other ----------------------------------------------

  /** Each feeds the next of them. */
  ghost predicate Path(f: Files, names: set<Name>, w: seq<Name>) {
    && |w| >= 2 && (forall i | 0 <= i < |w| :: w[i] in names)
    && forall i | 0 <= i < |w| - 1 :: Feeds(f, w[i], w[i + 1]) && w[i] != w[i + 1]
  }

  /** `x` feeds `y`, directly or through others. */
  ghost predicate Leads(f: Files, names: set<Name>, x: Name, y: Name) {
    exists w :: Path(f, names, w) && w[0] == x && w[|w| - 1] == y
  }

  ghost predicate OneReader(f: Files, names: set<Name>) {
    forall x, y, z | x in names && y in names && z in names && x != y && x != z && Feeds(f, x, y) && Feeds(f, x, z) :: y == z
  }

  /** No compiler feeds itself through others, and none feeds two. */
  ghost predicate Forest(f: Files, names: set<Name>) {
    OneReader(f, names) && forall x :: !Leads(f, names, x, x)
  }

  /** The compilers among `before` that `x` feeds, each with all it feeds in turn there as one: the first of them. */
  ghost function Runs(f: Files, names: set<Name>, x: Name, before: set<Name>): set<Name> {
    set a | a in before && Leads(f, names, x, a) && !Follows(f, names, x, before, a)
  }

  ghost predicate Follows(f: Files, names: set<Name>, x: Name, before: set<Name>, a: Name) {
    exists b :: b in before && b != a && Leads(f, names, x, b) && Feeds(f, b, a)
  }

  /** These runs for each of the compilers in `rest`, with all compilers in front of it. */
  ghost function RunsInFront(f: Files, names: set<Name>, before: set<Name>, rest: seq<Name>): nat
    decreases rest
  {
    if rest == [] then 0
    else |Runs(f, names, rest[0], before)| + RunsInFront(f, names, before + {rest[0]}, rest[1..])
  }

  /** How many runs of compilers stand in front of one that feeds them. */
  ghost function RunsOutOfOrder(f: Files, quc: seq<Name>): nat { RunsInFront(f, SetOf(quc), {}, quc) }

  lemma {:induction false} LeadsTo(f: Files, names: set<Name>, x: Name, y: Name, z: Name)
    requires y in names && z in names && y != z && Feeds(f, y, z)
    ensures Leads(f, names, x, y) ==> Leads(f, names, x, z)
    ensures Leads(f, names, z, y) ==> Leads(f, names, z, z)
    ensures Leads(f, names, y, z)
  {
    hide Feeds;
    assert Path(f, names, [y, z]) && [y, z][0] == y && [y, z][1] == z;
    forall u, w | Path(f, names, w) && w[0] == u && w[|w| - 1] == y ensures Leads(f, names, u, z) {
      var v := w + [z];
      assert Path(f, names, v) && v[0] == u && v[|v| - 1] == z;
    }
  }

  /** From one compiler there is one way. */
  lemma {:induction false} SameWay(f: Files, names: set<Name>, v: seq<Name>, w: seq<Name>, i: nat)
    requires OneReader(f, names) && Path(f, names, v) && Path(f, names, w) && v[0] == w[0] && i < |v| && i < |w|
    ensures v[i] == w[i]
  {
    hide Feeds;
    if i > 0 {
      SameWay(f, names, v, w, i - 1);
      assert Feeds(f, v[i - 1], v[i]) && Feeds(f, w[i - 1], w[i]);
    }
  }

  /** Two compilers that one feeds through others are on one way. */
  lemma {:induction false} OneWay(f: Files, names: set<Name>, x: Name, a: Name, b: Name)
    requires OneReader(f, names) && Leads(f, names, x, a) && Leads(f, names, x, b) && a != b
    ensures Leads(f, names, a, b) || Leads(f, names, b, a)
  {
    var v :| Path(f, names, v) && v[0] == x && v[|v| - 1] == a;
    var w :| Path(f, names, w) && w[0] == x && w[|w| - 1] == b;
    hide Feeds, OneReader;
    if |v| <= |w| {
      SameWay(f, names, v, w, |v| - 1);
      var u := w[|v| - 1..];
      assert Path(f, names, u) && u[0] == a && u[|u| - 1] == b;
    } else {
      SameWay(f, names, v, w, |w| - 1);
      var u := v[|w| - 1..];
      assert Path(f, names, u) && u[0] == b && u[|u| - 1] == a;
    }
  }

  /** What feeds the same compiler is not on one way. */
  lemma {:induction false} FedOnce(f: Files, names: set<Name>, x: Name, a: Name, b: Name, c: Name)
    requires Forest(f, names) && a in names && b in names && c in names && a != c && b != c && a != b
    requires Feeds(f, a, c) && Feeds(f, b, c) && Leads(f, names, x, a)
    ensures !Leads(f, names, x, b)
  {
    hide Feeds;
    if Leads(f, names, x, b) {
      OneWay(f, names, x, a, b);
      if Leads(f, names, a, b) {
        Returns(f, names, a, b, c);
      } else {
        Returns(f, names, b, a, c);
      }
    }
  }

  lemma {:induction false} Returns(f: Files, names: set<Name>, a: Name, b: Name, c: Name)
    requires OneReader(f, names) && Leads(f, names, a, b) && b in names && c in names && a != c && b != c
    requires Feeds(f, a, c) && Feeds(f, b, c)
    ensures Leads(f, names, c, c)
  {
    var w :| Path(f, names, w) && w[0] == a && w[|w| - 1] == b;
    assert w[1] == c;
    hide Feeds, OneReader;
    var u := w[1..];
    assert Path(f, names, u) && u[0] == c && u[|u| - 1] == b;
    LeadsTo(f, names, c, b, c);
  }

  lemma {:induction false} RunsAppend(f: Files, names: set<Name>, before: set<Name>, a: seq<Name>, b: seq<Name>)
    ensures RunsInFront(f, names, before, a + b) ==
            RunsInFront(f, names, before, a) + RunsInFront(f, names, before + SetOf(a), b)
    decreases a
  {
    hide Runs;
    if a == [] {
      assert a + b == b && before + SetOf(a) == before;
    } else {
      assert (a + b)[1..] == a[1..] + b && before + {a[0]} + SetOf(a[1..]) == before + SetOf(a);
      RunsAppend(f, names, before + {a[0]}, a[1..], b);
    }
  }

  /** A compiler that is put in front of the one it feeds joins its run, or stands for it. */
  lemma {:induction false} RunsJoin(f: Files, names: set<Name>, z: Name, before: set<Name>, x: Name, c: Name)
    requires Forest(f, names) && x in names && c in names && before <= names && x !in before
    requires x != c && Feeds(f, x, c) && (c in before || z == c)
    ensures |Runs(f, names, z, before + {x})| <= |Runs(f, names, z, before)|
  {
    var r, s := Runs(f, names, z, before), Runs(f, names, z, before + {x});
    LeadsTo(f, names, z, x, c);
    hide Feeds;
    forall a | a in s && a != x ensures a in r {
      assert !Follows(f, names, z, before, a);
    }
    if Leads(f, names, z, x) {
      assert z != c && c in before;
      forall b | b in before && b != c && Feeds(f, b, c) ensures !Leads(f, names, z, b) {
        FedOnce(f, names, z, x, b, c);
      }
      assert c in r;
      assert Follows(f, names, z, before + {x}, c);
      CardinalityAtMost(s, r - {c} + {x});
    } else {
      CardinalityAtMost(s, r);
    }
  }

  lemma {:induction false} CardinalityAtMost(a: set<Name>, b: set<Name>)
    requires a <= b
    ensures |a| <= |b|
  {
    if a != {} {
      var x :| x in a;
      CardinalityAtMost(a - {x}, b - {x});
    }
  }

  /** The same for all that stand between. */
  lemma {:induction false} RunsBetween(f: Files, names: set<Name>, before: set<Name>, seg: seq<Name>, x: Name, c: Name)
    requires Forest(f, names) && x in names && c in names && before <= names && x !in before && SetOf(seg) <= names
    requires x != c && Feeds(f, x, c) && x !in seg && seg != [] && (c in before || seg[0] == c)
    ensures RunsInFront(f, names, before + {x}, seg) <= RunsInFront(f, names, before, seg)
    decreases seg
  {
    hide Feeds, Forest;
    RunsJoin(f, names, seg[0], before, x, c);
    assert before + {x} + {seg[0]} == before + {seg[0]} + {x} && seg[0] in SetOf(seg);
    hide Runs;
    if |seg| > 1 {
      assert SetOf(seg[1..]) <= SetOf(seg);
      RunsBetween(f, names, before + {seg[0]}, seg[1..], x, c);
    }
  }

  /** The compiler that jumps leaves the run of the one it feeds behind. */
  lemma {:induction false} RunLeft(f: Files, names: set<Name>, pre: seq<Name>, seg: seq<Name>, x: Name)
    requires Forest(f, names) && x in names && SetOf(pre) + SetOf(seg) <= names && Chained(f, pre + seg) && NoDup(pre + seg)
    requires seg != [] && x != seg[0] && Feeds(f, x, seg[0])
    ensures |Runs(f, names, x, SetOf(pre))| < |Runs(f, names, x, SetOf(pre) + SetOf(seg))|
  {
    var c := seg[0];
    var r, s := Runs(f, names, x, SetOf(pre)), Runs(f, names, x, SetOf(pre) + SetOf(seg));
    LeadsTo(f, names, x, x, c);
    hide Feeds;
    assert c in SetOf(seg) && c == (pre + seg)[|pre|];
    forall i | 0 <= i < |pre| ensures pre[i] != c {
      assert (pre + seg)[i] == pre[i];
    }
    assert c in s by {
      forall b | b in names && b != c && Feeds(f, b, c) ensures !Leads(f, names, x, b) {
        NotBack(f, names, x, b, c);
      }
    }
    forall a | a in r ensures a in s {
      forall b | b in SetOf(seg) && b != a ensures !Feeds(f, b, a) {
        var i :| 0 <= i < |pre| && pre[i] == a;
        var j :| 0 <= j < |seg| && seg[j] == b;
        assert (pre + seg)[i] == a && (pre + seg)[|pre| + j] == b;
      }
    }
    assert r <= s - {c};
    CardinalityAtMost(r, s - {c});
  }

  /** What `x` feeds through others does not feed what `x` feeds. */
  lemma {:induction false} NotBack(f: Files, names: set<Name>, x: Name, b: Name, c: Name)
    requires Forest(f, names) && x in names && b in names && c in names && x != c && b != c && Feeds(f, x, c) && Feeds(f, b, c)
    ensures !Leads(f, names, x, b)
  {
    hide Feeds;
    if Leads(f, names, x, b) {
      Returns(f, names, x, b, c);
    }
  }

  lemma {:induction false} SameNames(q: seq<Name>, quc: seq<Name>)
    requires multiset(q) == multiset(quc)
    ensures SetOf(q) == SetOf(quc) && (NoDup(quc) ==> NoDup(q))
  {
    forall x ensures x in q <==> x in quc {
      assert x in multiset(q) <==> x in multiset(quc);
    }
    forall i, j | 0 <= i < j < |q| && q[i] == q[j] ensures !NoDup(quc) {
      CountTwo(q, i, j);
      var a, b := TwoPlaces(quc, q[i]);
    }
  }

  lemma {:induction false} ForestJump(f: Files, quc: seq<Name>, q: seq<Name>, from: nat, to: nat)
    requires Forest(f, SetOf(quc)) && NoDup(quc) && multiset(q) == multiset(quc) && Jump(f, q, from, to)
    ensures RunsOutOfOrder(f, Moved(q, from, to)) < RunsOutOfOrder(f, q)
  {
    var names, m := SetOf(q), Moved(q, from, to);
    SameNames(q, quc);
    MovedPermutes(q, from, to);
    SameNames(m, quc);
    var pre, seg, x, post := q[..to], q[to..from], q[from], q[from + 1..];
    Between(q, to, from);
    assert Feeds(f, x, seg[0]) && Chained(f, pre + seg);
    hide *;
    RunsParts(f, names, pre, seg, x, post);
    RunLeft(f, names, pre, seg, x);
    RunsBetween(f, names, SetOf(pre), seg, x, seg[0]);
    RunsAre(f, q, pre + (seg + ([x] + post)));
    RunsAre(f, m, pre + ([x] + (seg + post)));
  }

  lemma {:induction false} RunsAre(f: Files, q: seq<Name>, r: seq<Name>)
    requires q == r
    ensures RunsOutOfOrder(f, q) == RunsInFront(f, SetOf(q), {}, r)
  {
  }

  /** The parts of a list without repetition. */
  lemma {:induction false} Between(q: seq<Name>, to: nat, from: nat)
    requires NoDup(q) && to < from < |q|
    ensures var pre, seg, x, post := q[..to], q[to..from], q[from], q[from + 1..];
            && q == pre + (seg + ([x] + post)) && Moved(q, from, to) == pre + ([x] + (seg + post))
            && pre + seg == q[..from] && NoDup(pre + seg) && x !in pre && x !in seg && x != seg[0]
            && SetOf(pre) + SetOf(seg) <= SetOf(q) && x in SetOf(q) && seg[0] in SetOf(q) && x !in SetOf(pre)
  {
  }

  lemma {:induction false} RunsParts(f: Files, names: set<Name>, pre: seq<Name>, seg: seq<Name>, x: Name, post: seq<Name>)
    ensures RunsInFront(f, names, {}, pre + (seg + ([x] + post))) ==
            RunsInFront(f, names, {}, pre) + RunsInFront(f, names, SetOf(pre), seg) +
            |Runs(f, names, x, SetOf(pre) + SetOf(seg))| + RunsInFront(f, names, SetOf(pre) + SetOf(seg) + {x}, post)
    ensures RunsInFront(f, names, {}, pre + ([x] + (seg + post))) ==
            RunsInFront(f, names, {}, pre) + |Runs(f, names, x, SetOf(pre))| +
            RunsInFront(f, names, SetOf(pre) + {x}, seg) + RunsInFront(f, names, SetOf(pre) + SetOf(seg) + {x}, post)
  {
    hide Runs;
    var p, s := SetOf(pre), SetOf(seg);
    assert {} + p == p && p + {x} + s == p + s + {x};
    RunsAppend(f, names, {}, pre, seg + ([x] + post));
    RunsAppend(f, names, p, seg, [x] + post);
    RunsAppend(f, names, {}, pre, [x] + (seg + post));
    RunsAppend(f, names, p + {x}, seg, post);
    assert ([x] + post)[1..] == post && ([x] + (seg + post))[1..] == seg + post;
  }

  /** If each compiler feeds one other at most, the loop takes no more jumps than runs stand out of order; and with one
      more of them than the bound the list still comes out in order. */
  lemma {:induction false} ForestIsOrdered(f: Files, quc: seq<Name>, limit: nat)
    requires Forest(f, SetOf(quc)) && NoDup(quc) && RunsOutOfOrder(f, quc) <= limit + 1
    ensures Chained(f, Ordered(f, quc, 0, 0, limit).list)
    ensures var o := Ordered(f, quc, 0, 0, limit);
            RunsOutOfOrder(f, quc) <= limit ==> !o.bounded && o.jumps <= RunsOutOfOrder(f, quc)
  {
    forall q, from, to | multiset(q) == multiset(quc) && Jump(f, q, from, to)
      ensures RunsOutOfOrder(f, Moved(q, from, to)) < RunsOutOfOrder(f, q)
    {
      ForestJump(f, quc, q, from, to);
    }
    hide Forest, RunsOutOfOrder;
    var w := q => RunsOutOfOrder(f, q);
    EndsBefore(f, w, quc, 0, 0, limit + 1);
    if RunsOutOfOrder(f, quc) <= limit {
      EndsBefore(f, w, quc, 0, 0, limit);
    }
    ChainedExactly(f, quc, limit);
  }

  // ----- an unlucky order ---------------------------------------------------------------------

  const C0: Name := [0]
  const C1: Name := [1]
  const C2: Name := [2]
  const C3: Name := [3]

  /** Each of four compilers reads one file from every compiler with a lower number. The file [a, b] goes from a to
      b. */
  function FourCompilers(): Files {
    Files(map[C0 := [[0, 3], [0, 2], [0, 1]], C1 := [[1, 3], [1, 2]], C2 := [[2, 3]]],
          map[C1 := [[0, 1]], C2 := [[0, 2], [1, 2]], C3 := [[0, 3], [1, 3], [2, 3]]])
  }

  /** The loop gets from one list and place to another. */
  predicate Goes(quc: seq<Name>, compOut: nat, jumps: nat, quc1: seq<Name>, compOut1: nat, jumps1: nat)
    requires jumps <= 5 && jumps1 <= 5
  {
    Ordered(FourCompilers(), quc, compOut, jumps, 4) == Ordered(FourCompilers(), quc1, compOut1, jumps1, 4)
  }

  lemma {:induction false} Round1() ensures Goes([C3, C2, C1, C0], 0, 0, [C3, C2, C1, C0], 1, 0) {}

  lemma {:induction false} Round2()
    ensures Goes([C3, C2, C1, C0], 1, 0, [C2, C3, C1, C0], 0, 1)
  {
    assert Moved([C3, C2, C1, C0], 1, 0) == [C2, C3, C1, C0];
  }

  lemma {:induction false} Round3() ensures Goes([C2, C3, C1, C0], 0, 1, [C2, C3, C1, C0], 1, 1) {}

  lemma {:induction false} Round4() ensures Goes([C2, C3, C1, C0], 1, 1, [C2, C3, C1, C0], 2, 1) {}

  lemma {:induction false} Round5()
    ensures Goes([C2, C3, C1, C0], 2, 1, [C2, C1, C3, C0], 1, 2)
  {
    assert Moved([C2, C3, C1, C0], 2, 1) == [C2, C1, C3, C0];
  }

  lemma {:induction false} Round6()
    ensures Goes([C2, C1, C3, C0], 1, 2, [C1, C2, C3, C0], 0, 3)
  {
    assert Moved([C2, C1, C3, C0], 1, 0) == [C1, C2, C3, C0];
  }

  lemma {:induction false} Round7() ensures Goes([C1, C2, C3, C0], 0, 3, [C1, C2, C3, C0], 1, 3) {}

  lemma {:induction false} Round8() ensures Goes([C1, C2, C3, C0], 1, 3, [C1, C2, C3, C0], 2, 3) {}

  lemma {:induction false} Round9() ensures Goes([C1, C2, C3, C0], 2, 3, [C1, C2, C3, C0], 3, 3) {}

  lemma {:induction false} Round10()
    ensures Goes([C1, C2, C3, C0], 3, 3, [C1, C2, C0, C3], 2, 4)
  {
    assert Moved([C1, C2, C3, C0], 3, 2) == [C1, C2, C0, C3];
  }

  lemma {:induction false} Round11()
    ensures Goes([C1, C2, C0, C3], 2, 4, [C1, C0, C2, C3], 1, 5)
  {
    assert Moved([C1, C2, C0, C3], 2, 1) == [C1, C0, C2, C3];
  }

  /** Without any cycle the bound can be hit all the same: four compilers that have an order end out of order. */
  lemma {:induction false} BoundCutsShort()
    ensures Chained(FourCompilers(), [C0, C1, C2, C3])
    ensures Ordered(FourCompilers(), [C3, C2, C1, C0], 0, 0, 4) == Outcome([C1, C0, C2, C3], 5, true)
    ensures !Chained(FourCompilers(), [C1, C0, C2, C3])
  {
    InOrder();
    NotInOrder();
    hide Chained, FirstReader, FourCompilers;
    Round1(); Round2(); Round3(); Round4(); Round5(); Round6();
    Round7(); Round8(); Round9(); Round10(); Round11();
  }

  lemma {:induction false} InOrder()
    ensures Chained(FourCompilers(), [C0, C1, C2, C3])
  {
  }

  lemma {:induction false} NotInOrder()
    ensures !Chained(FourCompilers(), [C1, C0, C2, C3])
  {
    var f, q := FourCompilers(), [C1, C0, C2, C3];
    assert Of(f.outputs, C0)[2] == [0, 1] && [0, 1] in Of(f.inputs, C1);
    assert Feeds(f, q[1], q[0]);
  }

  // ----- a pipeline ----------------------------------------------------------------------------

  /** The compilers of a pipeline of six. */
  function Numbered(ns: seq<u16>): seq<Name> { seq(|ns|, i requires 0 <= i < |ns| => [ns[i]]) }

  /** Each writes the one file that the next reads. */
  function Pipeline(): Files {
    var six := set i: u16 | 1 <= i <= 6 :: [i];
    Files(map x | x in six :: [x], map x | x in six :: [Predecessor(x)])
  }

  function Predecessor(x: Name): Name { if |x| == 1 && x[0] > 0 then [x[0] - 1] else [] }

  predicate OfSix(ns: seq<u16>) { forall i | 0 <= i < |ns| :: 1 <= ns[i] <= 6 }

  lemma {:induction false} PipelineFiles(i: u16)
    requires 1 <= i <= 6
    ensures Of(Pipeline().outputs, [i]) == [[i]] && Of(Pipeline().inputs, [i]) == [[(i - 1) as u16]]
  {
    var six := set i: u16 | 1 <= i <= 6 :: [i];
    assert [i] in six && Predecessor([i]) == [i - 1];
  }

  /** At `k` is the first compiler from `from` on that stands behind its reader, at `r`. */
  predicate NextJump(ns: seq<u16>, from: nat, k: nat, r: nat)
    requires OfSix(ns)
  {
    && from <= k < |ns| && r < k && ns[r] == ns[k] + 1 && (forall h | 0 <= h < r :: ns[h] != ns[k] + 1)
    && forall i, h | from <= i < k && 0 <= h < i :: ns[h] != ns[i] + 1
  }

  lemma {:induction false} PipelineReader(ns: seq<u16>, k: nat, from: nat, r: int)
    requires OfSix(ns) && from <= k < |ns| && from <= r <= k && (forall h | from <= h < r :: ns[h] != ns[k] + 1)
    requires r < k ==> ns[r] == ns[k] + 1
    ensures Reader(Pipeline(), Numbered(ns), k, [ns[k]], from) == if r < k then r else -1
    decreases k - from
  {
    if from < k {
      PipelineFiles(ns[from]);
      assert ns[from] - 1 == ns[k] <==> [(ns[from] - 1) as u16] == [ns[k]];
      hide Pipeline;
      if from < r {
        PipelineReader(ns, k, from + 1, r);
      }
    }
  }

  lemma {:induction false} PipelineFirst(ns: seq<u16>, k: nat, r: int)
    requires OfSix(ns) && k < |ns| && 0 <= r <= k && (forall h | 0 <= h < r :: ns[h] != ns[k] + 1)
    requires r < k ==> ns[r] == ns[k] + 1
    ensures var f := Pipeline();
            FirstReader(f, Numbered(ns), k, Of(f.outputs, Numbered(ns)[k])) == if r < k then r else -1
  {
    PipelineFiles(ns[k]);
    PipelineReader(ns, k, 0, r);
    hide Pipeline, Reader;
    assert [[ns[k]]][1..] == [];
  }

  lemma {:induction false} PipelineJump(ns: seq<u16>, from: nat, jumps: nat, k: nat, r: nat, ms: seq<u16>)
    requires OfSix(ns) && NextJump(ns, from, k, r) && jumps <= 6
    requires ms == ns[..r] + [ns[k]] + ns[r..k] + ns[k + 1..]
    ensures Steps(ns, from, jumps, ms, r, jumps + 1)
    decreases k - from
  {
    hide Pipeline, FirstReader, Of, Ordered;
    OrderedStep(Pipeline(), Numbered(ns), from, jumps, 6);
    if from < k {
      PipelineFirst(ns, from, from);
      PipelineJump(ns, from + 1, jumps, k, r, ms);
    } else {
      PipelineFirst(ns, k, r);
      assert Numbered(ms) == Moved(Numbered(ns), k, r);
    }
  }

  /** The loop gets from one list and place to another. */
  predicate Steps(ns: seq<u16>, from: nat, jumps: nat, ms: seq<u16>, to: nat, jumps1: nat) {
    jumps <= 7 && jumps1 <= 7 &&
    Ordered(Pipeline(), Numbered(ns), from, jumps, 6) == Ordered(Pipeline(), Numbered(ms), to, jumps1, 6)
  }

  lemma {:induction false} Jump1()
    ensures Steps([6, 4, 3, 2, 1, 5], 0, 0, [6, 3, 4, 2, 1, 5], 1, 1)
  {
    hide Steps;
    PipelineJump([6, 4, 3, 2, 1, 5], 0, 0, 2, 1, [6, 3, 4, 2, 1, 5]);
  }

  lemma {:induction false} Jump2()
    ensures Steps([6, 3, 4, 2, 1, 5], 1, 1, [6, 2, 3, 4, 1, 5], 1, 2)
  {
    hide Steps;
    PipelineJump([6, 3, 4, 2, 1, 5], 1, 1, 3, 1, [6, 2, 3, 4, 1, 5]);
  }

  lemma {:induction false} Jump3()
    ensures Steps([6, 2, 3, 4, 1, 5], 1, 2, [6, 1, 2, 3, 4, 5], 1, 3)
  {
    hide Steps;
    PipelineJump([6, 2, 3, 4, 1, 5], 1, 2, 4, 1, [6, 1, 2, 3, 4, 5]);
  }

  lemma {:induction false} Jump4()
    ensures Steps([6, 1, 2, 3, 4, 5], 1, 3, [5, 6, 1, 2, 3, 4], 0, 4)
  {
    hide Steps;
    PipelineJump([6, 1, 2, 3, 4, 5], 1, 3, 5, 0, [5, 6, 1, 2, 3, 4]);
  }

  lemma {:induction false} Jump5()
    ensures Steps([5, 6, 1, 2, 3, 4], 0, 4, [4, 5, 6, 1, 2, 3], 0, 5)
  {
    hide Steps;
    PipelineJump([5, 6, 1, 2, 3, 4], 0, 4, 5, 0, [4, 5, 6, 1, 2, 3]);
  }

  lemma {:induction false} Jump6()
    ensures Steps([4, 5, 6, 1, 2, 3], 0, 5, [3, 4, 5, 6, 1, 2], 0, 6)
  {
    hide Steps;
    PipelineJump([4, 5, 6, 1, 2, 3], 0, 5, 5, 0, [3, 4, 5, 6, 1, 2]);
  }

  lemma {:induction false} Jump7()
    ensures Steps([3, 4, 5, 6, 1, 2], 0, 6, [2, 3, 4, 5, 6, 1], 0, 7)
  {
    hide Steps;
    PipelineJump([3, 4, 5, 6, 1, 2], 0, 6, 5, 0, [2, 3, 4, 5, 6, 1]);
  }

  /** A pipeline of six, of which the last feeds none: with the bound that there is it ends out of order. */
  lemma {:induction false} PipelineCutShort()
    ensures Chained(Pipeline(), Numbered([1, 2, 3, 4, 5, 6]))
    ensures Ordered(Pipeline(), Numbered([6, 4, 3, 2, 1, 5]), 0, 0, 6) == Outcome(Numbered([2, 3, 4, 5, 6, 1]), 7, true)
    ensures !Chained(Pipeline(), Numbered([2, 3, 4, 5, 6, 1]))
  {
    PipelineOrder();
    PipelineDisorder();
    hide Pipeline, Chained;
    Jump1(); Jump2(); Jump3(); Jump4(); Jump5(); Jump6(); Jump7();
  }

  lemma {:induction false} PipelineFeeds(i: u16, j: u16)
    requires 1 <= i <= 6 && 1 <= j <= 6
    ensures Feeds(Pipeline(), [i], [j]) <==> j == i + 1
  {
    PipelineFiles(i);
    PipelineFiles(j);
    hide Pipeline;
    var a, b: seq<u16> := [i], [(j - 1) as u16];
    var outs, ins := Of(Pipeline().outputs, a), Of(Pipeline().inputs, [j]);
    assert a == b <==> i == j - 1;
    assert outs == [a] && ins == [b] && outs[0] in outs;
  }

  lemma {:induction false} PipelineOrder()
    ensures Chained(Pipeline(), Numbered([1, 2, 3, 4, 5, 6]))
  {
    var ns: seq<u16> := [1, 2, 3, 4, 5, 6];
    forall i, j | 0 <= i < j < 6 ensures !Feeds(Pipeline(), Numbered(ns)[j], Numbered(ns)[i]) {
      assert ns[i] == i + 1 && ns[j] == j + 1;
      PipelineFeeds(ns[j], ns[i]);
    }
  }

  lemma {:induction false} PipelineDisorder()
    ensures !Chained(Pipeline(), Numbered([2, 3, 4, 5, 6, 1]))
  {
    PipelineFeeds(1, 2);
    var q := Numbered([2, 3, 4, 5, 6, 1]);
    assert Feeds(Pipeline(), q[5], q[0]);
  }
}
