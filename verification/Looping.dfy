// What a loop goes over, and what its rounds do.
module Looping {
  import opened Tokens
  import opened ValueStack
  import opened Semantics
  import opened Numerals
  import opened Assigning
  import WordBuilding

  const DOT: u16 := 46

  /** There are two dots at `at`, and none before. */
  predicate FirstDots(s: Str, at: nat) {
    && at + 2 <= |s| && s[at] == DOT && s[at + 1] == DOT
    && forall i | 0 <= i < at :: !(s[i] == DOT && s[i + 1] == DOT)
  }

  /** The integers on both sides of the first two dots. */
  predicate Split(env: Env, s: Str, a: int, b: int) {
    exists at: nat | at + 2 <= |s| :: FirstDots(s, at) && env.toInt(s[..at]) == Some(a) && env.toInt(s[at + 2..]) == Some(b)
  }

  /** The strings count from `a` to `b`, upwards or downwards. */
  predicate Counts(l: seq<Str>, a: int, b: int) {
    if a <= b then |l| == b - a + 1 && forall k | 0 <= k < |l| :: SignedNumeral(l[k], a + k)
    else |l| == a - b + 1 && forall k | 0 <= k < |l| :: SignedNumeral(l[k], a - k)
  }

  /** What a loop goes over for the word `key`: the non-empty strings of the variable of that name; without such a variable
      the numbers up to the limit for "forever", those that the word names for two integers with dots in between, and else
      nothing. */
  ghost predicate Goes(env: Env, key: Str, bound: seq<Str>, values: seq<Str>) {
    if bound != [] then Selected(values, bound, NonEmpty(bound))
    else if key == FOREVER then |values| == MAX_ITERATIONS && forall k | 0 <= k < |values| :: Numeral(values[k], k)
    else
      && (forall a, b | Split(env, key, a, b) :: Counts(values, a, b))
      && ((forall a, b :: !Split(env, key, a, b)) ==> values == [])
  }

  /** A round in which the loop goes on. */
  predicate GoesOn(ret: Ret) { ret.Plain() || ret.RNext? }

  /** The state in which round `k` begins: the one the round before has left, with the variable set. */
  function Begins(st: State, outs: seq<Result>, k: nat, variable: Str, sets: bool, value: Str): State
    requires k <= |outs|
  {
    var s := if k == 0 then st else outs[k - 1].st;
    if sets then s.(stack := SetTop(s.stack, variable, Vals([value]))) else s
  }

  /** Round `k` runs the body. */
  predicate Round(env: Env, fuel: nat, body: seq<Item>, variable: Str, sets: bool, values: seq<Str>, st: State,
                  outs: seq<Result>, k: nat)
    requires k < |outs| <= |values|
  {
    outs[k] == Visit(env, fuel, body, Flags(true, false, false), Begins(st, outs, k, variable, sets, values[k]))
  }

  /** The rounds, one for each value, until one does not go on. */
  ghost predicate Rounds(env: Env, fuel: nat, body: seq<Item>, variable: Str, sets: bool, values: seq<Str>, st: State,
                         outs: seq<Result>) {
    && |outs| <= |values|
    && (forall k | 0 <= k < |outs| :: Round(env, fuel, body, variable, sets, values, st, outs, k))
    && (forall k | 0 <= k < |outs| - 1 :: GoesOn(outs[k].ret))
    && (|outs| < |values| ==> outs != [] && !GoesOn(outs[|outs| - 1].ret))
  }

  /** The loop ends like its last round, but a break and a next are true; without a round it is `ret`. */
  function Ends(st: State, outs: seq<Result>, ret: Ret): Result {
    if outs == [] then Result(ret, st)
    else
      var last := outs[|outs| - 1];
      Result(if last.ret.RBreak? || last.ret.RNext? then RTrue else last.ret, last.st)
  }

  /** The variable gets its old value back. */
  function Restored(r: Result, variable: Str, was: seq<Str>): Result {
    if variable == [] then r else r.(st := r.st.(stack := SetTop(r.st.stack, variable, Vals(was))))
  }

  // ----- numbers ------------------------------------------------------------------------------

  lemma {:induction false} DotsFound(s: Str)
    ensures var r := FindDots(s);
            if r >= 0 then FirstDots(s, r) else forall at: nat :: !FirstDots(s, at)
  {
    if |s| >= 2 && !(s[0] == DOT && s[1] == DOT) {
      DotsFound(s[1..]);
      var r := FindDots(s[1..]);
      if r < 0 {
        forall at: nat ensures !FirstDots(s, at) {
          if at > 0 {
            DotsInRest(s, at);
          }
        }
      } else {
        forall i | 0 <= i < r + 1 ensures !(s[i] == DOT && s[i + 1] == DOT) {
          if i > 0 {
            assert s[1..][i - 1] == s[i] && s[1..][i] == s[i + 1];
          }
        }
      }
    }
  }

  lemma {:induction false} DotsInRest(s: Str, at: nat)
    requires |s| >= 2 && at > 0
    ensures FirstDots(s, at) ==> FirstDots(s[1..], at - 1)
  {
  }

  lemma {:induction false} OneFirstDots(s: Str, i: nat, j: nat)
    requires FirstDots(s, i) && FirstDots(s, j)
    ensures i == j
  {
  }

  lemma {:induction false} CountingCounts(a: int, b: int)
    ensures Counts(Counting(a, b), a, b)
    decreases if a <= b then b - a else a - b
  {
    NumberReads(a);
    hide SignedNumeral, Number;
    if a != b {
      var l := Counting(a, b);
      var c := if a < b then a + 1 else a - 1;
      CountingCounts(c, b);
      var rest := Counting(c, b);
      assert forall k | 0 < k < |l| :: l[k] == rest[k - 1];
    }
  }

  /** What the word of a loop names. */
  lemma {:induction false} RangeCounts(env: Env, s: Str)
    ensures forall a, b | Split(env, s, a, b) :: Counts(Range(env, s), a, b)
    ensures (forall a, b :: !Split(env, s, a, b)) ==> Range(env, s) == []
  {
    var r := FindDots(s);
    DotsFound(s);
    hide FindDots, Counting, Counts, FirstDots;
    forall a, b | Split(env, s, a, b) ensures Counts(Range(env, s), a, b) {
      var at: nat :| at + 2 <= |s| && FirstDots(s, at) && env.toInt(s[..at]) == Some(a) && env.toInt(s[at + 2..]) == Some(b);
      OneFirstDots(s, at, r);
      CountingCounts(a, b);
    }
    if r >= 0 {
      var a, b := env.toInt(s[..r]), env.toInt(s[r + 2..]);
      if a.Some? && b.Some? {
        assert Split(env, s, a.value, b.value);
      }
    }
  }

  lemma {:induction false} CountsNonEmpty(l: seq<Str>, a: int, b: int)
    requires Counts(l, a, b)
    ensures forall k | 0 <= k < |l| :: l[k] != []
  {
    forall k | 0 <= k < |l| ensures l[k] != [] {
      assert SignedNumeral(l[k], if a <= b then a + k else a - k);
    }
  }

  /** A range has no empty strings. */
  lemma {:induction false} RangeNonEmpty(env: Env, s: Str)
    ensures RemoveEmpty(Range(env, s)) == Range(env, s)
  {
    RangeCounts(env, s);
    var l := Range(env, s);
    hide Range, RemoveEmpty;
    if exists a, b :: Split(env, s, a, b) {
      var a, b :| Split(env, s, a, b);
      CountsNonEmpty(l, a, b);
    }
    AllStay(l);
  }

  lemma {:induction false} AllStay(l: seq<Str>)
    requires forall k | 0 <= k < |l| :: l[k] != []
    ensures RemoveEmpty(l) == l
  {
    if l != [] {
      AllStay(l[1..]);
    }
  }

  // ----- rounds -------------------------------------------------------------------------------

  /** One round in front. */
  lemma {:induction false} RoundsCons(env: Env, fuel: nat, body: seq<Item>, variable: Str, sets: bool, value: Str,
                                      values: seq<Str>, st: State, o: Result, outs: seq<Result>)
    requires o == Visit(env, fuel, body, Flags(true, false, false), Begins(st, [], 0, variable, sets, value))
    requires GoesOn(o.ret) && Rounds(env, fuel, body, variable, sets, values, o.st, outs)
    ensures Rounds(env, fuel, body, variable, sets, [value] + values, st, [o] + outs)
  {
    hide *;
    RoundsMean(env, fuel, body, variable, sets, values, o.st, outs);
    RoundsMean(env, fuel, body, variable, sets, [value] + values, st, [o] + outs);
    forall k | 0 <= k < |outs| + 1 ensures Round(env, fuel, body, variable, sets, [value] + values, st, [o] + outs, k) {
      RoundShifted(env, fuel, body, variable, sets, value, values, st, o, outs, k);
    }
    forall k | 0 <= k < |outs| ensures GoesOn(([o] + outs)[k].ret) {
      assert k > 0 ==> GoesOn(outs[k - 1].ret);
    }
  }

  lemma {:induction false} RoundsMean(env: Env, fuel: nat, body: seq<Item>, variable: Str, sets: bool, values: seq<Str>, st: State,
                                      outs: seq<Result>)
    ensures Rounds(env, fuel, body, variable, sets, values, st, outs) <==>
              && |outs| <= |values|
              && (forall k | 0 <= k < |outs| :: Round(env, fuel, body, variable, sets, values, st, outs, k))
              && (forall k | 0 <= k < |outs| - 1 :: GoesOn(outs[k].ret))
              && (|outs| < |values| ==> outs != [] && !GoesOn(outs[|outs| - 1].ret))
  {
    hide Round, GoesOn;
  }

  lemma {:induction false} RoundShifted(env: Env, fuel: nat, body: seq<Item>, variable: Str, sets: bool, value: Str,
                                        values: seq<Str>, st: State, o: Result, outs: seq<Result>, k: nat)
    requires o == Visit(env, fuel, body, Flags(true, false, false), Begins(st, [], 0, variable, sets, value))
    requires k <= |outs| <= |values| && (k > 0 ==> Round(env, fuel, body, variable, sets, values, o.st, outs, k - 1))
    ensures Round(env, fuel, body, variable, sets, [value] + values, st, [o] + outs, k)
  {
    hide Visit, SetTop;
    if k > 0 {
      assert ([o] + outs)[k] == outs[k - 1] && ([value] + values)[k] == values[k - 1];
      assert k > 1 ==> ([o] + outs)[k - 1] == outs[k - 2];
    }
  }

  lemma {:induction false} LastRound(env: Env, fuel: nat, body: seq<Item>, variable: Str, sets: bool, values: seq<Str>,
                                     st: State, o: Result)
    requires values != []
    requires o == Visit(env, fuel, body, Flags(true, false, false), Begins(st, [], 0, variable, sets, values[0])) && !GoesOn(o.ret)
    ensures Rounds(env, fuel, body, variable, sets, values, st, [o])
  {
    hide Visit, GoesOn, SetTop;
    assert Begins(st, [o], 0, variable, sets, values[0]) == Begins(st, [], 0, variable, sets, values[0]);
  }

  lemma {:induction false} EndsCons(st: State, o: Result, outs: seq<Result>, ret: Ret)
    requires GoesOn(o.ret)
    ensures Ends(st, [o] + outs, ret) == Ends(o.st, outs, if o.ret.RFalse? then RFalse else RTrue)
  {
  }

  lemma {:induction false} FirstSelected(list: seq<Str>, index: nat)
    requires index < |list|
    ensures RemoveEmpty(list[index..]) == (if list[index] == [] then [] else [list[index]]) + RemoveEmpty(list[index + 1..])
  {
    assert list[index..][0] == list[index] && list[index..][1..] == list[index + 1..];
  }

  /** The rounds of a loop over a list. */
  lemma {:induction false} ListRounds(env: Env, fuel: nat, name: Str, list: seq<Str>, index: nat, body: seq<Item>,
                                      ret: Ret, st: State)
    returns (outs: seq<Result>)
    requires index <= |list| && ret.Plain()
    ensures Rounds(env, fuel, body, name, true, RemoveEmpty(list[index..]), st, outs)
    ensures Iterate(env, fuel, name, false, list, index, body, ret, st) == Ends(st, outs, ret)
    decreases |list| - index
  {
    hide Visit, SetTop, RemoveEmpty, Rounds;
    if index == |list| {
      outs := [];
      NoRounds(env, fuel, body, name, true, list, st);
    } else {
      FirstSelected(list, index);
      var rest := RemoveEmpty(list[index + 1..]);
      if list[index] == [] {
        outs := ListRounds(env, fuel, name, list, index + 1, body, ret, st);
        assert [] + rest == rest;
      } else {
        var o := Visit(env, fuel, body, Flags(true, false, false), Begins(st, [], 0, name, true, list[index]));
        if GoesOn(o.ret) {
          outs := ListRounds(env, fuel, name, list, index + 1, body, if o.ret.RFalse? then RFalse else RTrue, o.st);
          RoundsCons(env, fuel, body, name, true, list[index], rest, st, o, outs);
          EndsCons(st, o, outs, ret);
          outs := [o] + outs;
        } else {
          outs := [o];
          LastRound(env, fuel, body, name, true, [list[index]] + rest, st, o);
        }
      }
    }
  }

  lemma {:induction false} NoRounds(env: Env, fuel: nat, body: seq<Item>, variable: Str, sets: bool, list: seq<Str>, st: State)
    ensures RemoveEmpty(list[|list|..]) == [] && Rounds(env, fuel, body, variable, sets, [], st, [])
  {
  }

  /** The numbers from `index` up to the limit. */
  function Numbers(index: nat): seq<Str>
    requires index <= MAX_ITERATIONS
  {
    seq(MAX_ITERATIONS - index, k requires 0 <= k => Number(index + k))
  }

  lemma {:induction false} FirstNumber(index: nat)
    requires index < MAX_ITERATIONS
    ensures Numbers(index) == [Number(index)] + Numbers(index + 1)
  {
  }

  /** Setting the variable once more before it is restored makes no difference. */
  lemma {:induction false} SetTwice(r: Result, variable: Str, v: Val, was: seq<Str>)
    ensures variable != [] ==>
              Restored(Result(r.ret, r.st.(stack := SetTop(r.st.stack, variable, v))), variable, was) == Restored(r, variable, was)
  {
    assert Top(r.st.stack)[variable := v][variable := Vals(was)] == Top(r.st.stack)[variable := Vals(was)];
  }

  /** The rounds of an endless loop. */
  lemma {:induction false} EndlessRounds(env: Env, fuel: nat, name: Str, list: seq<Str>, index: nat, body: seq<Item>,
                                         ret: Ret, st: State, was: seq<Str>)
    returns (outs: seq<Result>)
    requires index <= MAX_ITERATIONS && ret.Plain()
    ensures Rounds(env, fuel, body, name, name != [], Numbers(index), st, outs)
    ensures Restored(Iterate(env, fuel, name, true, list, index, body, ret, st), name, was) ==
            Restored(Ends(st, outs, ret), name, was)
    decreases MAX_ITERATIONS - index
  {
    hide Visit, SetTop, Rounds, Restored, Numbers, Number;
    if index == MAX_ITERATIONS {
      outs := [];
      NoRounds(env, fuel, body, name, name != [], [], st);
      NoNumbers();
      SetTwice(Result(ret, st), name, Vals([Number(index)]), was);
    } else {
      FirstNumber(index);
      var o := Visit(env, fuel, body, Flags(true, false, false), Begins(st, [], 0, name, name != [], Number(index)));
      if GoesOn(o.ret) {
        outs := EndlessRounds(env, fuel, name, list, index + 1, body, if o.ret.RFalse? then RFalse else RTrue, o.st, was);
        RoundsCons(env, fuel, body, name, name != [], Number(index), Numbers(index + 1), st, o, outs);
        EndsCons(st, o, outs, ret);
        outs := [o] + outs;
      } else {
        outs := [o];
        LastRound(env, fuel, body, name, name != [], Numbers(index), st, o);
      }
    }
  }

  lemma {:induction false} NoNumbers()
    ensures Numbers(MAX_ITERATIONS) == []
  {
  }

  // ----- the main result ------------------------------------------------------------------------

  /** The loop on its word: some values it goes over, some rounds for them, and the variable restored. */
  ghost predicate Runs(env: Env, fuel: nat, body: seq<Item>, variable: Str, key: Str, st: State, values: seq<Str>,
                       outs: seq<Result>, r: Result) {
    var bound := Values(st.stack, key);
    var endless := bound == [] && key == FOREVER;
    && Goes(env, key, bound, values)
    && Rounds(env, fuel, body, variable, variable != [] || !endless, values, st, outs)
    && r == Restored(Ends(st, outs, RTrue), variable, Values(st.stack, variable))
  }

  lemma {:induction false} ListRuns(env: Env, fuel: nat, variable: Str, key: Str, body: seq<Item>, st: State)
    returns (values: seq<Str>, outs: seq<Result>)
    requires var bound := Values(st.stack, key); bound != [] || key != FOREVER
    ensures var bound := Values(st.stack, key);
            var r := Iterate(env, fuel, variable, false, if bound == [] then Range(env, key) else bound, 0, body, RTrue, st);
            Runs(env, fuel, body, variable, key, st, values, outs, Restored(r, variable, Values(st.stack, variable)))
  {
    var bound := Values(st.stack, key);
    var list := if bound == [] then Range(env, key) else bound;
    values := RemoveEmpty(list);
    outs := ListRounds(env, fuel, variable, list, 0, body, RTrue, st);
    assert list[0..] == list;
    RemoveEmptySelects(bound);
    RangeCounts(env, key);
    RangeNonEmpty(env, key);
    hide Values, Iterate, Range, Selected, Rounds, Split, Counts, RemoveEmpty, Restored;
    assert Goes(env, key, bound, values);
  }

  lemma {:induction false} EndlessRuns(env: Env, fuel: nat, variable: Str, list: seq<Str>, body: seq<Item>, st: State)
    returns (values: seq<Str>, outs: seq<Result>)
    requires Values(st.stack, FOREVER) == []
    ensures var r := Iterate(env, fuel, variable, true, list, 0, body, RTrue, st);
            Runs(env, fuel, body, variable, FOREVER, st, values, outs, Restored(r, variable, Values(st.stack, variable)))
  {
    values := Numbers(0);
    outs := EndlessRounds(env, fuel, variable, list, 0, body, RTrue, st, Values(st.stack, variable));
    forall k | 0 <= k < |values| ensures Numeral(values[k], k) {
      NumberReads(k);
    }
    hide Values, Iterate, Rounds, Restored, Numeral;
    assert Goes(env, FOREVER, [], values);
  }

  /** A loop evaluates its expression to one word. Without a variable that must be "ever", which stands for "forever". Then
      there is a round for each value the word stands for, in order, until one breaks out or fails; and the variable has its
      old value again. */
  ghost predicate Looped(env: Env, fuel: nat, name: HStr, list: Expr, body: seq<Item>, st: State, r: Result) {
    var o := Words(env, fuel, list, st, true);
    if o.ret.Fatal() then r == Result(o.ret, o.st)
    else
      && |o.v| == 1
      && if name.s == [] && o.v[0] != EVER then r == Result(RFalse, o.st)
         else
           var variable := if name.s == [] then [] else env.alias(name.s);
           var key := if name.s == [] then FOREVER else o.v[0];
           exists values, outs :: Runs(env, fuel, body, variable, key, o.st, values, outs, r)
  }

  lemma {:induction false} LoopRuns(env: Env, fuel: nat, name: HStr, list: Expr, body: seq<Item>, st: State)
    ensures Looped(env, fuel, name, list, body, st, Loop(env, fuel, name, list, body, st))
  {
    hide Words, Iterate, Range, Runs, Values, Restored, SetTop, Loop;
    LoopIs(env, fuel, name, list, body, st);
    var o := Words(env, fuel, list, st, true);
    if !o.ret.Fatal() {
      OneWord(env, fuel, list, st);
      if name.s != [] || o.v[0] == EVER {
        var key, variable := if name.s == [] then FOREVER else o.v[0], if name.s == [] then [] else env.alias(name.s);
        if Values(o.st.stack, key) == [] && key == FOREVER {
          var values, outs := EndlessRuns(env, fuel, variable, Range(env, key), body, o.st);
        } else {
          var values, outs := ListRuns(env, fuel, variable, key, body, o.st);
        }
      }
    }
  }

  lemma {:induction false} OneWord(env: Env, fuel: nat, x: Expr, st: State)
    ensures var o := Words(env, fuel, x, st, true); !o.ret.Fatal() ==> |o.v| == 1 && Last(o.v) == o.v[0]
  {
    hide Words;
    WordBuilding.WordsAreBuilt(env, fuel, x, st, true);
  }

  lemma {:induction false} LoopIs(env: Env, fuel: nat, name: HStr, list: Expr, body: seq<Item>, st: State)
    ensures var r := Loop(env, fuel, name, list, body, st);
            var o := Words(env, fuel, list, st, true);
            if o.ret.Fatal() then r == Result(o.ret, o.st)
            else if name.s == [] && Last(o.v) != EVER then r == Result(RFalse, o.st)
            else
              var key, variable := if name.s == [] then FOREVER else Last(o.v), if name.s == [] then [] else env.alias(name.s);
              var bound := Values(o.st.stack, key);
              r == Restored(Iterate(env, fuel, variable, bound == [] && key == FOREVER,
                                    if bound == [] then Range(env, key) else bound, 0, body, RTrue, o.st),
                            variable, Values(o.st.stack, variable))
  {
    hide Words, Iterate, Range, Values, SetTop;
  }
}
