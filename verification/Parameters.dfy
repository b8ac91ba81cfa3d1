// What a called function finds: its arguments, in numbered parameters and in lists.
module Parameters {
  import opened Tokens
  import opened ValueStack
  import opened Semantics
  import opened ScopedEnv
  import opened Numerals
  import WordBuilding

  const ARGS: Str := U("ARGS")
  const ARGC: Str := U("ARGC")

  /** How many strings the first `n` lists have. */
  function Before(lists: seq<seq<Str>>, n: nat): nat
    requires n <= |lists|
  {
    if n == 0 then 0 else Before(lists, n - 1) + |lists[n - 1]|
  }

  /** `l` is the lists, one behind the other. */
  predicate Concatenated(l: seq<Str>, lists: seq<seq<Str>>) {
    && |l| == Before(lists, |lists|)
    && forall i, j | 0 <= i < |lists| && 0 <= j < |lists[i]| ::
         Before(lists, i) + j < |l| && l[Before(lists, i) + j] == lists[i][j]
  }

  /** `name` is the number of an argument. */
  ghost predicate Numbers(name: Str, args: seq<seq<Str>>) {
    exists n | 1 <= n <= |args| :: Numeral(name, n)
  }

  /** From the stack `t` of a called function is seen: argument `n` under the numeral of `n`, under no other name of digits
      anything, all arguments and their number, and under all other names what the caller sees. */
  ghost predicate Sees(s: Stack, t: Stack, args: seq<seq<Str>>) {
    && |t| == |s| + 1 && t[..|s|] == s
    && (forall n, name | 1 <= n <= |args| && Numeral(name, n) :: Values(t, name) == args[n - 1])
    && (forall name | IsFunctParam(name) && !Numbers(name, args) :: Values(t, name) == [])
    && Concatenated(Values(t, ARGS), args)
    && |Values(t, ARGC)| == 1 && Numeral(Values(t, ARGC)[0], |args|)
    && forall name | !IsFunctParam(name) && name != ARGS && name != ARGC :: Values(t, name) == Values(s, name)
  }

  /** The result of a call, when its body has been run on a frame of its own. */
  function Left(o: Result): Out<seq<Str>> {
    var returned := o.ret.RReturn? || o.ret.RTrue?;
    Out(if returned then RTrue else o.ret, o.st.(stack := Pop(o.st.stack), returnValue := []),
        if returned then o.st.returnValue else [])
  }

  // ----- the frame ----------------------------------------------------------------------------

  /** The frame binds the numerals of 1 to `n`, and nothing else. */
  lemma {:induction false} Bound(args: seq<seq<Str>>, n: nat, name: Str, k: nat)
    requires 1 <= k <= n <= |args| && Numeral(name, k)
    ensures name in BindParams(args, n) && BindParams(args, n)[name] == Vals(args[k - 1])
  {
    DigitsRead(n);
    if k == n {
      OneNumeral(name, Digits(n), n);
    } else {
      Bound(args, n - 1, name, k);
      hide Digits;
    }
  }

  lemma {:induction false} NotBound(args: seq<seq<Str>>, n: nat, name: Str)
    requires n <= |args| && forall k | 1 <= k <= n :: !Numeral(name, k)
    ensures name !in BindParams(args, n)
  {
    if n > 0 {
      DigitsRead(n);
      NotBound(args, n - 1, name);
      hide Digits;
    }
  }

  lemma {:induction false} NotNumbers()
    ensures !IsFunctParam(ARGS) && !IsFunctParam(ARGC) && ARGS != ARGC
  {
    assert ARGS[0] == 65 && ARGC[0] == 65 && ARGS[3] == 83 && ARGC[3] == 67;
  }

  lemma {:induction false} FlattenSnoc(ls: seq<seq<Str>>, l: seq<Str>)
    ensures Flatten(ls + [l]) == Flatten(ls) + l
  {
    if ls == [] {
      assert [l][1..] == [] && l + [] == l == [] + l;
    } else {
      assert (ls + [l])[1..] == ls[1..] + [l];
      FlattenSnoc(ls[1..], l);
      assert ls[0] + (Flatten(ls[1..]) + l) == ls[0] + Flatten(ls[1..]) + l;
    }
  }

  lemma {:induction false} BeforePrefix(ls: seq<seq<Str>>, l: seq<Str>, n: nat)
    requires n <= |ls|
    ensures Before(ls + [l], n) == Before(ls, n) <= Before(ls, |ls|)
    ensures n < |ls| ==> Before(ls, n) + |ls[n]| <= Before(ls, |ls|)
    decreases |ls| - n
  {
    BeforeGrows(ls, n, |ls|);
    if n < |ls| {
      BeforeGrows(ls, n + 1, |ls|);
    }
    BeforeSame(ls, l, n);
  }

  lemma {:induction false} BeforeSame(ls: seq<seq<Str>>, l: seq<Str>, n: nat)
    requires n <= |ls|
    ensures Before(ls + [l], n) == Before(ls, n)
  {
    if n > 0 {
      BeforeSame(ls, l, n - 1);
    }
  }

  lemma {:induction false} BeforeGrows(ls: seq<seq<Str>>, m: nat, n: nat)
    requires m <= n <= |ls|
    ensures Before(ls, m) <= Before(ls, n)
  {
    if m < n {
      BeforeGrows(ls, m, n - 1);
    }
  }

  lemma {:induction false} FlattenConcatenates(ls: seq<seq<Str>>)
    ensures Concatenated(Flatten(ls), ls)
  {
    hide Flatten, Before;
    if ls == [] {
      NoLists();
    } else {
      var n := |ls| - 1;
      var v, l := ls[..n], ls[n];
      assert ls == v + [l];
      FlattenConcatenates(v);
      FlattenSnoc(v, l);
      BeforeLast(v, l);
      forall i, j | 0 <= i < |ls| && 0 <= j < |ls[i]|
        ensures Before(ls, i) + j < |Flatten(ls)| && Flatten(ls)[Before(ls, i) + j] == ls[i][j]
      {
        BeforePrefix(v, l, i);
        if i < n {
          assert ls[i] == v[i];
        }
      }
    }
  }

  lemma {:induction false} NoLists()
    ensures Flatten([]) == [] && Before([], 0) == 0
  {
  }

  lemma {:induction false} BeforeLast(ls: seq<seq<Str>>, l: seq<Str>)
    ensures Before(ls + [l], |ls|) == Before(ls, |ls|)
    ensures Before(ls + [l], |ls| + 1) == Before(ls, |ls|) + |l|
  {
    BeforeSame(ls, l, |ls|);
  }

  lemma {:induction false} FrameBinds(args: seq<seq<Str>>, name: Str)
    ensures var f, b := ArgFrame(args), BindParams(args, |args|);
            && ARGS in f && f[ARGS] == Vals(Flatten(args)) && ARGC in f && f[ARGC] == Vals([Digits(|args|)])
            && (name != ARGS && name != ARGC ==> (name in f <==> name in b) && (name in b ==> f[name] == b[name]))
  {
    NotNumbers();
    hide BindParams, Flatten, Digits;
  }

  /** What is visible under a name of digits. */
  lemma {:induction false} ParameterSeen(s: Stack, args: seq<seq<Str>>, name: Str, n: nat)
    requires 1 <= n <= |args| && Numeral(name, n)
    ensures Values(Push(s, ArgFrame(args)), name) == args[n - 1]
  {
    hide Values, Push, ArgFrame, BindParams;
    NotNumbers();
    Bound(args, |args|, name, n);
    FrameBinds(args, name);
    PushViews(s, ArgFrame(args), name);
  }

  lemma {:induction false} NoParameterSeen(s: Stack, args: seq<seq<Str>>, name: Str)
    requires IsFunctParam(name) && !Numbers(name, args)
    ensures Values(Push(s, ArgFrame(args)), name) == []
  {
    hide Values, Push, ArgFrame, BindParams;
    NotNumbers();
    NotBound(args, |args|, name);
    FrameBinds(args, name);
    PushViews(s, ArgFrame(args), name);
  }

  lemma {:induction false} OtherSeen(s: Stack, args: seq<seq<Str>>, name: Str)
    requires !IsFunctParam(name)
    ensures Values(Push(s, ArgFrame(args)), name) ==
            if name == ARGS then Flatten(args) else if name == ARGC then [Digits(|args|)] else Values(s, name)
  {
    hide Values, Push, ArgFrame, BindParams, Flatten, Digits, Numeral;
    NotNumbers();
    if name != ARGS && name != ARGC {
      NumeralIsDigits(name);
      NotBound(args, |args|, name);
    }
    FrameBinds(args, name);
    PushViews(s, ArgFrame(args), name);
  }

  lemma {:induction false} NumeralIsDigits(name: Str)
    ensures forall n | Numeral(name, n) :: IsFunctParam(name)
  {
  }

  /** What is visible through the frame of a call. */
  lemma {:induction false} FrameSeen(s: Stack, args: seq<seq<Str>>)
    ensures Sees(s, Push(s, ArgFrame(args)), args)
  {
    hide Values, ArgFrame, Numeral, IsFunctParam, Concatenated, Numbers, Flatten, Digits;
    var t := Push(s, ArgFrame(args));
    forall n, name | 1 <= n <= |args| && Numeral(name, n) ensures Values(t, name) == args[n - 1] {
      ParameterSeen(s, args, name, n);
    }
    forall name | IsFunctParam(name) && !Numbers(name, args) ensures Values(t, name) == [] {
      NoParameterSeen(s, args, name);
    }
    forall name | !IsFunctParam(name) && name != ARGS && name != ARGC ensures Values(t, name) == Values(s, name) {
      OtherSeen(s, args, name);
    }
    NotNumbers();
    OtherSeen(s, args, ARGS);
    OtherSeen(s, args, ARGC);
    FlattenConcatenates(args);
    DigitsRead(|args|);
  }

  /** A call runs the body where exactly its arguments are seen, and leaves that frame again. */
  lemma {:induction false} CallSees(env: Env, fuel: nat, body: seq<Item>, args: seq<seq<Str>>, st: State)
    requires fuel > 0
    ensures |st.stack| >= MAX_DEPTH ==> CallUser(env, fuel, body, args, st) == Out(RError, st, [])
    ensures |st.stack| < MAX_DEPTH ==>
              exists t: Stack :: Sees(st.stack, t, args) &&
                CallUser(env, fuel, body, args, st) == Left(Visit(env, fuel - 1, body, Flags(true, false, false), st.(stack := t)))
  {
    hide Visit, ArgFrame, Sees;
    if |st.stack| < MAX_DEPTH {
      FrameSeen(st.stack, args);
    }
  }

  // ----- the arguments ---------------------------------------------------------------------

  /** What argument `k` is evaluated to, from the state `st`. */
  function Argument(env: Env, fuel: nat, args: seq<Expr>, k: nat, joined: bool, st: State): Out<seq<Str>>
    requires k < |args|
  {
    Words(env, fuel, args[k], st, joined)
  }

  /** The first arguments are evaluated one after the other, through the states `sts`. */
  ghost predicate Through(env: Env, fuel: nat, args: seq<Expr>, joined: bool, sts: seq<State>) {
    && 0 < |sts| <= |args| + 1
    && forall k | 0 <= k < |sts| - 1 ::
         !Argument(env, fuel, args, k, joined, sts[k]).ret.Fatal() && Argument(env, fuel, args, k, joined, sts[k]).st == sts[k + 1]
  }

  /** All arguments are evaluated in order, each where the one before it has left off, to the lists `vs`; the first error
      ends it. */
  ghost predicate InOrder(env: Env, fuel: nat, args: seq<Expr>, joined: bool, sts: seq<State>, ret: Ret, end: State,
                          vs: seq<seq<Str>>) {
    && Through(env, fuel, args, joined, sts)
    && var n := |sts| - 1;
       if n == |args| then
         && ret == RTrue && end == sts[n] && |vs| == n
         && forall k | 0 <= k < n :: vs[k] == Argument(env, fuel, args, k, joined, sts[k]).v
       else
         var o := Argument(env, fuel, args, n, joined, sts[n]);
         o.ret.Fatal() && ret == o.ret && end == o.st
  }

  /** One argument in front. */
  lemma {:induction false} InOrderCons(env: Env, fuel: nat, args: seq<Expr>, joined: bool, st: State, sts: seq<State>,
                                       ret: Ret, end: State, vs: seq<seq<Str>>)
    requires args != []
    requires var o := Words(env, fuel, args[0], st, joined);
             !o.ret.Fatal() && sts != [] && sts[0] == o.st
    requires InOrder(env, fuel, args[1..], joined, sts, ret, end, vs)
    ensures InOrder(env, fuel, args, joined, [st] + sts, ret, end, [Words(env, fuel, args[0], st, joined).v] + vs)
  {
    hide Words;
    var all := [st] + sts;
    forall k | 0 <= k < |args| - 1 ensures args[1..][k] == args[k + 1] {
    }
    forall k | 0 <= k < |all| - 1
      ensures !Argument(env, fuel, args, k, joined, all[k]).ret.Fatal()
      ensures Argument(env, fuel, args, k, joined, all[k]).st == all[k + 1]
    {
      if k > 0 {
        assert Argument(env, fuel, args, k, joined, all[k]) == Argument(env, fuel, args[1..], k - 1, joined, sts[k - 1]);
      }
    }
    assert Through(env, fuel, args, joined, all);
    var n := |sts| - 1;
    if n < |args| - 1 {
      assert Argument(env, fuel, args, n + 1, joined, all[n + 1]) == Argument(env, fuel, args[1..], n, joined, sts[n]);
    } else {
      forall k | 0 <= k < n + 1
        ensures ([Words(env, fuel, args[0], st, joined).v] + vs)[k] == Argument(env, fuel, args, k, joined, all[k]).v
      {
        if k > 0 {
          assert Argument(env, fuel, args, k, joined, all[k]) == Argument(env, fuel, args[1..], k - 1, joined, sts[k - 1]);
        }
      }
    }
  }

  lemma {:induction false} FailsAtOnce(env: Env, fuel: nat, args: seq<Expr>, joined: bool, st: State, vs: seq<seq<Str>>)
    requires args != [] && Words(env, fuel, args[0], st, joined).ret.Fatal()
    ensures var o := Words(env, fuel, args[0], st, joined); InOrder(env, fuel, args, joined, [st], o.ret, o.st, vs)
  {
  }

  /** The arguments of a user function: one list for each. */
  lemma {:induction false} ListsInOrder(env: Env, fuel: nat, args: seq<Expr>, st: State, acc: seq<seq<Str>>)
    returns (sts: seq<State>, vs: seq<seq<Str>>)
    ensures var o := ListArgs(env, fuel, args, st, acc);
            && sts != [] && sts[0] == st && InOrder(env, fuel, args, false, sts, o.ret, o.st, vs)
            && (!o.ret.Fatal() ==> o.v == acc + vs)
    decreases args
  {
    if args == [] {
      sts, vs := [st], [];
    } else {
      var o := Words(env, fuel, args[0], st, false);
      if o.ret.Fatal() {
        sts, vs := [st], [];
        FailsAtOnce(env, fuel, args, false, st, vs);
      } else {
        sts, vs := ListsInOrder(env, fuel, args[1..], o.st, acc + [o.v]);
        hide Words, InOrder;
        var all := ListArgs(env, fuel, args, st, acc);
        InOrderCons(env, fuel, args, false, st, sts, all.ret, all.st, vs);
        assert acc + [o.v] + vs == acc + ([o.v] + vs);
        sts, vs := [st] + sts, [o.v] + vs;
      }
    }
  }

  /** Joined, an expression is one word. */
  lemma {:induction false} JoinedIsOne(env: Env, fuel: nat, x: Expr, st: State)
    ensures var o := Words(env, fuel, x, st, true); !o.ret.Fatal() ==> |o.v| == 1
  {
    hide Words;
    WordBuilding.WordsAreBuilt(env, fuel, x, st, true);
  }

  /** The arguments of a built-in function: one word for each. */
  lemma {:induction false} WordsInOrder(env: Env, fuel: nat, args: seq<Expr>, st: State, acc: seq<Str>)
    returns (sts: seq<State>, vs: seq<seq<Str>>)
    ensures var o := JoinedArgsFrom(env, fuel, args, st, acc);
            && sts != [] && sts[0] == st && InOrder(env, fuel, args, true, sts, o.ret, o.st, vs)
            && (!o.ret.Fatal() ==> |o.v| == |acc| + |vs| && acc <= o.v && forall k | 0 <= k < |vs| :: vs[k] == [o.v[|acc| + k]])
    decreases args
  {
    if args == [] {
      sts, vs := [st], [];
    } else {
      var o := Words(env, fuel, args[0], st, true);
      if o.ret.Fatal() {
        sts, vs := [st], [];
        FailsAtOnce(env, fuel, args, true, st, vs);
      } else {
        JoinedIsOne(env, fuel, args[0], st);
        sts, vs := WordsInOrder(env, fuel, args[1..], o.st, acc + o.v);
        hide Words, InOrder;
        var all := JoinedArgsFrom(env, fuel, args, st, acc);
        InOrderCons(env, fuel, args, true, st, sts, all.ret, all.st, vs);
        OneInFront(acc, o.v, vs, all.v, all.ret.Fatal());
        sts, vs := [st] + sts, [o.v] + vs;
      }
    }
  }

  lemma {:induction false} OneInFront(acc: seq<Str>, one: seq<Str>, vs: seq<seq<Str>>, all: seq<Str>, fails: bool)
    requires |one| == 1
    requires fails || (|all| == |acc + one| + |vs| && acc + one <= all &&
                       forall k | 0 <= k < |vs| :: vs[k] == [all[|acc + one| + k]])
    ensures fails || (acc <= all && forall k | 0 <= k < |vs| + 1 :: ([one] + vs)[k] == [all[|acc| + k]])
  {
    if !fails {
      assert all[|acc|] == (acc + one)[|acc|] == one[0];
      assert acc == (acc + one)[..|acc|] == all[..|acc|];
    }
  }

  /** A call of a user function sees what its arguments are evaluated to, one list for each, and a built-in function one word
      for each; no argument at all is one empty word. */
  lemma {:induction false} ArgumentsInOrder(env: Env, fuel: nat, args: seq<Expr>, st: State)
    ensures var o := ListArgs(env, fuel, args, st, []);
            exists sts, vs :: && sts != [] && sts[0] == st && InOrder(env, fuel, args, false, sts, o.ret, o.st, vs)
                              && (!o.ret.Fatal() ==> o.v == vs)
    ensures var o := JoinedArgs(env, fuel, args, st);
            exists sts, vs :: && sts != [] && sts[0] == st && InOrder(env, fuel, args, true, sts, o.ret, o.st, vs)
                              && (!o.ret.Fatal() ==>
                                    if args == [] then o.v == [[]]
                                    else |o.v| == |vs| && forall k | 0 <= k < |vs| :: vs[k] == [o.v[k]])
  {
    var sts, vs := ListsInOrder(env, fuel, args, st, []);
    assert [] + vs == vs;
    var stj, vj := WordsInOrder(env, fuel, args, st, []);
    hide Words, InOrder, JoinedArgsFrom;
    assert |vj| == 0 + |vj|;
  }

  // ----- calls ---------------------------------------------------------------------------------

  /** A user function with the evaluated arguments `vs` from the state `st` on: too deep a call is an error; else the body runs
      where exactly the arguments are seen. */
  ghost predicate Called(env: Env, fuel: nat, body: seq<Item>, vs: seq<seq<Str>>, st: State, o: Out<seq<Str>>)
    requires fuel > 0
  {
    if |st.stack| >= MAX_DEPTH then o == Out(RError, st, [])
    else
      exists t: Stack ::
        Sees(st.stack, t, vs) && o == Left(Visit(env, fuel - 1, body, Flags(true, false, false), st.(stack := t)))
  }

  lemma {:induction false} UserCalled(env: Env, fuel: nat, body: seq<Item>, vs: seq<seq<Str>>, st: State)
    requires fuel > 0
    ensures Called(env, fuel, body, vs, st, CallUser(env, fuel, body, vs, st))
  {
    hide Visit, Sees, Left, CallUser;
    CallSees(env, fuel, body, vs, st);
  }

  lemma {:induction false} ListsEvaluated(env: Env, fuel: nat, args: seq<Expr>, st: State)
    returns (sts: seq<State>, vs: seq<seq<Str>>)
    ensures var o := ListArgs(env, fuel, args, st, []);
            && sts != [] && sts[0] == st && InOrder(env, fuel, args, false, sts, o.ret, o.st, vs)
            && (!o.ret.Fatal() ==> o.v == vs)
  {
    hide Words, InOrder;
    sts, vs := ListsInOrder(env, fuel, args, st, []);
    assert [] + vs == vs;
  }

  /** A user replace function: its arguments in order, its body where they are seen, and the list it returns. */
  ghost predicate Replaces(env: Env, fuel: nat, body: seq<Item>, args: seq<Expr>, st: State, sts: seq<State>,
                           vs: seq<seq<Str>>, ret: Ret, end: State, o: Out<seq<Str>>)
    requires fuel > 0
  {
    && sts != [] && sts[0] == st && InOrder(env, fuel, args, false, sts, ret, end, vs)
    && if ret.Fatal() then o == Out(ret, end, []) else Called(env, fuel, body, vs, end, o)
  }

  /** What a call of a user replace function in an expression does. */
  lemma {:induction false} ReplaceFunction(env: Env, fuel: nat, name: Str, args: seq<Expr>, st: State)
    requires fuel > 0 && !env.isExpand(name) && name in st.replaceDefs
    ensures exists sts, vs, ret, end ::
              Replaces(env, fuel, st.replaceDefs[name], args, st, sts, vs, ret, end, Expand(env, fuel, name, args, st))
  {
    hide InOrder, Called, CallUser, ListArgs;
    var sts, vs := ListsEvaluated(env, fuel, args, st);
    var o := ListArgs(env, fuel, args, st, []);
    if !o.ret.Fatal() {
      UserCalled(env, fuel, st.replaceDefs[name], vs, o.st);
    }
    assert Replaces(env, fuel, st.replaceDefs[name], args, st, sts, vs, o.ret, o.st, Expand(env, fuel, name, args, st));
  }

  /** A test function is true if it returns nothing, "true", or an integer other than zero; an early end is passed on. */
  ghost predicate Judged(env: Env, o: Out<seq<Str>>, r: Result) {
    && r.st == o.st
    && if !o.ret.RTrue? then r.ret == o.ret
       else
         && r.ret.Plain()
         && (r.ret.RTrue? <==>
               o.v == [] || o.v[0] == U("true") ||
               (o.v[0] != U("false") && exists n: int :: n != 0 && env.toInt(o.v[0]) == Some(n)))
  }

  ghost predicate Tests(env: Env, fuel: nat, name: Str, body: seq<Item>, args: seq<Expr>, st: State, sts: seq<State>,
                        vs: seq<seq<Str>>, ret: Ret, end: State, o: Out<seq<Str>>, r: Result)
    requires fuel > 0
  {
    && sts != [] && sts[0] == st && InOrder(env, fuel, args, false, sts, ret, end, vs)
    && if ret.Fatal() then r == Result(ret, end)
       else Called(env, fuel, body, vs, end.(log := end.log + [User(name, vs)]), o) && Judged(env, o, r)
  }

  /** What a call of a user test function does. */
  lemma {:induction false} TestFunction(env: Env, fuel: nat, name: Str, args: seq<Expr>, st: State)
    requires fuel > 0 && !IsTest(env, name) && name in st.testDefs
    ensures exists sts, vs, ret, end, o ::
              Tests(env, fuel, name, st.testDefs[name], args, st, sts, vs, ret, end, o, Test(env, fuel, name, args, st))
  {
    hide InOrder, Called, CallUser, ListArgs, IsTest, TruthOf, Judged;
    var sts, vs := ListsEvaluated(env, fuel, args, st);
    var a := ListArgs(env, fuel, args, st, []);
    var called := a.st.(log := a.st.log + [User(name, a.v)]);
    var o := CallUser(env, fuel, st.testDefs[name], a.v, called);
    if !a.ret.Fatal() {
      UserCalled(env, fuel, st.testDefs[name], vs, called);
      TruthJudged(env, o);
    }
    assert Tests(env, fuel, name, st.testDefs[name], args, st, sts, vs, a.ret, a.st, o, Test(env, fuel, name, args, st));
  }

  lemma {:induction false} TruthJudged(env: Env, o: Out<seq<Str>>)
    ensures Judged(env, o, Result(TruthOf(env, o.ret, o.v), o.st))
  {
    if o.ret.RTrue? && o.v != [] {
      NotBoth();
    }
  }

  lemma {:induction false} NotBoth()
    ensures U("true") != U("false")
  {
    assert |U("true")| == 4 && |U("false")| == 5;
  }

  /** The value of the innermost binding is the one at every depth, but for a numbered parameter the one in the global frame
      only. */
  ghost predicate Exported(s: Stack, x: Str, t: Stack)
    requires Innermost(s, |s|, x) >= 0 && |t| == |s|
  {
    forall k: nat, other | k < |s| ::
      View(t, k, other) ==
      if other != x then View(s, k, other) else if k > 0 && IsFunctParam(x) then [] else Nearest(s, x)
  }

  /** What a built-in test function does to the variables: `export` and `unset` of one name, and what any other sets. */
  ghost predicate BuiltinTested(env: Env, name: Str, args: seq<Str>, st: State, r: Result) {
    var s, t := st.stack, r.st.stack;
    && r.st == st.(stack := t, log := st.log + [Builtin(name, args)]) && |t| == |s|
    && if name == EXPORT || name == UNSET then
         if |args| != 1 then r.ret == RFalse && t == s
         else
           var x := env.alias(args[0]);
           if name == EXPORT then
             && r.ret == RTrue
             && (Innermost(s, |s|, x) <= 0 ==> t == s)
             && (Innermost(s, |s|, x) > 0 ==> Exported(s, x, t))
           else
             && r.ret == (if Binding(s, x) >= 0 && s[Binding(s, x)][x].Vals? then RTrue else RFalse)
             && (r.ret.RFalse? ==> t == s && Values(s, x) == [])
             && forall k: nat, other | k < |s| :: View(t, k, other) == if k == |s| - 1 && other == x then [] else View(s, k, other)
       else
         var b := env.test(name, args, s);
         && r.ret == (match b.result case None => RError case Some(true) => RTrue case Some(false) => RFalse)
         && t[..|s| - 1] == s[..|s| - 1]
         && forall other :: Values(t, other) == if other in b.sets then b.sets[other] else Values(s, other)
  }

  lemma {:induction false} SetsSeen(s: Stack, sets: map<Str, seq<Str>>, other: Str)
    ensures Values(SetAll(s, sets), other) == if other in sets then sets[other] else Values(s, other)
  {
    var t := SetAll(s, sets);
    if other !in Top(t) {
      assert other !in Top(s);
      UnboundTop(s, Top(t), other);
    }
  }

  lemma {:induction false} ExportSeen(s: Stack, x: Str)
    ensures |Export(s, x)| == |s|
    ensures if Innermost(s, |s|, x) <= 0 then Export(s, x) == s else Exported(s, x, Export(s, x))
  {
    if Innermost(s, |s|, x) > 0 {
      forall k: nat, other | k < |s|
        ensures View(Export(s, x), k, other) ==
                if other != x then View(s, k, other) else if k > 0 && IsFunctParam(x) then [] else Nearest(s, x)
      {
        ExportViews(s, x, k, other);
      }
    }
  }

  lemma {:induction false} UnsetSeen(s: Stack, x: Str)
    ensures var (found, t) := Unset(s, x);
            && |t| == |s| && (!found ==> t == s && Values(s, x) == [])
            && (found <==> Binding(s, x) >= 0 && s[Binding(s, x)][x].Vals?)
            && forall k: nat, other | k < |s| :: View(t, k, other) == if k == |s| - 1 && other == x then [] else View(s, k, other)
  {
    UnsetViews(s, x, 0, x);
    forall k: nat, other | k < |s|
      ensures View(Unset(s, x).1, k, other) == if k == |s| - 1 && other == x then [] else View(s, k, other)
    {
      UnsetViews(s, x, k, other);
    }
  }

  lemma {:induction false} BuiltinCalled(env: Env, name: Str, args: seq<Str>, st: State)
    ensures BuiltinTested(env, name, args, st, BuiltinCall(env, name, args, st))
  {
    var s := st.stack;
    hide Export, Exported, Unset, Values, View, Innermost, Binding, EXPORT, UNSET;
    if name == EXPORT || name == UNSET {
      NotSame();
      if |args| == 1 {
        ExportSeen(s, env.alias(args[0]));
        UnsetSeen(s, env.alias(args[0]));
      }
    } else {
      var sets := env.test(name, args, s).sets;
      forall other ensures Values(SetAll(s, sets), other) == if other in sets then sets[other] else Values(s, other) {
        SetsSeen(s, sets, other);
      }
    }
  }

  lemma {:induction false} NotSame()
    ensures EXPORT != UNSET
  {
    assert |U("export")| == 6 && |U("unset")| == 5;
  }

  ghost predicate BuiltinRuns(env: Env, fuel: nat, name: Str, args: seq<Expr>, st: State, sts: seq<State>,
                              vs: seq<seq<Str>>, ret: Ret, end: State, words: seq<Str>, r: Result) {
    && sts != [] && sts[0] == st && InOrder(env, fuel, args, true, sts, ret, end, vs)
    && if ret.Fatal() then r == Result(ret, end)
       else
         && (if args == [] then words == [[]] else |words| == |vs| && forall k | 0 <= k < |vs| :: vs[k] == [words[k]])
         && BuiltinTested(env, name, words, end, r)
  }

  /** What a call of a built-in test function does. */
  lemma {:induction false} BuiltinTest(env: Env, fuel: nat, name: Str, args: seq<Expr>, st: State)
    requires IsTest(env, name)
    ensures exists sts, vs, ret, end, words ::
              BuiltinRuns(env, fuel, name, args, st, sts, vs, ret, end, words, Test(env, fuel, name, args, st))
  {
    ArgumentsInOrder(env, fuel, args, st);
    hide InOrder, BuiltinTested, BuiltinCall, IsTest, Words, JoinedArgs;
    var o := JoinedArgs(env, fuel, args, st);
    var sts, vs :| && sts != [] && sts[0] == st && InOrder(env, fuel, args, true, sts, o.ret, o.st, vs)
                   && (!o.ret.Fatal() ==>
                         if args == [] then o.v == [[]]
                         else |o.v| == |vs| && forall k | 0 <= k < |vs| :: vs[k] == [o.v[k]]);
    BuiltinCalled(env, name, o.v, o.st);
    assert BuiltinRuns(env, fuel, name, args, st, sts, vs, o.ret, o.st, o.v, Test(env, fuel, name, args, st));
  }
}
