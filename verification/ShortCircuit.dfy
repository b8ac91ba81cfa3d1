// How far the evaluator's flag machine short-circuits as it is expected to: the
// exact cases in which a skipped test is not simply skipped.
module ShortCircuit {
  import opened Tokens
  import opened ValueStack
  import opened Semantics
  import opened Structured

  /** Textbook short-circuiting: a skipped test has no effect at all. */
  function IdealCondition(env: Env, fuel: nat, c: Condition, st: Setting): Flow
    decreases c
  {
    match c
    case One(o) => SemOperand(env, fuel, o, st)
    case Both(d, o) => IdealJoin(env, fuel, false, IdealCondition(env, fuel, d, st), o)
    case Either(d, o) => IdealJoin(env, fuel, true, IdealCondition(env, fuel, d, st), o)
  }

  function IdealJoin(env: Env, fuel: nat, or: bool, f: Flow, o: Operand): Flow {
    if f.Stops? || f.v == or then f else SemOperand(env, fuel, o, f.st)
  }

  /** What the evaluator does with the operand after ':' or, if `or`, after '|'. */
  function Join(env: Env, fuel: nat, or: bool, f: Flow, o: Operand): Flow {
    if f.Stops? then f
    else if f.v == or then Skip(env, fuel, o, f.v, f.st) else SemOperand(env, fuel, o, f.st)
  }

  // ----- one operator ------------------------------------------------------------------

  /** The words of `x` are expanded without an error, and with no effect. */
  predicate Quiet(env: Env, fuel: nat, x: Expr, st: Setting) {
    var w := SemWords(env, fuel, x, st, false); !w.ret.Fatal() && w.st == st
  }

  /** The same but for the return value, which the words are. */
  predicate QuietReturn(env: Env, fuel: nat, x: Expr, st: Setting) {
    var w := SemWords(env, fuel, x, st, false);
    !w.ret.Fatal() && w.v == st.returnValue && w.st == st.(returnValue := w.st.returnValue)
  }

  /** A skipped jump goes wrong after '|', where it makes the true condition false; a skipped return() stores its
      value, after either operator; and the words a test begins with are expanded, with the calls among them. */
  predicate SkipsCleanly(env: Env, fuel: nat, or: bool, o: Operand, st: Setting) {
    match o
    case Check(_, x) => Quiet(env, fuel, x, st)
    case Invoke(_, x, _) => Quiet(env, fuel, x, st)
    case Go(Give(x)) => !or && QuietReturn(env, fuel, x, st)
    case Go(_) => !or
  }

  /** The evaluator short-circuits an operator as the textbook does if and only if the operand is evaluated, or
      is skipped cleanly. */
  lemma {:induction false} JoinExact(env: Env, fuel: nat, or: bool, f: Flow, o: Operand)
    ensures Join(env, fuel, or, f, o) == IdealJoin(env, fuel, or, f, o) <==>
            f.Stops? || f.v != or || SkipsCleanly(env, fuel, or, o, f.st)
  {
    hide SemWords;
    if f.Goes? && f.v == or && o.Go? && o.jump.Give? {
      ReturnStored(env, fuel, o.jump.value, f.st);
    }
  }

  lemma {:induction false} ReturnStored(env: Env, fuel: nat, x: Expr, st: Setting)
    ensures var w := SemWords(env, fuel, x, st, false);
            w.st.(returnValue := w.v) == st <==> w.v == st.returnValue && w.st == st.(returnValue := w.st.returnValue)
  {
    hide SemWords;
  }

  // ----- words without calls ---------------------------------------------------------

  predicate CallFree(x: Expr) { forall i | 0 <= i < |x.elems| :: !x.elems[i].Fn? }

  predicate CallFreeOperand(o: Operand) {
    match o
    case Check(_, x) => CallFree(x)
    case Invoke(_, x, _) => CallFree(x)
    case Go(Give(x)) => CallFree(x)
    case Go(_) => true
  }

  lemma {:induction false} CallFreeElems(env: Env, fuel: nat, es: seq<Elem>, st: Setting, a: Acc, joined: bool)
    requires forall i | 0 <= i < |es| :: !es[i].Fn?
    ensures var o := SemElems(env, fuel, es, st, a, joined); o.ret == RTrue && o.st == st
    decreases es
  {
    if es != [] {
      var o := SemElement(env, fuel, es[0], st, a, joined);
      assert !es[0].Fn? && o.ret == RTrue && o.st == st;
      CallFreeElems(env, fuel, es[1..], st, o.v, joined);
    }
  }

  lemma {:induction false} CallFreeIsQuiet(env: Env, fuel: nat, x: Expr, st: Setting)
    requires CallFree(x)
    ensures Quiet(env, fuel, x, st)
  {
    CallFreeElems(env, fuel, x.elems, st, Acc([], false), false);
  }

  /** If an operand begins with words without calls, it is a jump after '|' that is not skipped cleanly, or a
      return() whose words are not the return value. */
  lemma {:induction false} CallFreeSkips(env: Env, fuel: nat, or: bool, o: Operand, st: Setting)
    requires CallFreeOperand(o)
    ensures SkipsCleanly(env, fuel, or, o, st) <==>
            !o.Go? || (!or && (o.jump.Give? ==> SemWords(env, fuel, o.jump.value, st, false).v == st.returnValue))
  {
    hide SemWords;
    match o
    case Check(_, x) => CallFreeIsQuiet(env, fuel, x, st);
    case Invoke(_, x, _) => CallFreeIsQuiet(env, fuel, x, st);
    case Go(Give(x)) => CallFreeIsQuiet(env, fuel, x, st);
    case Go(_) =>
  }

  // ----- whole conditions ----------------------------------------------------------------

  /** The evaluator agrees with the textbook on a condition and on everything it begins with. */
  predicate Agrees(env: Env, fuel: nat, c: Condition, st: Setting) {
    && SemCondition(env, fuel, c, st) == IdealCondition(env, fuel, c, st)
    && match c
       case One(_) => true
       case Both(d, _) => Agrees(env, fuel, d, st)
       case Either(d, _) => Agrees(env, fuel, d, st)
  }

  /** Every operand is evaluated or skipped cleanly. */
  predicate AllClean(env: Env, fuel: nat, c: Condition, st: Setting) {
    match c
    case One(_) => true
    case Both(d, o) => AllClean(env, fuel, d, st) && Clean(env, fuel, false, IdealCondition(env, fuel, d, st), o)
    case Either(d, o) => AllClean(env, fuel, d, st) && Clean(env, fuel, true, IdealCondition(env, fuel, d, st), o)
  }

  predicate Clean(env: Env, fuel: nat, or: bool, f: Flow, o: Operand) {
    f.Stops? || f.v != or || SkipsCleanly(env, fuel, or, o, f.st)
  }

  lemma {:induction false} AgreesExact(env: Env, fuel: nat, c: Condition, st: Setting)
    ensures Agrees(env, fuel, c, st) <==> AllClean(env, fuel, c, st)
    decreases c
  {
    hide SemOperand, Skip, SkipsCleanly;
    match c
    case One(o) =>
    case Both(d, o) =>
      AgreesExact(env, fuel, d, st);
      JoinExact(env, fuel, false, IdealCondition(env, fuel, d, st), o);
    case Either(d, o) =>
      AgreesExact(env, fuel, d, st);
      JoinExact(env, fuel, true, IdealCondition(env, fuel, d, st), o);
  }

  /** Jumps stand first or after ':', and a return() stands first. */
  predicate Conventional(c: Condition) {
    match c
    case One(_) => true
    case Both(d, o) => Conventional(d) && CallFreeOperand(o) && !(o.Go? && o.jump.Give?)
    case Either(d, o) => Conventional(d) && CallFreeOperand(o) && !o.Go?
  }

  lemma {:induction false} ConventionalIsIdeal(env: Env, fuel: nat, c: Condition, st: Setting)
    requires Conventional(c)
    ensures SemCondition(env, fuel, c, st) == IdealCondition(env, fuel, c, st)
  {
    ConventionalIsClean(env, fuel, c, st);
    AgreesExact(env, fuel, c, st);
  }

  lemma {:induction false} ConventionalIsClean(env: Env, fuel: nat, c: Condition, st: Setting)
    requires Conventional(c)
    ensures AllClean(env, fuel, c, st)
    decreases c
  {
    hide SkipsCleanly, IdealCondition;
    match c
    case One(_) =>
    case Both(d, o) =>
      ConventionalIsClean(env, fuel, d, st);
      CallFreeSkips(env, fuel, false, o, IdealCondition(env, fuel, d, st).st);
    case Either(d, o) =>
      ConventionalIsClean(env, fuel, d, st);
      CallFreeSkips(env, fuel, true, o, IdealCondition(env, fuel, d, st).st);
  }

  // ----- what a skipped return leaves behind ---------------------------------------------------

  /** No return() can be skipped: each stands first. */
  predicate ReturnsFirst(c: Condition) {
    match c
    case One(_) => true
    case Both(d, o) => ReturnsFirst(d) && !(o.Go? && o.jump.Give?)
    case Either(d, o) => ReturnsFirst(d) && !(o.Go? && o.jump.Give?)
  }

  predicate ReturnsFirstAction(act: Action) { act.Testing? ==> ReturnsFirst(act.c) }

  predicate ReturnsFirstBody(b: Body)
    decreases b, 1
  {
    match b
    case Braces(p) => ReturnsFirstProgram(p)
    case Inline(p, act) => ReturnsFirstProgram(p) && ReturnsFirstAction(act)
    case OneLine(act) => ReturnsFirstAction(act)
    case Embedded(s) => ReturnsFirstStmt(s)
  }

  predicate ReturnsFirstChoice(i: Choice)
    decreases i, 1
  {
    && ReturnsFirst(i.c) && (i.thn.Some? ==> ReturnsFirstBody(i.thn.value))
    && match i.els
       case Nothing => true
       case Do(b) => ReturnsFirstBody(b)
       case Elif(j) => ReturnsFirstChoice(j)
  }

  predicate ReturnsFirstStmt(s: Stmt)
    decreases s, 0
  {
    match s
    case Blank => true
    case Single(act) => ReturnsFirstAction(act)
    case If(i) => ReturnsFirstChoice(i)
    case Loop(_, _, b) => ReturnsFirstBody(b)
    case Own(d) => d.Globally? ==> ReturnsFirstBody(d.body)
    case Guarded(c, _, d) => ReturnsFirst(c) && (d.Globally? ==> ReturnsFirstBody(d.body))
  }

  predicate ReturnsFirstProgram(p: seq<Stmt>)
    decreases p, 0
  {
    p == [] || (ReturnsFirstStmt(p[0]) && ReturnsFirstProgram(p[1..]))
  }

  /** No return value is stored. */
  predicate NoValue(st: Setting) { st.returnValue == [] }

  lemma {:induction false} ElemsLeave(env: Env, fuel: nat, es: seq<Elem>, st: Setting, a: Acc, joined: bool)
    requires NoValue(st)
    ensures NoValue(SemElems(env, fuel, es, st, a, joined).st)
    decreases fuel, es, 0
  {
    if es != [] {
      var b := if es[0].ELine? || !es[0].newStr then a else a.(pending := false);
      if es[0].Fn? {
        ExpandLeaves(env, fuel, es[0].h.s, es[0].args, st);
      }
      var o := SemElement(env, fuel, es[0], st, a, joined);
      if !o.ret.Fatal() {
        ElemsLeave(env, fuel, es[1..], o.st, o.v, joined);
      }
      hide SemExpand;
    }
  }

  lemma {:induction false} WordsLeave(env: Env, fuel: nat, x: Expr, st: Setting, joined: bool)
    requires NoValue(st)
    ensures NoValue(SemWords(env, fuel, x, st, joined).st)
    decreases fuel, x, 1
  {
    ElemsLeave(env, fuel, x.elems, st, Acc(if joined then [[]] else [], false), joined);
  }

  lemma {:induction false} JoinedLeave(env: Env, fuel: nat, args: seq<Expr>, st: Setting, acc: seq<Str>)
    requires NoValue(st)
    ensures NoValue(SemJoined(env, fuel, args, st, acc).st)
    decreases fuel, args, 0
  {
    if args != [] {
      WordsLeave(env, fuel, args[0], st, true);
      var o := SemWords(env, fuel, args[0], st, true);
      if !o.ret.Fatal() {
        JoinedLeave(env, fuel, args[1..], o.st, acc + o.v);
      }
    }
  }

  lemma {:induction false} ListsLeave(env: Env, fuel: nat, args: seq<Expr>, st: Setting, acc: seq<seq<Str>>)
    requires NoValue(st)
    ensures NoValue(SemLists(env, fuel, args, st, acc).st)
    decreases fuel, args, 0
  {
    if args != [] {
      WordsLeave(env, fuel, args[0], st, false);
      var o := SemWords(env, fuel, args[0], st, false);
      if !o.ret.Fatal() {
        ListsLeave(env, fuel, args[1..], o.st, acc + [o.v]);
      }
    }
  }

  /** However a call ends, no return value is stored after it. */
  lemma {:induction false} CallLeaves(env: Env, fuel: nat, b: Body, args: seq<seq<Str>>, st: Setting)
    requires NoValue(st)
    ensures NoValue(SemCall(env, fuel, b, args, st).st)
  {
    hide SemBody;
  }

  lemma {:induction false} ExpandLeaves(env: Env, fuel: nat, name: Str, args: seq<Expr>, st: Setting)
    requires NoValue(st)
    ensures NoValue(SemExpand(env, fuel, name, args, st).st)
    decreases fuel, args, 2
  {
    JoinedLeave(env, fuel, args, st, []);
    ListsLeave(env, fuel, args, st, []);
    if !env.isExpand(name) && name in st.expansions {
      var o := SemLists(env, fuel, args, st, []);
      CallLeaves(env, fuel, st.expansions[name], o.v, o.st);
    }
    hide SemJoined, SemLists, SemCall;
  }

  lemma {:induction false} TestLeaves(env: Env, fuel: nat, name: Str, args: seq<Expr>, st: Setting)
    requires NoValue(st)
    ensures NoValue(SemTest(env, fuel, name, args, st).st)
  {
    JoinedLeave(env, fuel, args, st, []);
    ListsLeave(env, fuel, args, st, []);
    if !IsTest(env, name) && name in st.tests {
      var o := SemLists(env, fuel, args, st, []);
      CallLeaves(env, fuel, st.tests[name], o.v, o.st.(log := o.st.log + [User(name, o.v)]));
    }
    hide SemJoined, SemLists, SemCall, BuiltinEffect, IsTest;
  }

  /** Unless it is a return() that is evaluated. */
  predicate Leaves(f: Flow) { NoValue(f.st) || (f.Stops? && f.ret.RReturn?) }

  lemma {:induction false} OperandLeaves(env: Env, fuel: nat, o: Operand, v: bool, st: Setting)
    requires NoValue(st)
    ensures Leaves(SemOperand(env, fuel, o, st))
    ensures !(o.Go? && o.jump.Give?) ==> Leaves(Skip(env, fuel, o, v, st))
  {
    match o
    case Check(_, x) => WordsLeave(env, fuel, x, st, false);
    case Invoke(_, x, args) =>
      WordsLeave(env, fuel, x, st, false);
      var w := SemWords(env, fuel, x, st, false);
      if !w.ret.Fatal() && |w.v| == 1 {
        TestLeaves(env, fuel, w.v[0], args, w.st);
      }
    case Go(Give(x)) => WordsLeave(env, fuel, x, st, false);
    case Go(_) =>
    hide SemWords, SemTest;
  }

  lemma {:induction false} ConditionLeaves(env: Env, fuel: nat, c: Condition, st: Setting)
    requires NoValue(st) && ReturnsFirst(c)
    ensures Leaves(SemCondition(env, fuel, c, st))
    decreases c
  {
    hide SemOperand, Skip;
    match c
    case One(o) => OperandLeaves(env, fuel, o, true, st);
    case Both(d, o) =>
      ConditionLeaves(env, fuel, d, st);
      var f := SemCondition(env, fuel, d, st);
      if f.Goes? { OperandLeaves(env, fuel, o, f.v, f.st); }
    case Either(d, o) =>
      ConditionLeaves(env, fuel, d, st);
      var f := SemCondition(env, fuel, d, st);
      if f.Goes? { OperandLeaves(env, fuel, o, f.v, f.st); }
  }

  lemma {:induction false} ChangeLeaves(env: Env, fuel: nat, a: Change, v: bool, st: Setting)
    requires NoValue(st)
    ensures NoValue(SemChange(env, fuel, a, v, st).st)
  {
    WordsLeave(env, fuel, a.lhs, st, false);
    var w := SemWords(env, fuel, a.lhs, st, false);
    if !w.ret.Fatal() {
      WordsLeave(env, fuel, a.rhs, w.st, a.op.Replace?);
      assert NoValue(SemAssign(env, fuel, w.v, a, v, w.st).st) by { hide SemWords, AssignTo; }
    }
    hide SemWords, SemAssign;
  }

  lemma {:induction false} ActionLeaves(env: Env, fuel: nat, act: Action, v: bool, st: Setting)
    requires NoValue(st) && ReturnsFirstAction(act)
    ensures Leaves(SemAction(env, fuel, act, v, st))
  {
    hide SemChange, SemCondition;
    match act
    case Changing(a) => ChangeLeaves(env, fuel, a, v, st);
    case Testing(c) => ConditionLeaves(env, fuel, c, st);
  }

  lemma {:induction false} BodyLeaves(env: Env, fuel: nat, b: Body, st: Setting)
    requires NoValue(st) && ReturnsFirstBody(b)
    ensures Leaves(SemBody(env, fuel, b, st))
    decreases b, 1
  {
    match b
    case Braces(p) => ProgramLeaves(env, fuel, p, true, st);
    case Inline(p, act) =>
      ProgramLeaves(env, fuel, p, true, st);
      var f := SemProgram(env, fuel, p, true, st);
      if f.Goes? { ActionLeaves(env, fuel, act, f.v, f.st); }
    case OneLine(act) => ActionLeaves(env, fuel, act, true, st);
    case Embedded(s) => StmtLeaves(env, fuel, s, true, st);
    hide SemProgram, SemAction, SemStmt;
  }

  lemma {:induction false} ChoiceLeaves(env: Env, fuel: nat, i: Choice, st: Setting)
    requires NoValue(st) && ReturnsFirstChoice(i)
    ensures Leaves(SemChoice(env, fuel, i, st))
    decreases i, 1
  {
    ConditionLeaves(env, fuel, i.c, st);
    var f := SemCondition(env, fuel, i.c, st);
    if f.Goes? {
      if f.v {
        if i.thn.Some? { BodyLeaves(env, fuel, i.thn.value, f.st); }
      } else {
        match i.els
        case Nothing =>
        case Do(b) => BodyLeaves(env, fuel, b, f.st);
        case Elif(j) => ChoiceLeaves(env, fuel, j, f.st);
      }
    }
    hide SemCondition, SemBody;
  }

  lemma {:induction false} IterateLeaves(env: Env, fuel: nat, name: Str, endless: bool, list: seq<Str>, index: nat,
                                         body: Body, v: bool, st: Setting)
    requires (endless ==> index <= MAX_ITERATIONS) && NoValue(st) && ReturnsFirstBody(body)
    ensures Leaves(SemIterate(env, fuel, name, endless, list, index, body, v, st))
    decreases body, 2, if endless then MAX_ITERATIONS - index else |list| - index
  {
    hide SemBody, BindLoopVar;
    var st1 := st.(stack := BindLoopVar(st.stack, name, endless, list, index));
    if (if endless then index == MAX_ITERATIONS else index >= |list|) {
    } else if !endless && list[index] == [] {
      IterateLeaves(env, fuel, name, endless, list, index + 1, body, v, st1);
    } else {
      BodyLeaves(env, fuel, body, st1);
      var f := SemBody(env, fuel, body, st1);
      if f.Goes? {
        IterateLeaves(env, fuel, name, endless, list, index + 1, body, f.v, f.st);
      } else if f.ret.RNext? {
        IterateLeaves(env, fuel, name, endless, list, index + 1, body, true, f.st);
      }
    }
  }

  lemma {:induction false} StmtLeaves(env: Env, fuel: nat, s: Stmt, v: bool, st: Setting)
    requires NoValue(st) && ReturnsFirstStmt(s)
    ensures Leaves(SemStmt(env, fuel, s, v, st))
    decreases s, 0
  {
    match s
    case Blank =>
    case Single(act) => ActionLeaves(env, fuel, act, v, st);
    case If(i) => ChoiceLeaves(env, fuel, i, st);
    case Loop(name, list, body) => LoopLeaves(env, fuel, name, list, body, st);
    case Own(d) => ScopedLeaves(env, fuel, d, st);
    case Guarded(c, or, d) =>
      ConditionLeaves(env, fuel, c, st);
      var f := SemCondition(env, fuel, c, st);
      if f.Goes? && f.v != or { ScopedLeaves(env, fuel, d, f.st); }
    hide SemAction, SemChoice, SemLoop, SemScoped, SemCondition;
  }

  lemma {:induction false} ScopedLeaves(env: Env, fuel: nat, d: Scoped, st: Setting)
    requires NoValue(st) && (d.Globally? ==> ReturnsFirstBody(d.body))
    ensures Leaves(SemScoped(env, fuel, d, st))
    decreases d, 0
  {
    if d.Globally? {
      BodyLeaves(env, fuel, d.body, st.(stack := [st.stack[0]]));
    }
    hide SemBody;
  }

  lemma {:induction false} LoopLeaves(env: Env, fuel: nat, name: HStr, list: Expr, body: Body, st: Setting)
    requires NoValue(st) && ReturnsFirstBody(body)
    ensures Leaves(SemLoop(env, fuel, name, list, body, st))
    decreases body, 3
  {
    WordsLeave(env, fuel, list, st, true);
    var o := SemWords(env, fuel, list, st, true);
    var word := Last(o.v);
    if !o.ret.Fatal() && (name.s != [] || word == EVER) {
      var key := if name.s == [] then FOREVER else word;
      var variable := if name.s == [] then [] else env.alias(name.s);
      var bound := Values(o.st.stack, key);
      IterateLeaves(env, fuel, variable, bound == [] && key == FOREVER, if bound == [] then Range(env, key) else bound, 0,
                    body, true, o.st);
    }
    hide SemIterate, SemWords, Values, Range, SetTop;
  }

  lemma {:induction false} ProgramLeaves(env: Env, fuel: nat, p: seq<Stmt>, v: bool, st: Setting)
    requires NoValue(st) && ReturnsFirstProgram(p)
    ensures Leaves(SemProgram(env, fuel, p, v, st))
    decreases p, 0
  {
    if p != [] {
      StmtLeaves(env, fuel, p[0], v, st);
      var f := SemStmt(env, fuel, p[0], v, st);
      if f.Goes? {
        ProgramLeaves(env, fuel, p[1..], f.v, f.st);
      }
      hide SemStmt;
    }
  }

  /** A function whose returns all stand first returns nothing when it falls off its end, whatever it calls. */
  lemma {:induction false} NothingLeaks(env: Env, fuel: nat, b: Body, args: seq<seq<Str>>, st: Setting)
    requires NoValue(st) && ReturnsFirstBody(b) && |st.stack| < MAX_DEPTH && fuel > 0
    ensures var f := SemBody(env, fuel - 1, b, st.(stack := Push(st.stack, ArgFrame(args))));
            f.Goes? ==> SemCall(env, fuel, b, args, st).v == []
  {
    BodyLeaves(env, fuel - 1, b, st.(stack := Push(st.stack, ArgFrame(args))));
    hide SemBody, ArgFrame;
  }

  // ----- inputs that show the difference ------------------------------------------------------

  /** The condition or value that consists of one literal word. */
  function Word(s: Str): Expr { Expr.Expr([Lit(true, s)]) }

  lemma {:induction false} WordIs(env: Env, fuel: nat, s: Str, st: Setting)
    ensures SemWords(env, fuel, Word(s), st, false) == Got(RTrue, st, [s])
  {
    var e := Lit(true, s);
    var a := Acc([], false);
    assert [e][1..] == [];
    assert SemElems(env, fuel, [], st, AddStr(a, s, false), false) == Got(RTrue, st, AddStr(a, s, false));
    assert SemElement(env, fuel, e, st, a, false) == Got(RTrue, st, AddStr(a, s, false));
    assert SemElems(env, fuel, [e], st, a, false) == Got(RTrue, st, AddStr(a, s, false));
    assert AddStr(a, s, false).ret == [] + [s] == [s];
  }

  lemma {:induction false} CheckIs(env: Env, fuel: nat, a: Str, st: Setting)
    ensures SemOperand(env, fuel, Check(false, Word(a)), st) ==
            Goes(env.active(a, st.stack), st.(log := st.log + [Tested(a)]))
  {
    WordIs(env, fuel, a, st);
    hide SemWords;
  }

  /** "a|break(): b" in a loop, with `a` true, does not evaluate `b`: the skipped break() counts as a failed test. */
  lemma {:induction false} SkippedBreakFails(env: Env, fuel: nat, a: Str, b: Str, st: Setting)
    requires env.active(a, st.stack)
    ensures var c := Both(Either(One(Check(false, Word(a))), Go(Leave)), Check(false, Word(b)));
            && SemCondition(env, fuel, c, st) == Goes(false, st.(log := st.log + [Tested(a)]))
            && IdealCondition(env, fuel, c, st) ==
               SemOperand(env, fuel, Check(false, Word(b)), st.(log := st.log + [Tested(a)]))
  {
    CheckIs(env, fuel, a, st);
    var st1 := st.(log := st.log + [Tested(a)]);
    WordIs(env, fuel, b, st1);
    hide SemWords;
    var first := One(Check(false, Word(a)));
    assert SemCondition(env, fuel, first, st) == Goes(true, st1) == IdealCondition(env, fuel, first, st);
    var d := Either(first, Go(Leave));
    assert SemCondition(env, fuel, d, st) == Goes(false, st1) && IdealCondition(env, fuel, d, st) == Goes(true, st1);
  }

  /** The function body "{ a: return(false)" newline "b }". */
  function ReturnUnless(a: Str, b: Str): Body {
    Inline([Single(Testing(Both(One(Check(false, Word(a))), Go(Give(Word(U("false")))))))],
           Testing(One(Check(false, Word(b)))))
  }

  /** A test function that skips "return(false)" and ends with a true test is false all the same: the skipped
      return has left its value behind. */
  lemma {:induction false} SkippedReturnLeaks(env: Env, fuel: nat, a: Str, b: Str, st: Setting)
    requires fuel > 0 && |st.stack| < MAX_DEPTH
    requires var s := Push(st.stack, ArgFrame([])); !env.active(a, s) && env.active(b, s)
    ensures var st1 := st.(stack := Push(st.stack, ArgFrame([])));
            var f := SemBody(env, fuel - 1, ReturnUnless(a, b), st1);
            && f.Goes? && f.v
            && var c := SemCall(env, fuel, ReturnUnless(a, b), [], st);
               c.ret == RTrue && c.v == [U("false")] && TruthOf(env, c.ret, c.v) == RFalse
  {
    var n := fuel - 1;
    var st1 := st.(stack := Push(st.stack, ArgFrame([])));
    var st2 := st1.(log := st1.log + [Tested(a)]);
    var st3 := st2.(returnValue := [U("false")]);
    CheckIs(env, n, a, st1);
    WordIs(env, n, U("false"), st2);
    CheckIs(env, n, b, st3);
    var check, give := Check(false, Word(a)), Go(Give(Word(U("false"))));
    var c := Both(One(check), give);
    assert SemCondition(env, n, c, st1) == Goes(false, st3) by {
      hide SemWords, ArgFrame, Word;
      assert SemCondition(env, n, One(check), st1) == Goes(false, st2);
      assert Skip(env, n, give, false, st2) == Goes(false, st3);
    }
    hide SemWords, ArgFrame, SemCondition, Word;
    OneStatement(env, n, Single(Testing(c)), st1);
    var last := One(Check(false, Word(b)));
    assert SemAction(env, n, Testing(last), false, st3) == Goes(true, st3.(log := st3.log + [Tested(b)])) by {
      LastTest(env, n, last.o, st3);
    }
    assert SemBody(env, n, ReturnUnless(a, b), st1) == Goes(true, st3.(log := st3.log + [Tested(b)]));
    assert |U("false")| == 5 && |U("true")| == 4;
  }

  lemma {:induction false} LastTest(env: Env, fuel: nat, o: Operand, st: Setting)
    ensures SemCondition(env, fuel, One(o), st) == SemOperand(env, fuel, o, st)
  {
  }

  lemma {:induction false} OneStatement(env: Env, fuel: nat, s: Stmt, st: Setting)
    ensures SemProgram(env, fuel, [s], true, st) == SemStmt(env, fuel, s, true, st)
  {
    assert [s][1..] == [];
    var f := SemStmt(env, fuel, s, true, st);
    hide SemStmt;
    if f.Goes? {
      assert SemProgram(env, fuel, [], f.v, f.st) == f;
    }
  }
}
