// The source text of structured programs, as parser events, and what the scope
// machine makes of it.
module SourceText {
  import opened Tokens
  import opened Stream
  import opened ScopeMachine
  import opened ScopeInvariant
  import opened Structured

  // ----- items without line markers ---------------------------------------------

  function StripBlock(b: Block): Block
    decreases b
  {
    if b.NoBlock? then b else Block.Block(Strip(b.items))
  }

  function StripItem(i: Item): seq<Item>
    decreases i
  {
    match i
    case Line(_) => []
    case Branch(thn, els) => [Branch(StripBlock(thn), StripBlock(els))]
    case For(name, list, body) => [For(name, list, Strip(body))]
    case Def(isTest, name, body) => [Def(isTest, name, Strip(body))]
    case Bypass(body) => [Bypass(Strip(body))]
    case _ => [i]
  }

  /** The items without line markers, in nested blocks and function bodies too. */
  function Strip(items: seq<Item>): seq<Item>
    decreases items
  {
    if items == [] then [] else StripItem(items[0]) + Strip(items[1..])
  }

  lemma {:induction false} StripAppend(a: seq<Item>, b: seq<Item>)
    ensures Strip(a + b) == Strip(a) + Strip(b)
  {
    if a == [] {
      assert a + b == b;
    } else {
      assert (a + b)[1..] == a[1..] + b;
      StripAppend(a[1..], b);
    }
  }

  // ----- the text -----------------------------------------------------------------

  function NameWord(s: string): Expr { Expr.Expr([HashLit(false, HStr(0, 0, U(s)))]) }

  function OperandEvents(o: Operand): seq<Event> {
    (if IsNegated(o) then [Bang] else []) +
    (match o
     case Check(_, _) => []
     case Invoke(_, x, args) => [Event.Invoke(x, args)]
     case Go(Leave) => [Event.Invoke(NameWord("break"), [])]
     case Go(Again) => [Event.Invoke(NameWord("next"), [])]
     case Go(Give(x)) => [Event.Invoke(NameWord("return"), if x.elems == [] then [] else [x])])
  }

  function OperandWord(o: Operand): Words { if o.Check? then Word(o.x) else NoWord }

  /** The events of a condition up to its last word, which the separator after it takes. */
  function ConditionEvents(c: Condition): seq<Event> {
    match c
    case One(o) => OperandEvents(o)
    case Both(d, o) => ConditionEvents(d) + ([Colon(ConditionWord(d))] + OperandEvents(o))
    case Either(d, o) => ConditionEvents(d) + ([Pipe(ConditionWord(d))] + OperandEvents(o))
  }

  function ConditionWord(c: Condition): Words {
    match c
    case One(o) => OperandWord(o)
    case Both(_, o) => OperandWord(o)
    case Either(_, o) => OperandWord(o)
  }

  function ChangeEvent(a: Change): Event { Assignment(Word(a.lhs), a.op, a.hint, a.rhs, AtNewline) }

  /** On a line of its own. */
  function ActionEvents(act: Action): seq<Event> {
    match act
    case Changing(a) => [ChangeEvent(a)]
    case Testing(c) => ConditionEvents(c) + [Newline(ConditionWord(c))]
  }

  /** In front of a closing brace on the same line. */
  function LastEvents(act: Action): seq<Event> {
    match act
    case Changing(a) => [Assignment(Word(a.lhs), a.op, a.hint, a.rhs, AtBrace)]
    case Testing(c) => ConditionEvents(c) + [Close(ConditionWord(c))]
  }

  /** A body after the word `w`: braces, or one action or statement after a colon. */
  function BodyEvents(w: Words, b: Body): seq<Event>
    decreases b, 1
  {
    match b
    case Braces(p) => [Open(w)] + (ProgramEvents(p) + [Close(NoWord)])
    case Inline(p, act) => [Open(w)] + (ProgramEvents(p) + LastEvents(act))
    case OneLine(act) => [Colon(w)] + ActionEvents(act)
    case Embedded(s) => [Colon(w)] + StmtEvents(s)
  }

  function ThenEvents(w: Words, b: Option<Body>): seq<Event>
    decreases b, 1
  {
    if b.None? then [Newline(w)] else BodyEvents(w, b.value)
  }

  const ELSE_WORD: Words := Word(NameWord("else"))

  function ElseEvents(e: Otherwise): seq<Event>
    decreases e, 1
  {
    match e
    case Nothing => []
    case Do(b) => BodyEvents(ELSE_WORD, b)
    case Elif(i) => [Colon(ELSE_WORD)] + ChoiceEvents(i)
  }

  function ChoiceEvents(i: Choice): seq<Event>
    decreases i, 1
  {
    ConditionEvents(i.c) +
    (ThenEvents(ConditionWord(i.c), i.thn) + ((if i.nextLine then [Newline(NoWord)] else []) + ElseEvents(i.els)))
  }

  /** for(name, list), for(list) or for(literal). */
  function LoopWords(name: Str, list: Expr): seq<Expr> {
    if name != [] then [Expr.Expr([Lit(true, name)]), list]
    else if Literal(list).Some? then [Expr.Expr([Lit(true, Literal(list).value)])]
    else if list.elems == [] then []
    else [list]
  }

  function LoopEvent(name: HStr, list: Expr): Event { Event.Invoke(NameWord("for"), LoopWords(name.s, list)) }

  function FunctionEvent(isTest: bool, name: HStr): Event {
    Event.Invoke(if isTest then NameWord("defineTest") else NameWord("defineReplace"), [Expr.Expr([Lit(true, name.s)])])
  }

  function GlobalEvent(): Event { Event.Invoke(NameWord("bypassNesting"), []) }

  function ScopedEvents(d: Scoped): seq<Event>
    decreases d, 0
  {
    match d
    case Function(isTest, name, b) => [FunctionEvent(isTest, name)] + BodyEvents(NoWord, b)
    case Globally(b) => [GlobalEvent()] + BodyEvents(NoWord, b)
  }

  function StmtEvents(s: Stmt): seq<Event>
    decreases s, 0
  {
    match s
    case Blank => [Newline(NoWord)]
    case Single(act) => ActionEvents(act)
    case If(i) => ChoiceEvents(i)
    case Loop(name, list, b) => [LoopEvent(name, list)] + BodyEvents(NoWord, b)
    case Own(d) => ScopedEvents(d)
    case Guarded(c, or, d) =>
      ConditionEvents(c) + ([if or then Pipe(ConditionWord(c)) else Colon(ConditionWord(c))] + ScopedEvents(d))
  }

  function ProgramEvents(p: seq<Stmt>): seq<Event>
    decreases p, 0
  {
    if p == [] then [] else StmtEvents(p[0]) + ProgramEvents(p[1..])
  }

  // ----- programs that have a text --------------------------------------------------

  predicate NoMarker(x: Expr) { x.elems == [] || !x.elems[0].ELine? }

  /** Names with a meaning of their own to the parser. */
  predicate Reserved(x: Expr) {
    && Literal(x).Some?
    && Literal(x).value in {FOR, DEFINE_TEST, DEFINE_REPLACE, ScopeMachine.BYPASS, RETURN_NAME, NEXT_NAME, BREAK_NAME, OPTION_NAME}
  }

  predicate HasText(o: Operand, inLoop: bool, inFunction: bool) {
    match o
    case Check(_, x) => WfExpr(x) && NoMarker(x) && !IsElse(x)
    case Invoke(_, x, args) => WfExpr(x) && NoMarker(x) && WfArgs(args) && !Reserved(x)
    case Go(Give(x)) => WfExpr(x) && NoMarker(x) && (inFunction || x.elems == [])
    case Go(_) => inLoop
  }

  predicate ConditionHasText(c: Condition, inLoop: bool, inFunction: bool) {
    match c
    case One(o) => HasText(o, inLoop, inFunction)
    case Both(d, o) => ConditionHasText(d, inLoop, inFunction) && HasText(o, inLoop, inFunction)
    case Either(d, o) => ConditionHasText(d, inLoop, inFunction) && HasText(o, inLoop, inFunction)
  }

  predicate ChangeHasText(a: Change) { WfExpr(a.lhs) && NoMarker(a.lhs) && WfExpr(a.rhs) }

  predicate ActionHasText(act: Action, inLoop: bool, inFunction: bool) {
    match act
    case Changing(a) => ChangeHasText(a)
    case Testing(c) => ConditionHasText(c, inLoop, inFunction)
  }

  /** Tests behind the colon of a then body are no body: they are more tests in front of it. */
  predicate IsTests(b: Body) { b.OneLine? && b.act.Testing? }

  /** After such a body its scope waits on the stack. */
  predicate OnLine(b: Body) { b.OneLine? || b.Embedded? }

  /** Behind the colon of a then body only a loop is its body, and what else begins with tests is more tests. */
  predicate IsThen(b: Body) { !IsTests(b) && (b.Embedded? ==> b.s.Loop?) }

  /** A choice behind the colon of an else is an else-if. */
  predicate IsElseBody(b: Body) { b.Embedded? ==> !b.s.If? }

  /** Tests without a then body have an else. */
  predicate ThenHasText(hash: Hash, i: Choice, inLoop: bool, inFunction: bool)
    decreases i, 0
  {
    if i.thn.None? then !i.els.Nothing?
    else IsThen(i.thn.value) && BodyHasText(hash, i.thn.value, inLoop, inFunction)
  }

  predicate BodyHasText(hash: Hash, b: Body, inLoop: bool, inFunction: bool)
    decreases b, 1
  {
    match b
    case Braces(p) => ProgramHasText(hash, p, inLoop, inFunction)
    case Inline(p, act) => ProgramHasText(hash, p, inLoop, inFunction) && ActionHasText(act, inLoop, inFunction)
    case OneLine(act) => ActionHasText(act, inLoop, inFunction)
    case Embedded(s) =>
      // No else belongs to a choice in a one-line loop, function or block.
      && !s.Blank? && !s.Single? && (s.If? ==> s.i.els.Nothing?) && StmtHasText(hash, s, inLoop, inFunction)
  }

  predicate ChoiceHasText(hash: Hash, i: Choice, inLoop: bool, inFunction: bool)
    decreases i, 1
  {
    && ConditionHasText(i.c, inLoop, inFunction) && ThenHasText(hash, i, inLoop, inFunction)
    && match i.els
       case Nothing => true
       case Do(b) => IsElseBody(b) && BodyHasText(hash, b, inLoop, inFunction)
       case Elif(j) => ChoiceHasText(hash, j, inLoop, inFunction)
  }

  predicate LoopHasText(hash: Hash, name: HStr, list: Expr) {
    && FitsStr(name.s) && WfExpr(list) && name == Hashed(hash, name.s)
    && (name.s == [] ==>
          if Literal(list).Some? then list == Expr.Expr([HashLit(false, Hashed(hash, Literal(list).value))])
          else !StartsPlain([list]))
  }

  predicate ScopedHasText(hash: Hash, d: Scoped, inLoop: bool, inFunction: bool)
    decreases d, 0
  {
    match d
    case Function(_, name, b) =>
      // After a one-line function the parser would not know that it is in a loop.
      && (OnLine(b) ==> !inLoop) && FitsStr(name.s) && name == Hashed(hash, name.s) && BodyHasText(hash, b, false, true)
    case Globally(b) => inFunction && BodyHasText(hash, b, inLoop, inFunction)
  }

  predicate StmtHasText(hash: Hash, s: Stmt, inLoop: bool, inFunction: bool)
    decreases s, 0
  {
    match s
    case Blank => true
    case Single(act) => ActionHasText(act, inLoop, inFunction)
    case If(i) => ChoiceHasText(hash, i, inLoop, inFunction)
    case Loop(name, list, b) => LoopHasText(hash, name, list) && BodyHasText(hash, b, true, inFunction)
    case Own(d) => ScopedHasText(hash, d, inLoop, inFunction)
    case Guarded(c, _, d) => ConditionHasText(c, inLoop, inFunction) && ScopedHasText(hash, d, inLoop, inFunction)
  }

  predicate ProgramHasText(hash: Hash, p: seq<Stmt>, inLoop: bool, inFunction: bool)
    decreases p, 0
  {
    p == [] || (StmtHasText(hash, p[0], inLoop, inFunction) && ProgramHasText(hash, p[1..], inLoop, inFunction))
  }

  // ----- what parsing adds -----------------------------------------------------------

  /** `b` is `a` with items added to the top scope: `code`, up to line markers. */
  ghost predicate Adds(a: Scopes, b: Scopes, code: seq<Item>) {
    var n := |Top(a).items|;
    && |a| == |b| && n <= |Top(b).items|
    && b == WithTop(a, Top(a).(items := Top(b).items))
    && Top(b).items[..n] == Top(a).items
    && Strip(Top(b).items[n..]) == code
  }

  lemma {:induction false} AddsNothing(a: Scopes)
    ensures Adds(a, a, [])
  {
  }

  lemma {:induction false} AddsTrans(a: Scopes, b: Scopes, c: Scopes, x: seq<Item>, y: seq<Item>)
    requires Adds(a, b, x) && Adds(b, c, y)
    ensures Adds(a, c, x + y)
  {
    var i, j := |Top(a).items|, |Top(b).items|;
    var all := Top(c).items;
    assert all[..i] == all[..j][..i];
    assert all[i..] == all[..j][i..] + all[j..];
    StripAppend(all[..j][i..], all[j..]);
  }

  lemma {:induction false} StripOne(i: Item)
    ensures Strip([i]) == StripItem(i)
  {
    assert [i][1..] == [];
  }

  // ----- how the machine stands -------------------------------------------------------

  /** A machine in the middle of good text: no error, and no operator or negation left over. */
  ghost predicate Calm(m: Machine) { m.ok && Inv(m) && m.op.NoOperator? && m.invert == 0 }

  /** The machine `m1` is `m` gone on to `st` in the same scope, with `code` added. */
  ghost predicate Grew(a: Scopes, m1: Machine, st: LineState, code: seq<Item>) {
    Calm(m1) && m1.state == st && Adds(a, m1.scopes, code)
  }

  /** Where the next test goes. */
  function Base(m: Machine): Scopes { FlushScopes(m).scopes }

  lemma {:induction false} PutAdds(m: Machine, i: Item)
    requires Clear(m) && WfItem(i)
    ensures Clear(Put(m, i)) && Adds(m.scopes, Put(m, i).scopes, StripItem(i))
  {
    PutInv(m, i);
    StripOne(i);
    var t := Top(m.scopes);
    assert (t.items + [i])[|t.items|..] == [i];
  }

  lemma {:induction false} MarkerAdds(m: Machine)
    requires Clear(m)
    ensures var m1 := PutLineMarker(m);
            Clear(m1) && Adds(m.scopes, m1.scopes, []) && m1 == m.(scopes := m1.scopes, markLine := 0)
  {
    if m.markLine != 0 {
      PutAdds(m, Line(Low(m.markLine)));
    } else {
      AddsNothing(m.scopes);
    }
  }

  /** The operator in front of an operand. */
  function OperatorItems(m: Machine): seq<Item> {
    match m.op
    case NoOperator => []
    case AndOperator => if m.state.StCond? then [And] else []
    case OrOperator => [Or]
  }

  lemma {:induction false} OperatorAdds(m: Machine)
    requires Clear(m)
    ensures var m1 := PutOperator(m);
            Clear(m1) && Adds(m.scopes, m1.scopes, OperatorItems(m)) && m1 == m.(scopes := m1.scopes, op := NoOperator)
  {
    AddsNothing(m.scopes);
    PutAdds(m, And);
    PutAdds(m, Or);
  }

  function NotItems(m: Machine): seq<Item> { if m.invert % 2 == 1 then [Not] else [] }

  /** What finalizing a test puts in front of it. */
  lemma {:induction false} FinalizeTestAdds(m: Machine)
    requires m.ok && Inv(m)
    ensures var m1 := FinalizeTest(m);
            Clear(m1) && Grew(Base(m), m1, StCond, OperatorItems(FlushScopes(m)) + NotItems(m)) && m1.canElse
  {
    FlushScopesInv(m);
    FinalizeTestInv(m);
    var f := FlushScopes(m);
    hide Inv, FlushScopes, Adds, PutLineMarker, PutOperator;
    MarkerAdds(f);
    var g := PutLineMarker(f);
    OperatorAdds(g);
    var h := PutOperator(g);
    AddsTrans(f.scopes, g.scopes, h.scopes, [], OperatorItems(g));
    PutAdds(h, Not);
    AddsTrans(f.scopes, h.scopes, Put(h, Not).scopes, [] + OperatorItems(g), [Not]);
    assert [] + OperatorItems(g) == OperatorItems(f);
    assert OperatorItems(f) + [] == OperatorItems(f);
  }

  // ----- tests --------------------------------------------------------------------------

  /** The nesting a program counts on. */
  predicate Nests(s: Scopes, inLoop: bool, inFunction: bool) {
    (inLoop ==> Top(s).inLoop) && (inFunction ==> Top(s).inFunction)
  }

  lemma {:induction false} PlainHeaded(m: Machine, x: Expr, item: Expr -> Item)
    requires NoMarker(x)
    ensures PutHeaded(m, x, item) == Put(m, item(x))
  {
    assert x.elems[0..] == x.elems;
  }

  lemma {:induction false} AssocItems(a: seq<Item>, b: seq<Item>, c: seq<Item>)
    ensures a + b + c == a + (b + c)
  {
  }

  /** A finalized test and then its own item. */
  lemma {:induction false} TestAdds(m: Machine, i: Item, neg: bool)
    requires m.ok && Inv(m) && m.invert == (if neg then 1 else 0) && WfItem(i) && StripItem(i) == [i]
    ensures var m1 := Put(FinalizeTest(m), i);
            Clear(m1) && m1.canElse &&
            Grew(Base(m), m1, StCond, OperatorItems(FlushScopes(m)) + ((if neg then [Not] else []) + [i]))
  {
    var pre := OperatorItems(FlushScopes(m));
    assert NotItems(m) == if neg then [Not] else [];
    hide *;
    FinalizeTestAdds(m);
    PutGrows(Base(m), FinalizeTest(m), StCond, pre + NotItems(m), i);
    AssocItems(pre, NotItems(m), [i]);
  }

  /** One more item. */
  lemma {:induction false} PutGrows(a: Scopes, f: Machine, st: LineState, code: seq<Item>, i: Item)
    requires Clear(f) && Grew(a, f, st, code) && WfItem(i) && StripItem(i) == [i]
    ensures Clear(Put(f, i)) && Grew(a, Put(f, i), st, code + [i]) && Put(f, i).canElse == f.canElse
  {
    hide Inv, Adds, StripItem, WfItem;
    PutAdds(f, i);
    AddsTrans(a, f.scopes, Put(f, i).scopes, code, [i]);
  }

  /** A word `w` taken by the next separator: what the machine is then. */
  function Taken(hash: Hash, m: Machine, es: seq<Event>, w: Words): Machine { FinalizeCond(Run(hash, m, es), w) }

  lemma {:induction false} RunOne(hash: Hash, m: Machine, e: Event)
    ensures Run(hash, m, [e]) == ScopeMachine.Step(hash, m, e)
  {
    assert [e][1..] == [];
  }

  lemma {:induction false} RunAppend(hash: Hash, m: Machine, a: seq<Event>, b: seq<Event>)
    ensures Run(hash, m, a + b) == Run(hash, Run(hash, m, a), b)
    decreases a
  {
    if a == [] {
      assert a + b == b;
    } else {
      assert (a + b)[1..] == a[1..] + b;
      RunAppend(hash, ScopeMachine.Step(hash, m, a[0]), a[1..], b);
    }
  }

  function Negated(m: Machine, neg: bool): Machine { if neg then m.(invert := m.invert + 1) else m }

  lemma {:induction false} NegatedBase(m: Machine, neg: bool)
    requires Inv(m)
    ensures Base(Negated(m, neg)) == Base(m) && Inv(Negated(m, neg))
    ensures OperatorItems(FlushScopes(Negated(m, neg))) == OperatorItems(FlushScopes(m))
  {
  }

  /** The names of jumps are told apart by the parser. */
  lemma {:induction false} JumpNames()
    ensures U("break") == BREAK_NAME && U("next") == NEXT_NAME && U("return") == RETURN_NAME && U("for") == FOR
    ensures |FOR| == 3 && |NEXT_NAME| == 4 && |BREAK_NAME| == 5 && |RETURN_NAME| == 6
    ensures |DEFINE_TEST| == 10 && |DEFINE_REPLACE| == 13 && |ScopeMachine.BYPASS| == 13 && |OPTION_NAME| == 6
    ensures RETURN_NAME != OPTION_NAME
  {
    assert RETURN_NAME[0] != OPTION_NAME[0];
  }

  lemma {:induction false} DefineNames()
    ensures U("defineTest") == DEFINE_TEST && U("defineReplace") == DEFINE_REPLACE &&
            U("bypassNesting") == ScopeMachine.BYPASS
    ensures |FOR| == 3 && |DEFINE_TEST| == 10 && |DEFINE_REPLACE| == 13 && |ScopeMachine.BYPASS| == 13
    ensures DEFINE_REPLACE != ScopeMachine.BYPASS
  {
    assert DEFINE_REPLACE[0] != ScopeMachine.BYPASS[0];
  }

  /** Parsing a test, and taking its word, puts down the negation and the item. */
  lemma {:induction false} OperandTaken(hash: Hash, m: Machine, o: Operand, inLoop: bool, inFunction: bool)
    requires m.ok && m.invert == 0 && HasText(o, inLoop, inFunction) && Nests(m.scopes, inLoop, inFunction)
    ensures Taken(hash, m, OperandEvents(o), OperandWord(o)) == Put(FinalizeTest(Negated(m, IsNegated(o))), OperandItem(o))
  {
    var n := Negated(m, IsNegated(o));
    hide FinalizeTest, FlushScopes, Put;
    RunOne(hash, m, Bang);
    JumpNames();
    match o
    case Check(_, x) =>
      assert Run(hash, m, OperandEvents(o)) == n;
      PlainHeaded(FinalizeTest(n), x, h => Cond(h));
    case Invoke(_, x, args) =>
      OperandCall(hash, m, IsNegated(o), Event.Invoke(x, args), OperandEvents(o));
      PlainHeaded(FinalizeTest(n), x, h => Call(h, args));
    case Go(Leave) =>
      OperandCall(hash, m, false, Event.Invoke(NameWord("break"), []), OperandEvents(o));
    case Go(Again) =>
      OperandCall(hash, m, false, Event.Invoke(NameWord("next"), []), OperandEvents(o));
    case Go(Give(x)) =>
      var args := if x.elems == [] then [] else [x];
      OperandCall(hash, m, false, Event.Invoke(NameWord("return"), args), OperandEvents(o));
      PlainHeaded(FinalizeTest(n), x, h => Return(h));
      assert x.elems == [] ==> x == Expr.Expr([]);
  }

  lemma {:induction false} OperandCall(hash: Hash, m: Machine, neg: bool, e: Event, es: seq<Event>)
    requires m.ok && es == (if neg then [Bang] else []) + [e]
    ensures Run(hash, m, es) == ScopeMachine.Step(hash, Negated(m, neg), e)
  {
    hide FinalizeCall;
    RunOne(hash, m, Bang);
    RunOne(hash, Negated(m, neg), e);
    RunAppend(hash, m, if neg then [Bang] else [], [e]);
    RunOne(hash, m, e);
    assert [] + [e] == [e];
  }

  /** Ready for a test: at a fresh start, or after an else or for() with its colon. */
  ghost predicate Starts(m: Machine) {
    m.ok && Inv(m) && m.invert == 0 && (m.op.NoOperator? || (m.op.AndOperator? && !m.state.StCond?))
  }

  ghost predicate TestsDone(m: Machine, m1: Machine, code: seq<Item>, inLoop: bool, inFunction: bool) {
    Clear(m1) && m1.canElse && Grew(Base(m), m1, StCond, code) && Nests(m1.scopes, inLoop, inFunction)
  }

  lemma {:induction false} OperandItems(o: Operand, inLoop: bool, inFunction: bool)
    requires HasText(o, inLoop, inFunction)
    ensures CompileOperand(o) == (if IsNegated(o) then [Not] else []) + [OperandItem(o)]
    ensures WfItem(OperandItem(o)) && StripItem(OperandItem(o)) == [OperandItem(o)]
  {
  }

  lemma {:induction false} OperandDone(hash: Hash, m: Machine, o: Operand, inLoop: bool, inFunction: bool)
    requires m.ok && Inv(m) && m.invert == 0 && HasText(o, inLoop, inFunction)
    requires Nests(m.scopes, inLoop, inFunction) && Nests(Base(m), inLoop, inFunction)
    ensures TestsDone(m, Taken(hash, m, OperandEvents(o), OperandWord(o)),
                      OperatorItems(FlushScopes(m)) + CompileOperand(o), inLoop, inFunction)
  {
    var n := Negated(m, IsNegated(o));
    NegatedBase(m, IsNegated(o));
    OperandTaken(hash, m, o, inLoop, inFunction);
    OperandItems(o, inLoop, inFunction);
    hide FlushScopes, FinalizeTest, OperandItem, CompileOperand, OperatorItems, Base, Inv;
    TestAdds(n, OperandItem(o), IsNegated(o));
  }

  /** After an operator, in the same scope. */
  lemma {:induction false} SecondDone(hash: Hash, m: Machine, f: Machine, code: seq<Item>, op: Operator, o: Operand,
                                      inLoop: bool, inFunction: bool)
    requires TestsDone(m, f, code, inLoop, inFunction) && HasText(o, inLoop, inFunction) && !op.NoOperator?
    ensures var g := f.(op := op);
            TestsDone(m, Taken(hash, g, OperandEvents(o), OperandWord(o)),
                      code + [if op.AndOperator? then And else Or] + CompileOperand(o), inLoop, inFunction)
  {
    var g := f.(op := op);
    var sep := if op.AndOperator? then And else Or;
    assert Base(g) == g.scopes && OperatorItems(FlushScopes(g)) == [sep] && Inv(g);
    hide FlushScopes, Base, CompileOperand, Taken, Inv, Adds, OperatorItems, OperandEvents, OperandWord;
    OperandDone(hash, g, o, inLoop, inFunction);
    var m1 := Taken(hash, g, OperandEvents(o), OperandWord(o));
    AddsTrans(Base(m), f.scopes, m1.scopes, code, [sep] + CompileOperand(o));
    AssocItems(code, [sep], CompileOperand(o));
  }

  lemma {:induction false} SeparatorStep(hash: Hash, m: Machine, es: seq<Event>, w: Words, op: Operator, o: Operand)
    requires Run(hash, m, es).ok
    requires var f := Taken(hash, m, es, w); f.ok && f.state.StCond? && f.op.NoOperator? && f.invert == 0
    requires !op.NoOperator?
    ensures var sep := if op.AndOperator? then Colon(w) else Pipe(w);
            Taken(hash, m, es + ([sep] + OperandEvents(o)), OperandWord(o)) ==
            Taken(hash, Taken(hash, m, es, w).(op := op), OperandEvents(o), OperandWord(o))
  {
    var sep := if op.AndOperator? then Colon(w) else Pipe(w);
    var f := Taken(hash, m, es, w);
    assert ScopeMachine.Step(hash, Run(hash, m, es), sep) == f.(op := op);
    hide FinalizeCond, OperandEvents;
    RunAppend(hash, m, es, [sep] + OperandEvents(o));
    RunAppend(hash, Run(hash, m, es), [sep], OperandEvents(o));
    RunOne(hash, Run(hash, m, es), sep);
  }

  lemma {:induction false} TakenOk(hash: Hash, m: Machine, es: seq<Event>, w: Words)
    requires Taken(hash, m, es, w).ok
    ensures Run(hash, m, es).ok
  {
    var r := Run(hash, m, es);
    if !r.ok {
      if w.Word? && !IsElse(w.x) {
        FinalizeNotOk(r, w.x);
      } else if w.Word? {
        ElseNotOk(r);
      }
    }
  }

  lemma {:induction false} ElseNotOk(m: Machine)
    requires !m.ok
    ensures !Else(m).ok
  {
  }

  lemma {:induction false} FinalizeNotOk(m: Machine, x: Expr)
    requires !m.ok
    ensures !PutHeaded(FinalizeTest(m), x, h => Cond(h)).ok
  {
    PutLinesOk(FinalizeTest(m), x.elems);
  }

  /** Parsing a condition, and taking its last word, adds its items where the next test goes. */
  lemma {:induction false} ConditionDone(hash: Hash, m: Machine, c: Condition, inLoop: bool, inFunction: bool)
    requires Starts(m) && ConditionHasText(c, inLoop, inFunction)
    requires Nests(m.scopes, inLoop, inFunction) && Nests(Base(m), inLoop, inFunction)
    ensures TestsDone(m, Taken(hash, m, ConditionEvents(c), ConditionWord(c)), CompileCondition(c), inLoop, inFunction)
    decreases c
  {
    match c
    case One(o) =>
      OperandDone(hash, m, o, inLoop, inFunction);
      assert OperatorItems(FlushScopes(m)) == [];
      assert [] + CompileOperand(o) == CompileOperand(o);
    case Both(d, o) =>
      ConditionDone(hash, m, d, inLoop, inFunction);
      TakenOk(hash, m, ConditionEvents(d), ConditionWord(d));
      SeparatorStep(hash, m, ConditionEvents(d), ConditionWord(d), AndOperator, o);
      SecondDone(hash, m, Taken(hash, m, ConditionEvents(d), ConditionWord(d)), CompileCondition(d), AndOperator, o, inLoop, inFunction);
    case Either(d, o) =>
      ConditionDone(hash, m, d, inLoop, inFunction);
      TakenOk(hash, m, ConditionEvents(d), ConditionWord(d));
      SeparatorStep(hash, m, ConditionEvents(d), ConditionWord(d), OrOperator, o);
      SecondDone(hash, m, Taken(hash, m, ConditionEvents(d), ConditionWord(d)), CompileCondition(d), OrOperator, o, inLoop, inFunction);
  }
}
