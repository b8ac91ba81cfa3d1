// From the text of a structured program through the parser and the evaluator to
// the program's meaning.
module CompileAndRun {
  import opened Tokens
  import opened Stream
  import opened ScopeMachine
  import opened ScopeInvariant
  import opened Structured
  import opened SourceText
  import opened SourceParse
  import opened Semantics
  import opened Meaning
  import opened Discipline
  import opened CallBudget
  import opened LineMarkers
  import opened Parser
  import opened Evaluator

  // ----- a text is made of well-formed events ----------------------------------------

  lemma {:induction false} ConditionEventsWf(c: Condition, inLoop: bool, inFunction: bool)
    requires ConditionHasText(c, inLoop, inFunction)
    ensures WfEvents(ConditionEvents(c)) && WfWords(ConditionWord(c))
    decreases c
  {
    match c
    case One(o) => OperandEventsWf(o, inLoop, inFunction);
    case Both(d, o) => ConditionEventsWf(d, inLoop, inFunction); OperandEventsWf(o, inLoop, inFunction);
    case Either(d, o) => ConditionEventsWf(d, inLoop, inFunction); OperandEventsWf(o, inLoop, inFunction);
  }

  lemma {:induction false} OperandEventsWf(o: Operand, inLoop: bool, inFunction: bool)
    requires HasText(o, inLoop, inFunction)
    ensures WfEvents(OperandEvents(o)) && WfWords(OperandWord(o))
  {
    NameWf("break");
    NameWf("next");
    NameWf("return");
    if o.Go? && o.jump.Give? {
      assert WfArgs(if o.jump.value.elems == [] then [] else [o.jump.value]) by {
        assert [o.jump.value][1..] == [];
      }
    }
  }

  lemma {:induction false} ActionEventsWf(act: Action, inLoop: bool, inFunction: bool)
    requires ActionHasText(act, inLoop, inFunction)
    ensures WfEvents(ActionEvents(act)) && WfEvents(LastEvents(act))
  {
    if act.Testing? {
      ConditionEventsWf(act.c, inLoop, inFunction);
    }
  }

  lemma {:induction false} NameWf(s: string)
    requires |s| < 0x1_0000
    ensures WfExpr(NameWord(s))
  {
    OneElemWf(HashLit(false, HStr(0, 0, U(s))));
  }

  lemma {:induction false} BodyEventsWf(hash: Hash, w: Words, b: Body, inLoop: bool, inFunction: bool)
    requires WfWords(w) && BodyHasText(hash, b, inLoop, inFunction)
    ensures WfEvents(BodyEvents(w, b))
    decreases b, 1
  {
    match b
    case Braces(p) => ProgramEventsWf(hash, p, inLoop, inFunction);
    case Inline(p, act) =>
      ProgramEventsWf(hash, p, inLoop, inFunction);
      ActionEventsWf(act, inLoop, inFunction);
    case OneLine(act) => ActionEventsWf(act, inLoop, inFunction);
    case Embedded(s) => StmtEventsWf(hash, s, inLoop, inFunction);
  }

  lemma {:induction false} ChoiceEventsWf(hash: Hash, i: Choice, inLoop: bool, inFunction: bool)
    requires ChoiceHasText(hash, i, inLoop, inFunction)
    ensures WfEvents(ChoiceEvents(i))
    decreases i, 1
  {
    ConditionEventsWf(i.c, inLoop, inFunction);
    if i.thn.Some? {
      BodyEventsWf(hash, ConditionWord(i.c), i.thn.value, inLoop, inFunction);
    }
    NameWf("else");
    match i.els
    case Nothing =>
    case Do(b) => BodyEventsWf(hash, ELSE_WORD, b, inLoop, inFunction);
    case Elif(j) => ChoiceEventsWf(hash, j, inLoop, inFunction);
  }

  lemma {:induction false} StmtEventsWf(hash: Hash, s: Stmt, inLoop: bool, inFunction: bool)
    requires StmtHasText(hash, s, inLoop, inFunction)
    ensures WfEvents(StmtEvents(s))
    decreases s, 0
  {
    match s
    case Blank =>
    case Single(act) => ActionEventsWf(act, inLoop, inFunction);
    case If(i) => ChoiceEventsWf(hash, i, inLoop, inFunction);
    case Loop(name, list, b) =>
      NameWf("for");
      LoopWordsRead(hash, name, list);
      BodyEventsWf(hash, NoWord, b, true, inFunction);
    case Own(d) => ScopedEventsWf(hash, d, inLoop, inFunction);
    case Guarded(c, or, d) =>
      ConditionEventsWf(c, inLoop, inFunction);
      ScopedEventsWf(hash, d, inLoop, inFunction);
  }

  lemma {:induction false} ScopedEventsWf(hash: Hash, d: Scoped, inLoop: bool, inFunction: bool)
    requires ScopedHasText(hash, d, inLoop, inFunction)
    ensures WfEvents(ScopedEvents(d))
    decreases d, 0
  {
    match d
    case Function(_, name, b) =>
      NameWf("defineTest");
      NameWf("defineReplace");
      FunctionArg(name);
      BodyEventsWf(hash, NoWord, b, false, true);
    case Globally(b) =>
      NameWf("bypassNesting");
      BodyEventsWf(hash, NoWord, b, inLoop, inFunction);
  }

  lemma {:induction false} ProgramEventsWf(hash: Hash, p: seq<Stmt>, inLoop: bool, inFunction: bool)
    requires ProgramHasText(hash, p, inLoop, inFunction)
    ensures WfEvents(ProgramEvents(p))
    decreases p, 0
  {
    if p != [] {
      StmtEventsWf(hash, p[0], inLoop, inFunction);
      ProgramEventsWf(hash, p[1..], inLoop, inFunction);
    }
  }

  // ----- parsing --------------------------------------------------------------------

  /** The end of the file leaves the one scope as it is. */
  lemma {:induction false} FinishReady(m: Machine)
    requires Ready(m) && |Base(m)| == 1 && Top(Base(m)).brace == 0
    ensures var m1 := Finish(m, NoWord); m1.ok && m1.scopes == Base(m)
    ensures WfItems(Top(Base(m)).items)
  {
    BaseFlat(m);
    FlushScopesInv(m);
    assert WarnOperator(m) == m;
    var s := Base(m);
    assert WfScope(Top(s));
    assert WithTop(s, Top(s)) == s;
  }

  /** The parser accepts the text of a program, and makes of it the program's items and line markers. */
  lemma {:induction false} ProgramParsed(hash: Hash, p: seq<Stmt>)
    requires ProgramHasText(hash, p, false, false)
    ensures var o := Parse(hash, ProgramEvents(p), NoWord);
            o.Some? && WfItems(o.value) && Strip(o.value) == CompileProgram(p)
  {
    var m := ScopeMachine.Start(1);
    StartReady();
    ProgramDone(hash, m, p, false, false);
    var m1 := Run(hash, m, ProgramEvents(p));
    hide Inv, Base, Strip, Finish, Run, ProgramEvents, ProgramHasText;
    FinishReady(m1);
    assert Top(Base(m1)).items[0..] == Top(Base(m1)).items;
  }

  // ----- running --------------------------------------------------------------------

  /** Running the items of a parsed text is the meaning of the program, up to line markers in the bodies of the
      functions it defines. */
  lemma {:induction false} ParsedMeans(hash: Hash, env: Env, fuel: nat, p: seq<Stmt>, st: Setting)
    requires ProgramHasText(hash, p, false, false)
    ensures var o := Parse(hash, ProgramEvents(p), NoWord);
            o.Some? &&
            forall s: State | Bare(s) == Compiled(st) ::
              BareResult(Visit(env, fuel, o.value, Flags(true, false, false), s)) == Ended(SemProgram(env, fuel, p, true, st))
  {
    ProgramParsed(hash, p);
    var items := Parse(hash, ProgramEvents(p), NoWord).value;
    hide *;
    CompiledMeans(env, fuel, p, st);
    forall s: State | Bare(s) == Compiled(st)
      ensures BareResult(Visit(env, fuel, items, Flags(true, false, false), s)) == Ended(SemProgram(env, fuel, p, true, st))
    {
      VisitStripped(env, fuel, items, Flags(true, false, false), s);
    }
  }

  /** A program that has no bypassNesting, and whose functions have none, means one and the same thing with every
      bound of 100 nested calls or more, and never overflows it. */
  lemma {:induction false} OneMeaning(env: Env, fuel: nat, larger: nat, p: seq<Stmt>, st: Setting)
    requires Tame(CompileProgram(p)) && TameDefs(Compiled(st)) && MAX_DEPTH <= fuel <= larger
    ensures var r := Ended(SemProgram(env, fuel, p, true, st));
            r == Ended(SemProgram(env, larger, p, true, st)) && !r.ret.ROverflow?
  {
    hide *;
    CompiledMeans(env, fuel, p, st);
    CompiledMeans(env, larger, p, st);
    OneResult(env, fuel, larger, CompileProgram(p), Compiled(st));
  }

  lemma {:induction false} AtStart(items: seq<Item>)
    requires WfItems(items)
    ensures ItemsAt(EncItems(items) + [TERMINATOR], 0, items)
  {
  }

  const BLANK: Setting := Setting([map[]], map[], map[], [], [])

  /** Parses any file into a token stream and, if it is accepted and the stream is not too long for its 32-bit
      lengths, evaluates the stream. Walking the stream gives what visiting the items means. */
  method ReadAndVisit(hash: Hash, env: Env, fuel: nat, es: seq<ScopeMachine.Event>, last: Words)
    returns (accepted: bool, r: Option<Ret>, e: QMakeEvaluator?)
    requires WfEvents(es) && WfWords(last)
    ensures accepted == Parse(hash, es, last).Some?
    ensures r.Some? <==> accepted && |EncItems(Parse(hash, es, last).value)| + 1 < 0x1_0000_0000
    ensures r.Some? ==> e != null
    ensures r.Some? ==>
      Result(r.value, e.St()) == Visit(env, fuel, Parse(hash, es, last).value, Flags(true, false, false), Compiled(BLANK))
  {
    var parser := new QMakeParser(hash);
    parser.Read(es, last);
    accepted, r, e := parser.ok, None, null;
    var tokens := parser.tok + [TERMINATOR];
    if !accepted || |tokens| >= 0x1_0000_0000 {
      return;
    }
    ghost var items := Parse(hash, es, last).value;
    AcceptedIsWellFormed(hash, es, last);
    AtStart(items);
    e := new QMakeEvaluator(tokens, env);
    assert e.St() == Compiled(BLANK) by {
      assert CompileDefs(map[]) == map[];
    }
    var ret := e.VisitProBlock(fuel, 0, items);
    r := Some(ret);
  }

  /** A structured program, from its text to its result: the program's meaning, unless the stream is too long. */
  method CompileAndRun(hash: Hash, env: Env, fuel: nat, p: seq<Stmt>) returns (r: Option<Ret>, e: QMakeEvaluator?)
    requires ProgramHasText(hash, p, false, false)
    ensures var o := Parse(hash, ProgramEvents(p), NoWord);
            o.Some? && (r.Some? <==> |EncItems(o.value)| + 1 < 0x1_0000_0000)
    ensures r.Some? ==> e != null
    ensures r.Some? ==> Result(r.value, Bare(e.St())) == Ended(SemProgram(env, fuel, p, true, BLANK))
  {
    ParsedMeans(hash, env, fuel, p, BLANK);
    ProgramEventsWf(hash, p, false, false);
    assert Bare(Compiled(BLANK)) == Compiled(BLANK) by {
      assert CompileDefs(map[]) == map[] && StripDefs(map[]) == map[];
    }
    hide *;
    var accepted;
    accepted, r, e := ReadAndVisit(hash, env, fuel, ProgramEvents(p), NoWord);
    BareIs(r, e);
  }

  lemma {:induction false} BareIs(r: Option<Ret>, e: QMakeEvaluator?)
    ensures r.Some? && e != null ==> BareResult(Result(r.value, e.St())) == Result(r.value, Bare(e.St()))
  {
  }
}
