// The filter for !!IF, !!ELIF, !!ELSE and !!ENDIF lines in substituted files: a
// stack of states, proved against if and else-if read recursively.
module ConditionFilter {
  import opened Tokens

  datatype Condition = InCondition | MetCondition | PendingCondition

  datatype Event = Tested(test: Str) | Expanded(line: Str)

  /** The outcome of a test may depend on all that was tested and expanded before it. */
  type Tests = (seq<Event>, Str) -> bool

  // ----- lines -----------------------------------------------------------------------

  const IF: Str := U("!!IF ")
  const ELIF: Str := U("!!ELIF ")
  const ELSE: Str := U("!!ELSE")
  const ENDIF: Str := U("!!ENDIF")

  datatype Line = If(test: Str) | Elif(test: Str) | Else | Endif | Text(line: Str)

  predicate StartsWith(s: Str, p: Str) { p <= s }

  /** The test behind a keyword, without the last character of the line. */
  function TestIn(line: Str, keyword: nat): Str
    requires keyword <= |line|
  {
    if |line| == keyword then [] else line[keyword..|line| - 1]
  }

  function Classify(line: Str): Line {
    if StartsWith(line, IF) then If(TestIn(line, |IF|))
    else if StartsWith(line, ELIF) then Elif(TestIn(line, |ELIF|))
    else if StartsWith(line, ELSE) then Else
    else if StartsWith(line, ENDIF) then Endif
    else Text(line)
  }

  // ----- the stack machine ----------------------------------------------------------------

  type Stack = seq<Condition>

  predicate Active(state: Stack) { state == [] || state[|state| - 1].InCondition? }

  function SetTop(state: Stack, c: Condition): Stack
    requires state != []
  {
    state[..|state| - 1] + [c]
  }

  /** One line: the new stack, and what was tested and expanded. Directives without an !!IF are ignored with a
      warning. */
  function Step(tests: Tests, line: Line, state: Stack, log: seq<Event>): (Stack, seq<Event>) {
    match line
    case If(test) =>
      if Active(state) then
        (state + [if tests(log, test) then InCondition else PendingCondition], log + [Tested(test)])
      else (state + [MetCondition], log)
    case Elif(test) =>
      if state == [] then (state, log)
      else if state[|state| - 1].PendingCondition? then
        (if tests(log, test) then SetTop(state, InCondition) else state, log + [Tested(test)])
      else (SetTop(state, MetCondition), log)
    case Else =>
      if state == [] then (state, log)
      else (SetTop(state, if state[|state| - 1].PendingCondition? then InCondition else MetCondition), log)
    case Endif => (if state == [] then state else state[..|state| - 1], log)
    case Text(l) => (state, if Active(state) then log + [Expanded(l)] else log)
  }

  function Run(tests: Tests, lines: seq<Str>, state: Stack, log: seq<Event>): (Stack, seq<Event>)
    decreases lines
  {
    if lines == [] then (state, log)
    else
      var s := Step(tests, Classify(lines[0]), state, log);
      Run(tests, lines[1..], s.0, s.1)
  }

  class Substitution {
    const tests: Tests
    var state: Stack
    var log: seq<Event>

    constructor (tests: Tests)
      ensures this.tests == tests && state == [] && log == []
    {
      this.tests, state, log := tests, [], [];
    }

    method Test(test: Str) returns (v: bool)
      modifies `log
      ensures v == tests(old(log), test) && log == old(log) + [Tested(test)]
    {
      v := tests(log, test);
      log := log + [Tested(test)];
    }

    method Push(c: Condition)
      modifies `state
      ensures state == old(state) + [c]
    {
      state := state + [c];
    }

    method Pop()
      requires state != []
      modifies `state
      ensures state == old(state)[..|old(state)| - 1]
    {
      state := state[..|state| - 1];
    }

    method HandleLine(line: Str)
      modifies this
      ensures (state, log) == Step(tests, Classify(line), old(state), old(log))
    {
      if StartsWith(line, IF) {
        if state == [] || state[|state| - 1].InCondition? {
          var v := Test(TestIn(line, |IF|));
          Push(if v then InCondition else PendingCondition);
        } else {
          Push(MetCondition);
        }
      } else if StartsWith(line, ELIF) {
        if state != [] {
          if state[|state| - 1].PendingCondition? {
            var v := Test(TestIn(line, |ELIF|));
            if v {
              Pop();
              Push(InCondition);
            }
          } else if state[|state| - 1].InCondition? {
            Pop();
            Push(MetCondition);
          } else {
            assert SetTop(state, MetCondition) == state;
          }
        }
      } else if StartsWith(line, ELSE) {
        if state != [] {
          if state[|state| - 1].PendingCondition? {
            Pop();
            Push(InCondition);
          } else if state[|state| - 1].InCondition? {
            Pop();
            Push(MetCondition);
          } else {
            assert SetTop(state, MetCondition) == state;
          }
        }
      } else if StartsWith(line, ENDIF) {
        if state != [] {
          Pop();
        }
      } else if state == [] || state[|state| - 1].InCondition? {
        log := log + [Expanded(line)];
      }
    }

    method Filter(lines: seq<Str>)
      requires state == [] && log == []
      modifies this
      ensures (state, log) == Run(tests, lines, [], [])
    {
      assert lines[0..] == lines;
      hide Step, Classify;
      for i := 0 to |lines|
        invariant Run(tests, lines[i..], state, log) == Run(tests, lines, [], [])
      {
        assert lines[i..][1..] == lines[i + 1..];
        HandleLine(lines[i]);
      }
    }
  }

  // ----- documents, read recursively --------------------------------------------------------

  datatype Node = Plain(line: Str) | Choice(test: Str, thn: seq<Node>, rest: Rest)

  datatype Rest = End | Otherwise(els: seq<Node>) | OtherwiseIf(test: Str, thn: seq<Node>, rest: Rest)

  /** What a document comes to: the first branch whose test is true, or the else branch. */
  function Meaning(tests: Tests, doc: seq<Node>, log: seq<Event>): seq<Event>
    decreases doc
  {
    if doc == [] then log else Meaning(tests, doc[1..], NodeMeaning(tests, doc[0], log))
  }

  function NodeMeaning(tests: Tests, n: Node, log: seq<Event>): seq<Event>
    decreases n
  {
    match n
    case Plain(line) => log + [Expanded(line)]
    case Choice(test, thn, rest) =>
      if tests(log, test) then Meaning(tests, thn, log + [Tested(test)])
      else RestMeaning(tests, rest, log + [Tested(test)])
  }

  function RestMeaning(tests: Tests, r: Rest, log: seq<Event>): seq<Event>
    decreases r
  {
    match r
    case End => log
    case Otherwise(els) => Meaning(tests, els, log)
    case OtherwiseIf(test, thn, rest) =>
      if tests(log, test) then Meaning(tests, thn, log + [Tested(test)])
      else RestMeaning(tests, rest, log + [Tested(test)])
  }

  const NEWLINE: Str := [10]

  /** The lines of a document. */
  function Lines(doc: seq<Node>): seq<Str>
    decreases doc
  {
    if doc == [] then [] else NodeText(doc[0]) + Lines(doc[1..])
  }

  function NodeText(n: Node): seq<Str>
    decreases n
  {
    match n
    case Plain(line) => [line]
    case Choice(test, thn, rest) => [IF + test + NEWLINE] + (Lines(thn) + RestText(rest))
  }

  function RestText(r: Rest): seq<Str>
    decreases r
  {
    match r
    case End => [ENDIF + NEWLINE]
    case Otherwise(els) => [ELSE + NEWLINE] + (Lines(els) + [ENDIF + NEWLINE])
    case OtherwiseIf(test, thn, rest) => [ELIF + test + NEWLINE] + (Lines(thn) + RestText(rest))
  }

  /** Plain lines are no directives. */
  predicate Wf(doc: seq<Node>)
    decreases doc
  {
    doc == [] || (WfNode(doc[0]) && Wf(doc[1..]))
  }

  predicate WfNode(n: Node)
    decreases n
  {
    if n.Plain? then Classify(n.line).Text? else Wf(n.thn) && WfRest(n.rest)
  }

  predicate WfRest(r: Rest)
    decreases r
  {
    match r
    case End => true
    case Otherwise(els) => Wf(els)
    case OtherwiseIf(_, thn, rest) => Wf(thn) && WfRest(rest)
  }

  lemma {:induction false} Keywords(test: Str)
    ensures Classify(IF + test + NEWLINE) == If(test) && Classify(ELIF + test + NEWLINE) == Elif(test)
    ensures Classify(ELSE + NEWLINE) == Else && Classify(ENDIF + NEWLINE) == Endif
  {
    assert |IF| == 5 && |ELIF| == 7 && |ELSE| == 6 && |ENDIF| == 7;
    var a, b, c, d := IF + test + NEWLINE, ELIF + test + NEWLINE, ELSE + NEWLINE, ENDIF + NEWLINE;
    assert a[2] == 73 && b[2] == 69 && c[2] == 69 && d[2] == 69 && b[3] == 76 && c[3] == 76 && d[3] == 78;
    assert b[4] == 73 && c[4] == 83;
    assert IF[2] == 73 && ELIF[2] == 69 && ELSE[2] == 69 && ENDIF[2] == 69;
    assert ELIF[4] == 73 && ELSE[4] == 83 && ENDIF[3] == 78 && ELIF[3] == 76;
    assert a[5..|a| - 1] == test && b[7..|b| - 1] == test;
  }

  lemma {:induction false} RunCons(tests: Tests, line: Str, rest: seq<Str>, state: Stack, log: seq<Event>)
    ensures Run(tests, [line] + rest, state, log) ==
            (var s := Step(tests, Classify(line), state, log); Run(tests, rest, s.0, s.1))
  {
    assert ([line] + rest)[1..] == rest;
  }

  /** A document in front of other lines: selected as a whole, or skipped as a whole without a test. */
  lemma {:induction false} RunDoc(tests: Tests, doc: seq<Node>, rest: seq<Str>, state: Stack, log: seq<Event>)
    requires Wf(doc)
    ensures Run(tests, Lines(doc) + rest, state, log) ==
            Run(tests, rest, state, if Active(state) then Meaning(tests, doc, log) else log)
    decreases doc
  {
    if doc == [] {
      assert Lines(doc) + rest == rest;
    } else {
      var tail := Lines(doc[1..]) + rest;
      assert Lines(doc) + rest == NodeText(doc[0]) + tail;
      RunNode(tests, doc[0], tail, state, log);
      RunDoc(tests, doc[1..], rest, state, if Active(state) then NodeMeaning(tests, doc[0], log) else log);
    }
  }

  lemma {:induction false} RunNode(tests: Tests, n: Node, rest: seq<Str>, state: Stack, log: seq<Event>)
    requires WfNode(n)
    ensures Run(tests, NodeText(n) + rest, state, log) ==
            Run(tests, rest, state, if Active(state) then NodeMeaning(tests, n, log) else log)
    decreases n
  {
    match n
    case Plain(line) => RunCons(tests, line, rest, state, log);
    case Choice(test, thn, r) =>
      var tail := RestText(r) + rest;
      assert NodeText(n) + rest == [IF + test + NEWLINE] + (Lines(thn) + tail);
      Keywords(test);
      RunCons(tests, IF + test + NEWLINE, Lines(thn) + tail, state, log);
      hide Run, Classify, Lines, RestText;
      var s := Step(tests, If(test), state, log);
      RunDoc(tests, thn, tail, s.0, s.1);
      RunRest(tests, r, rest, state, s.0[|s.0| - 1], if s.0[|s.0| - 1].InCondition? then Meaning(tests, thn, s.1) else s.1);
  }

  /** What follows a branch, with the state `c` of its !!IF on the stack. */
  lemma {:induction false} RunRest(tests: Tests, r: Rest, rest: seq<Str>, state: Stack, c: Condition, log: seq<Event>)
    requires WfRest(r)
    ensures Run(tests, RestText(r) + rest, state + [c], log) ==
            Run(tests, rest, state, if c.PendingCondition? then RestMeaning(tests, r, log) else log)
    decreases r
  {
    Keywords([]);
    match r
    case End =>
      RunEnd(tests, rest, state, c, log);
    case Otherwise(els) =>
      var tail := [ENDIF + NEWLINE] + rest;
      assert RestText(r) + rest == [ELSE + NEWLINE] + (Lines(els) + tail);
      RunCons(tests, ELSE + NEWLINE, Lines(els) + tail, state + [c], log);
      hide Run, Classify, Lines;
      var d := if c.PendingCondition? then InCondition else MetCondition;
      assert SetTop(state + [c], d) == state + [d];
      RunDoc(tests, els, tail, state + [d], log);
      RunEnd(tests, rest, state, d, if d.InCondition? then Meaning(tests, els, log) else log);
    case OtherwiseIf(test, thn, r2) =>
      RunElif(tests, r, rest, state, c, log);
  }

  lemma {:induction false} RunElif(tests: Tests, r: Rest, rest: seq<Str>, state: Stack, c: Condition, log: seq<Event>)
    requires WfRest(r) && r.OtherwiseIf?
    ensures Run(tests, RestText(r) + rest, state + [c], log) ==
            Run(tests, rest, state, if c.PendingCondition? then RestMeaning(tests, r, log) else log)
    decreases r, -1
  {
    var tail := RestText(r.rest) + rest;
    var d := if !c.PendingCondition? then MetCondition else if tests(log, r.test) then InCondition else PendingCondition;
    var log1 := if c.PendingCondition? then log + [Tested(r.test)] else log;
    Keywords(r.test);
    assert RestText(r) + rest == [ELIF + r.test + NEWLINE] + (Lines(r.thn) + tail);
    RunCons(tests, ELIF + r.test + NEWLINE, Lines(r.thn) + tail, state + [c], log);
    hide Run, Classify, Lines, RestText;
    assert SetTop(state + [c], d) == state + [d];
    assert c.PendingCondition? && d == c ==> state + [c] == state + [d];
    RunDoc(tests, r.thn, tail, state + [d], log1);
    RunRest(tests, r.rest, rest, state, d, if d.InCondition? then Meaning(tests, r.thn, log1) else log1);
  }

  lemma {:induction false} RunEnd(tests: Tests, rest: seq<Str>, state: Stack, c: Condition, log: seq<Event>)
    ensures Run(tests, [ENDIF + NEWLINE] + rest, state + [c], log) == Run(tests, rest, state, log)
  {
    Keywords([]);
    RunCons(tests, ENDIF + NEWLINE, rest, state + [c], log);
    hide Run, Classify;
    assert (state + [c])[..|state|] == state;
  }

  /** For every well-nested document the filter tests and expands exactly what the document means, in that order, and
      ends with an empty stack. */
  lemma {:induction false} FilterMeans(tests: Tests, doc: seq<Node>)
    requires Wf(doc)
    ensures Run(tests, Lines(doc), [], []) == ([], Meaning(tests, doc, []))
  {
    RunDoc(tests, doc, [], [], []);
    assert Lines(doc) + [] == Lines(doc);
  }
}
