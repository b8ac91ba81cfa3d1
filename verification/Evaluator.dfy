// The evaluator itself: a walk over the flat token stream by position, proved
// against the meaning of the tree that the stream encodes.
module Evaluator {
  import opened Tokens
  import opened Stream
  import opened ValueStack
  import opened Semantics
  import Assigning
  import WordBuilding
  import Parameters
  import Looping

  /** The first joined argument; no argument is one empty word. */
  lemma {:induction false} FirstJoined(env: Env, fuel: nat, args: seq<Expr>, st: State)
    ensures args == [] || args[0].elems == [] ==>
      JoinedArgs(env, fuel, args, st) == JoinedArgsFrom(env, fuel, if args == [] then [] else args[1..], st, [[]])
    ensures args != [] ==>
      var o := Words(env, fuel, args[0], st, true);
      var all := JoinedArgs(env, fuel, args, st);
      if o.ret.Fatal() then all.ret == o.ret && all.st == o.st
      else all == JoinedArgsFrom(env, fuel, args[1..], o.st, o.v)
  {
    if args != [] {
      var o := Words(env, fuel, args[0], st, true);
      assert [] + o.v == o.v;
      if args[0].elems == [] {
        assert Elems(env, fuel, args[0].elems, st, Acc([[]], false), true) == Out(RTrue, st, Acc([[]], false));
      }
    }
  }

  lemma {:induction false} FirstList(env: Env, fuel: nat, args: seq<Expr>, st: State)
    requires args != []
    ensures var o := Words(env, fuel, args[0], st, false);
            var all := ListArgs(env, fuel, args, st, []);
            if o.ret.Fatal() then all.ret == o.ret && all.st == o.st
            else all == ListArgs(env, fuel, args[1..], o.st, [o.v])
  {
    var o := Words(env, fuel, args[0], st, false);
    assert [] + [o.v] == [o.v];
  }

  class QMakeEvaluator {
    const tokens: seq<u16>
    const env: Env
    var valuemapStack: Stack
    var testFunctions: map<Str, nat>
    var replaceFunctions: map<Str, nat>
    var returnValue: seq<Str>
    var log: seq<Event>
    ghost var testBodies: map<Str, seq<Item>>
    ghost var replaceBodies: map<Str, seq<Item>>

    /** Lengths fit in 32 bits, and every function definition is an offset at which its body lies in the stream. */
    ghost predicate Valid()
      reads this
    {
      && |tokens| < 0x1_0000_0000
      && testFunctions.Keys == testBodies.Keys
      && replaceFunctions.Keys == replaceBodies.Keys
      && (forall f | f in testBodies :: ItemsAt(tokens, testFunctions[f], testBodies[f]))
      && (forall f | f in replaceBodies :: ItemsAt(tokens, replaceFunctions[f], replaceBodies[f]))
    }

    ghost function St(): State
      reads this
    {
      State(valuemapStack, testBodies, replaceBodies, returnValue, log)
    }

    constructor (tokens: seq<u16>, env: Env)
      requires |tokens| < 0x1_0000_0000
      ensures Valid() && this.tokens == tokens && this.env == env
      ensures St() == State([map[]], map[], map[], [], [])
    {
      this.tokens, this.env := tokens, env;
      valuemapStack, testFunctions, replaceFunctions, returnValue, log := [map[]], map[], map[], [], [];
      testBodies, replaceBodies := map[], map[];
    }

    // ----- reading strings and lengths ----------------------------------------

    method GetBlockLen(p: nat, ghost n: nat) returns (len: nat, end: nat)
      requires At(tokens, p, EncLen(n)) && n < 0x1_0000_0000
      ensures len == n && end == p + 2
    {
      assert n % 0x1_0000_0000 == n;
      LenRoundTrip(n);
      assert tokens[p] == tokens[p..p + 2][0] && tokens[p + 1] == tokens[p..p + 2][1];
      len, end := DecLen(tokens[p], tokens[p + 1]), p + 2;
    }

    method GetStr(p: nat, ghost s: Str) returns (v: Str, end: nat)
      requires At(tokens, p, EncStr(s)) && FitsStr(s)
      ensures v == s && end == p + |EncStr(s)|
    {
      AtUnit(tokens, p, Low(|s|), s);
      end := p + 1 + tokens[p];
      v := tokens[p + 1..end];
    }

    method SkipStr(p: nat, ghost s: Str) returns (end: nat)
      requires At(tokens, p, EncStr(s)) && FitsStr(s)
      ensures end == p + |EncStr(s)|
    {
      AtUnit(tokens, p, Low(|s|), s);
      end := p + 1 + tokens[p];
    }

    method SkipHashStr(p: nat, ghost h: HStr) returns (end: nat)
      requires At(tokens, p, EncHStr(h)) && FitsStr(h.s)
      ensures end == p + |EncHStr(h)|
    {
      assert EncHStr(h) == [h.lo, h.hi] + EncStr(h.s);
      AtConcat(tokens, p, [h.lo, h.hi], EncStr(h.s));
      end := SkipStr(p + 2, h.s);
    }

    method GetHashStr(p: nat, ghost h: HStr) returns (v: Str, end: nat)
      requires At(tokens, p, EncHStr(h)) && FitsStr(h.s)
      ensures v == h.s && end == p + |EncHStr(h)|
    {
      assert EncHStr(h) == [h.lo, h.hi] + EncStr(h.s);
      AtConcat(tokens, p, [h.lo, h.hi], EncStr(h.s));
      v, end := GetStr(p + 2, h.s);
    }

    // ----- skipping -------------------------------------------------------------

    /** Skips one element without evaluating it. */
    method SkipElement(p: nat, ghost e: Elem) returns (end: nat)
      requires At(tokens, p, EncElem(e)) && WfElem(e)
      ensures end == p + |EncElem(e)|
      decreases e, 1
    {
      ElemAt(tokens, p, e);
      var m := tokens[p] % 0x100;
      if m == LINE {
        end := p + 2;
      } else if m == LITERAL || m == ENV_VAR {
        end := SkipStr(p + 1, e.s);
      } else if m != FUNC_NAME {
        end := SkipHashStr(p + 1, e.h);
      } else {
        FnAt(tokens, p + 1, e);
        end := SkipHashStr(p + 1, e.h);
        end := SkipExpression(end, e.args, FUNC_TERMINATOR);
      }
    }

    method SkipElements(p: nat, ghost es: seq<Elem>) returns (end: nat)
      requires ExprAt(tokens, p, es)
      ensures end == p + |EncElems(es)|
      decreases es, 0
    {
      hide At, EncElem, EncElems, WfElem, WfElems, ExprAt;
      end := p;
      ghost var rest := es;
      ExprHead(tokens, end, rest);
      while !Ends(tokens[end])
        invariant ExprAt(tokens, end, rest) && end + |EncElems(rest)| == p + |EncElems(es)|
        invariant end < |tokens| && (Ends(tokens[end]) <==> rest == [])
        invariant rest == es || (es decreases to rest)
        decreases rest
      {
        ExprHead(tokens, end, rest);
        end := SkipElement(end, rest[0]);
        rest := rest[1..];
        ExprHead(tokens, end, rest);
      }
      ExprHead(tokens, end, rest);
    }

    /** Skips an argument list or a value, with everything nested in it. */
    method SkipExpression(p: nat, ghost args: seq<Expr>, ghost term: u16) returns (end: nat)
      requires ArgsAt(tokens, p, args, term)
      ensures end == p + |EncArgs(args)| + 1
      decreases args, 1
    {
      hide At, EncArgs, WfAll, EncElems, WfElems, ArgsAt, ExprAt;
      ghost var rest := [];
      if args == [] {
        NoArgs(tokens, p, args, term);
      } else {
        ArgStep(tokens, p, args, term);
        rest := args[1..];
      }
      end := SkipElements(p, if args == [] then [] else args[0].elems);
      while tokens[end] == ARG_SEPARATOR
        invariant MoreArgs(tokens, end, rest, term, p + |EncArgs(args)| + 1)
        invariant rest == [] || (args decreases to rest)
        decreases rest
      {
        ArgStep(tokens, end + 1, rest, term);
        end := SkipElements(end + 1, rest[0].elems);
        rest := rest[1..];
      }
      end := end + 1;
    }

    // ----- expressions ----------------------------------------------------------

    method EvaluateElement(fuel: nat, p: nat, a: Acc, joined: bool, ghost e: Elem)
      returns (r: Ret, end: nat, a': Acc)
      requires Valid() && At(tokens, p, EncElem(e)) && WfElem(e)
      modifies this
      ensures Valid()
      ensures var o := Element(env, fuel, e, old(St()), a, joined);
              r == o.ret && St() == o.st && (!r.Fatal() ==> a' == o.v && end == p + |EncElem(e)|)
      decreases fuel, 1, e, 0
    {
      ElemAt(tokens, p, e);
      var tok := tokens[p];
      var m := tok % 0x100;
      var quoted := (tok / 0x100) % 2 == 1;
      r, a' := RTrue, if (tok / 0x200) % 2 == 1 then a.(pending := false) else a;
      if m == LINE {
        end := p + 2;
      } else if m == LITERAL || m == ENV_VAR {
        var v;
        v, end := GetStr(p + 1, e.s);
        a' := AddStr(a', if m == LITERAL then v else env.environ(v), joined);
      } else {
        var v;
        if m == FUNC_NAME {
          FnAt(tokens, p + 1, e);
        }
        v, end := GetHashStr(p + 1, e.h);
        if m == HASH_LITERAL {
          a' := AddStr(a', v, joined);
        } else if m == VARIABLE {
          var l := ValuesOf(env.alias(v));
          a' := AddList(a', l, quoted, joined);
        } else if m == PROPERTY {
          a' := AddStr(a', env.property(v), joined);
        } else {
          var l;
          r, end, l := EvaluateExpandFunction(fuel, v, end, e.args);
          if !r.Fatal() {
            r, a' := RTrue, AddList(a', l, quoted, joined);
          }
        }
      }
    }

    /** The words of an expression; stops in front of the unit after it. */
    method EvaluateExpression(fuel: nat, p: nat, joined: bool, ghost x: Expr)
      returns (r: Ret, end: nat, words: seq<Str>)
      requires Valid() && ExprAt(tokens, p, x.elems)
      modifies this
      ensures Valid()
      ensures var o := Words(env, fuel, x, old(St()), joined);
              r == o.ret && St() == o.st && (!r.Fatal() ==> words == o.v && end == p + |EncExpr(x)|)
      ensures !r.Fatal() ==> words == WordBuilding.Built(WordBuilding.Pieces(env, fuel, x.elems, old(St())).v, joined)
      decreases fuel, 1, x, 1
    {
      hide At, EncElem, EncElems, WfElem, WfElems, ExprAt, Element, WordBuilding.Built, WordBuilding.Pieces;
      WordBuilding.WordsAreBuilt(env, fuel, x, St(), joined);
      end, words := p, [];
      var a := Acc(if joined then [[]] else [], false);
      ghost var rest := x.elems;
      ExprHead(tokens, end, rest);
      while !Ends(tokens[end])
        invariant Valid() && ExprAt(tokens, end, rest) && end + |EncElems(rest)| == p + |EncExpr(x)|
        invariant end < |tokens| && (Ends(tokens[end]) <==> rest == [])
        invariant Elems(env, fuel, x.elems, old(St()), Acc(if joined then [[]] else [], false), joined)
               == Elems(env, fuel, rest, St(), a, joined)
        invariant x.elems == rest || (x.elems decreases to rest)
        decreases rest
      {
        ExprHead(tokens, end, rest);
        r, end, a := EvaluateElement(fuel, end, a, joined, rest[0]);
        if r.Fatal() {
          return;
        }
        rest := rest[1..];
        ExprHead(tokens, end, rest);
      }
      ExprHead(tokens, end, rest);
      r, words := RTrue, a.ret;
    }

    /** The value of an assignment or a loop, up to and past its terminator. */
    method ExpandValue(fuel: nat, p: nat, joined: bool, ghost x: Expr)
      returns (r: Ret, end: nat, words: seq<Str>)
      requires Valid() && ArgsAt(tokens, p, [x], VALUE_TERMINATOR)
      modifies this
      ensures Valid()
      ensures var o := Words(env, fuel, x, old(St()), joined);
              r == o.ret && St() == o.st && (!r.Fatal() ==> words == o.v && end == p + |EncExpr(x)| + 1)
      decreases fuel, 1, x, 2
    {
      hide WordBuilding.Built, WordBuilding.Pieces;
      LastArg(tokens, p, [x], VALUE_TERMINATOR);
      r, end, words := EvaluateExpression(fuel, p, joined, x);
      end := end + 1;
    }

    /** Arguments of a built-in function: one joined word each. */
    method ExpandVariableReferences(fuel: nat, p: nat, ghost args: seq<Expr>)
      returns (r: Ret, end: nat, words: seq<Str>)
      requires Valid() && ArgsAt(tokens, p, args, FUNC_TERMINATOR)
      modifies this
      ensures Valid()
      ensures var o := JoinedArgs(env, fuel, args, old(St()));
              r == o.ret && St() == o.st && (!r.Fatal() ==> words == o.v && end == p + |EncArgs(args)| + 1)
      decreases fuel, 1, args, 1
    {
      hide At, EncArgs, WfAll, ExprAt, EncElems, WfElems, ArgsAt, Elems, WordBuilding.Built, WordBuilding.Pieces;
      r, end, words := RTrue, p, [[]];
      ghost var rest := [];
      FirstJoined(env, fuel, args, St());
      if args == [] {
        NoArgs(tokens, p, args, FUNC_TERMINATOR);
      } else {
        ArgStep(tokens, p, args, FUNC_TERMINATOR);
        ExprHead(tokens, p, args[0].elems);
        rest := args[1..];
      }
      if !Ends(tokens[p]) {
        r, end, words := EvaluateExpression(fuel, p, true, args[0]);
        if r.Fatal() {
          return;
        }
      }
      while tokens[end] == ARG_SEPARATOR
        invariant Valid() && MoreArgs(tokens, end, rest, FUNC_TERMINATOR, p + |EncArgs(args)| + 1)
        invariant JoinedArgs(env, fuel, args, old(St())) == JoinedArgsFrom(env, fuel, rest, St(), words)
        invariant rest == [] || (args decreases to rest)
        decreases rest
      {
        var word;
        ArgStep(tokens, end + 1, rest, FUNC_TERMINATOR);
        r, end, word := EvaluateExpression(fuel, end + 1, true, rest[0]);
        if r.Fatal() {
          return;
        }
        words, rest := words + word, rest[1..];
      }
      r, end := RTrue, end + 1;
    }

    /** Arguments of a user function: one list each. */
    method PrepareFunctionArgs(fuel: nat, p: nat, ghost args: seq<Expr>)
      returns (r: Ret, end: nat, lists: seq<seq<Str>>)
      requires Valid() && ArgsAt(tokens, p, args, FUNC_TERMINATOR) && WfArgs(args)
      modifies this
      ensures Valid()
      ensures var o := ListArgs(env, fuel, args, old(St()), []);
              r == o.ret && St() == o.st && (!r.Fatal() ==> lists == o.v && end == p + |EncArgs(args)| + 1)
      decreases fuel, 1, args, 1
    {
      hide At, EncArgs, WfAll, ExprAt, EncElems, WfElems, ArgsAt, Elems, WordBuilding.Built, WordBuilding.Pieces;
      r, end, lists := RTrue, p, [];
      ArgsStart(tokens, p, args, FUNC_TERMINATOR);
      if tokens[p] != FUNC_TERMINATOR {
        var words;
        ghost var rest := args[1..];
        FirstList(env, fuel, args, St());
        ArgStep(tokens, p, args, FUNC_TERMINATOR);
        r, end, words := EvaluateExpression(fuel, p, false, args[0]);
        if r.Fatal() {
          return;
        }
        lists := [words];
        while tokens[end] == ARG_SEPARATOR
          invariant Valid() && MoreArgs(tokens, end, rest, FUNC_TERMINATOR, p + |EncArgs(args)| + 1)
          invariant ListArgs(env, fuel, args, old(St()), []) == ListArgs(env, fuel, rest, St(), lists)
          invariant args decreases to rest
          decreases rest
        {
          ArgStep(tokens, end + 1, rest, FUNC_TERMINATOR);
          r, end, words := EvaluateExpression(fuel, end + 1, false, rest[0]);
          if r.Fatal() {
            return;
          }
          lists, rest := lists + [words], rest[1..];
        }
      }
      r, end := RTrue, end + 1;
    }

    // ----- function calls -------------------------------------------------------

    method EvaluateFunction(fuel: nat, p: nat, lists: seq<seq<Str>>, ghost body: seq<Item>)
      returns (r: Ret, value: seq<Str>)
      requires Valid() && ItemsAt(tokens, p, body)
      modifies this
      ensures Valid()
      ensures var o := CallUser(env, fuel, body, lists, old(St())); r == o.ret && St() == o.st && value == o.v
      ensures fuel > 0 ==> Parameters.Called(env, fuel, body, lists, old(St()), Out(r, St(), value))
      decreases fuel, 0
    {
      hide Parameters.Called, ArgFrame;
      if fuel > 0 {
        Parameters.UserCalled(env, fuel, body, lists, St());
      }
      value := [];
      if |valuemapStack| >= MAX_DEPTH {
        r := RError;
      } else if fuel == 0 {
        r := ROverflow;
      } else {
        valuemapStack := Push(valuemapStack, ArgFrame(lists));
        r := VisitProBlock(fuel - 1, p, body);
        if r == RReturn {
          r := RTrue;
        }
        if r == RTrue {
          value := returnValue;
        }
        returnValue := [];
        valuemapStack := Pop(valuemapStack);
      }
    }

    method EvaluateExpandFunction(fuel: nat, name: Str, p: nat, ghost args: seq<Expr>)
      returns (r: Ret, end: nat, l: seq<Str>)
      requires Valid() && ArgsAt(tokens, p, args, FUNC_TERMINATOR) && WfArgs(args)
      modifies this
      ensures Valid()
      ensures var o := Expand(env, fuel, name, args, old(St()));
              r == o.ret && St() == o.st && (!r.Fatal() ==> l == o.v && end == p + |EncArgs(args)| + 1)
      decreases fuel, 1, args, 2
    {
      hide Parameters.Called;
      l := [];
      if env.isExpand(name) {
        var words;
        r, end, words := ExpandVariableReferences(fuel, p, args);
        if !r.Fatal() {
          var v := env.expand(name, words, valuemapStack);
          r, l := if v.None? then RError else RTrue, if v.None? then [] else v.value;
        }
      } else if name in replaceFunctions {
        var lists;
        ghost var body := replaceBodies[name];
        var at := replaceFunctions[name];
        r, end, lists := PrepareFunctionArgs(fuel, p, args);
        if !r.Fatal() {
          r, l := EvaluateFunction(fuel, at, lists, body);
        }
      } else {
        end := SkipExpression(p, args, FUNC_TERMINATOR);
        r := RFalse;
      }
    }

    /** A test function call. */
    method EvaluateConditionalFunction(fuel: nat, name: Str, p: nat, ghost args: seq<Expr>)
      returns (r: Ret, end: nat)
      requires Valid() && ArgsAt(tokens, p, args, FUNC_TERMINATOR) && WfArgs(args)
      modifies this
      ensures Valid()
      ensures Result(r, St()) == Test(env, fuel, name, args, old(St()))
      ensures r.Plain() ==> end == p + |EncArgs(args)| + 1
      decreases fuel, 1, args, 2
    {
      hide Parameters.Called;
      if IsTest(env, name) {
        var words;
        r, end, words := ExpandVariableReferences(fuel, p, args);
        if !r.Fatal() {
          r := EvaluateBuiltinConditional(name, words);
        }
      } else if name in testFunctions {
        var lists, value;
        ghost var body := testBodies[name];
        var at := testFunctions[name];
        r, end, lists := PrepareFunctionArgs(fuel, p, args);
        if !r.Fatal() {
          log := log + [User(name, lists)];
          r, value := EvaluateFunction(fuel, at, lists, body);
          r := TruthOf(env, r, value);
        }
      } else {
        end := SkipExpression(p, args, FUNC_TERMINATOR);
        log := log + [Unknown(name)];
        r := RFalse;
      }
    }

    method EvaluateBuiltinConditional(name: Str, args: seq<Str>) returns (r: Ret)
      requires Valid()
      modifies this`log, this`valuemapStack
      ensures Valid()
      ensures Result(r, St()) == BuiltinCall(env, name, args, old(St()))
    {
      log := log + [Builtin(name, args)];
      if name == EXPORT {
        r := RFalse;
        if |args| == 1 {
          ExportVariable(env.alias(args[0]));
          r := RTrue;
        }
      } else if name == UNSET {
        r := RFalse;
        if |args| == 1 {
          var found := UnsetVariable(env.alias(args[0]));
          r := Bool(found);
        }
      } else {
        var t := env.test(name, args, valuemapStack);
        valuemapStack := SetAll(valuemapStack, t.sets);
        r := if t.result.None? then RError else Bool(t.result.value);
      }
    }

    // ----- variables ------------------------------------------------------------

    /** The visible value of a name, searched for from the innermost frame. */
    method ValuesOf(name: Str) returns (l: seq<Str>)
      ensures l == Values(valuemapStack, name)
    {
      var s := valuemapStack;
      var vmi := |s| - 1;
      while name !in s[vmi]
        invariant 0 <= vmi < |s|
        invariant vmi == |s| - 1 || !IsFunctParam(name)
        invariant Innermost(s, |s|, name) == Innermost(s, vmi + 1, name)
        invariant vmi < |s| - 1 ==> name !in Top(s)
        decreases vmi
      {
        if vmi == 0 || (vmi == |s| - 1 && IsFunctParam(name)) {
          return [];
        }
        vmi := vmi - 1;
      }
      l := Deref(s[vmi][name]);
    }

    /** The frame with a live binding of a name, or -1. */
    method FindValues(name: Str) returns (at: int)
      ensures at == (var i := Binding(valuemapStack, name); if i >= 0 && valuemapStack[i][name].Vals? then i else -1)
    {
      var s := valuemapStack;
      at := |s| - 1;
      while name !in s[at]
        invariant 0 <= at < |s|
        invariant at == |s| - 1 || !IsFunctParam(name)
        invariant Innermost(s, |s|, name) == Innermost(s, at + 1, name)
        invariant at < |s| - 1 ==> name !in Top(s)
        decreases at
      {
        if at == 0 || (at == |s| - 1 && IsFunctParam(name)) {
          return -1;
        }
        at := at - 1;
      }
      if s[at][name].Fake? {
        at := -1;
      }
    }

    /** Moves the innermost binding of a name, if above the global frame, into the global frame. */
    method ExportVariable(name: Str)
      modifies this`valuemapStack
      ensures valuemapStack == Export(old(valuemapStack), name)
    {
      var s := valuemapStack;
      var vmi := |s| - 1;
      while vmi > 0 && name !in s[vmi]
        invariant 0 <= vmi < |s|
        invariant forall k | vmi < k < |s| :: name !in s[k]
        invariant Innermost(s, |s|, name) == Innermost(s, vmi + 1, name)
      {
        vmi := vmi - 1;
      }
      if vmi > 0 {
        valuemapStack := s[0 := s[0][name := Vals(Deref(s[vmi][name]))]][vmi := s[vmi] - {name}];
        ghost var found := vmi;
        vmi := vmi - 1;
        while vmi > 0
          invariant 0 <= vmi < found && |valuemapStack| == |s|
          invariant valuemapStack[0] == s[0][name := Vals(Deref(s[found][name]))]
          invariant forall k | 0 < k < |s| :: valuemapStack[k] == if vmi < k <= found then s[k] - {name} else s[k]
        {
          valuemapStack := valuemapStack[vmi := valuemapStack[vmi] - {name}];
          vmi := vmi - 1;
        }
        assert forall k | found < k < |s| :: s[k] - {name} == s[k];
        assert valuemapStack == Export(s, name);
      }
    }

    method UnsetVariable(name: Str) returns (found: bool)
      modifies this`valuemapStack
      ensures (found, valuemapStack) == Unset(old(valuemapStack), name)
    {
      var at := FindValues(name);
      found := at >= 0;
      if found {
        if |valuemapStack| == 1 {
          valuemapStack := [valuemapStack[0] - {name}];
        } else {
          valuemapStack := SetTop(valuemapStack, name, Fake);
        }
      }
    }

    /** Makes the top frame bind a name to its visible value. */
    method ValuesRef(name: Str)
      modifies this`valuemapStack
      ensures valuemapStack == Materialize(old(valuemapStack), name)
    {
      if name !in Top(valuemapStack) || Top(valuemapStack)[name].Fake? {
        var l := ValuesOf(name);
        valuemapStack := SetTop(valuemapStack, name, Vals(l));
      }
    }

    method AssignVariable(name: Str, op: AssignOp, vals: seq<Str>)
      modifies this`valuemapStack
      ensures valuemapStack == AssignTo(env, name, op, vals, old(valuemapStack))
      ensures Assigning.Assigned(env, name, op, vals, old(valuemapStack), valuemapStack)
    {
      hide Assigning.Assigned;
      Assigning.OperatorMakes(env, name, op, vals, valuemapStack);
      var was := ValuesOf(name);
      var now := vals;
      SetMaterialized(valuemapStack, name);
      match op {
        case Set =>
          now := RemoveEmpty(vals);
        case Append =>
          ValuesRef(name);
          now := was + RemoveEmpty(vals);
        case AppendUnique =>
          ValuesRef(name);
          now := InsertUnique(was, vals);
        case Remove =>
          ValuesRef(name);
          now := RemoveEach(was, vals);
        case Replace =>
          var l := env.substitute(Last(vals), was);
          if l.None? {
            return;
          }
          ValuesRef(name);
          now := l.value;
      }
      valuemapStack := SetTop(valuemapStack, name, Vals(env.hook(name, now)));
    }

    /** An assignment; `p` is at the size hint after the operator. */
    method VisitProVariable(fuel: nat, curr: seq<Str>, op: AssignOp, p: nat, ghost hint: u16, ghost rhs: Expr)
      returns (r: Ret, end: nat)
      requires Valid() && At(tokens, p, [hint] + (EncArgs([rhs]) + [VALUE_TERMINATOR])) && WfExpr(rhs)
      modifies this
      ensures Valid()
      ensures Result(r, St()) == Assignment(env, fuel, curr, op, rhs, old(St()))
      ensures |curr| == 1 && r.RTrue? ==>
                var o := Words(env, fuel, rhs, old(St()), op.Replace?);
                Assigning.Assigned(env, env.alias(curr[0]), op, o.v, o.st.stack, valuemapStack)
      ensures r.Plain() ==> end == p + 1 + |EncArgs([rhs])| + 1
      decreases fuel, 1, rhs, 3
    {
      hide Assigning.Assigned;
      AtUnit(tokens, p, hint, EncArgs([rhs]) + [VALUE_TERMINATOR]);
      OneArg(rhs);
      assert WfAll([rhs]);
      if |curr| != 1 {
        end := SkipExpression(p + 1, [rhs], VALUE_TERMINATOR);
        r := RTrue;
      } else {
        var vals;
        r, end, vals := ExpandValue(fuel, p + 1, op.Replace?, rhs);
        if !r.Fatal() {
          AssignVariable(env.alias(curr[0]), op, vals);
          r := RTrue;
        }
      }
    }

    // ----- blocks ---------------------------------------------------------------

    /** A block from its start, up to its terminator. */
    method VisitProBlock(fuel: nat, p: nat, ghost items: seq<Item>) returns (r: Ret)
      requires Valid() && ItemsAt(tokens, p, items)
      modifies this
      ensures Valid()
      ensures Result(r, St()) == Visit(env, fuel, items, Flags(true, false, false), old(St()))
      decreases fuel, 1, items, 0
    {
      hide At, EncItem, EncItems, WfItem, WfItems, ItemsAt, Semantics.Step;
      var q: nat, f := p, Flags(true, false, false);
      ghost var rest := items;
      ItemsStep(tokens, q, rest);
      while tokens[q] != TERMINATOR
        invariant Valid() && ItemsAt(tokens, q, rest) && q < |tokens| && (tokens[q] == TERMINATOR <==> rest == [])
        invariant Visit(env, fuel, items, Flags(true, false, false), old(St())) == Visit(env, fuel, rest, f, St())
        invariant items == rest || (items decreases to rest)
        decreases rest
      {
        ItemsStep(tokens, q, rest);
        r, q, f := VisitItem(fuel, q, f, rest[0]);
        if !r.Plain() {
          return;
        }
        rest := rest[1..];
        ItemsStep(tokens, q, rest);
      }
      r := Bool(f.okey);
    }

    method VisitItem(fuel: nat, p: nat, f: Flags, ghost i: Item) returns (r: Ret, end: nat, f': Flags)
      requires Valid() && At(tokens, p, EncItem(i)) && WfItem(i)
      modifies this
      ensures Valid()
      ensures var s := Semantics.Step(env, fuel, i, f, old(St()));
              r == s.res.ret && St() == s.res.st && (r.Plain() ==> f' == s.flags && end == p + |EncItem(i)|)
      decreases fuel, 1, i, 4
    {
      hide At, EncItem, WfItem, EncElems, WfElems, ExprAt, ItemRest, Act, WordBuilding.Built, WordBuilding.Pieces;
      ItemAt(tokens, p, i);
      ItemStart(tokens, p, i);
      var curr: seq<Str> := [];
      end, f' := p, f;
      if HasHead(i) && Head(i).elems == [] {
        EmptyHead(env, fuel, Head(i), St());
      }
      if !Ends(tokens[p]) && tokens[p] != LINE {
        r, end, curr := EvaluateExpression(fuel, p, false, Head(i));
        if r.Fatal() {
          return;
        }
      }
      r, end, f' := ActOn(fuel, end, curr, f, i);
    }

    /** An item's own token, with `curr` the words in front of it. */
    method ActOn(fuel: nat, p: nat, curr: seq<Str>, f: Flags, ghost i: Item) returns (r: Ret, end: nat, f': Flags)
      requires Valid() && p < |tokens| && tokens[p] == ItemTok(i) && At(tokens, p + 1, ItemRest(i)) && WfItem(i)
      modifies this
      ensures Valid()
      ensures var s := Act(env, fuel, i, curr, f, old(St()));
              r == s.res.ret && St() == s.res.st && (r.Plain() ==> f' == s.flags && end == p + 1 + |ItemRest(i)|)
      decreases fuel, 1, i, 3
    {
      hide At, Assignment, Visit, Loop, Test, Words, EncArgs, EncBody, EncHStr;
      var tok := tokens[p];
      r, end, f' := RTrue, p + 1, f;
      if tok == LINE {
        end := p + 2;
      } else if tok <= REPLACE {
        r, end := VisitProVariable(fuel, curr, OpOf(tok), p + 1, i.hint, i.rhs);
      } else if tok == CONDITION {
        f' := VisitCondition(curr, f);
      } else if tok == TEST_CALL {
        r, end, f' := VisitTestCall(fuel, p + 1, curr, f, i.args);
      } else if tok == NOT {
        f' := f.(invert := !f.invert);
      } else if tok == AND {
        f' := f.(orOp := false);
      } else if tok == OR {
        f' := f.(orOp := true);
      } else if tok <= NEXT {
        if tok == RETURN {
          returnValue := curr;
        }
        if f.Live() {
          r := if tok == RETURN then RReturn else if tok == BREAK then RBreak else RNext;
        } else {
          f' := f.(okey := false, orOp := true);
        }
      } else {
        r, end := VisitStructure(fuel, p, f, i);
        f' := f.(okey := true, orOp := false);
      }
    }

    method VisitCondition(curr: seq<Str>, f: Flags) returns (f': Flags)
      requires Valid()
      modifies this`log
      ensures Valid()
      ensures StepOut(Result(RTrue, St()), f') == Act(env, 0, Item.Cond(Expr.Expr([])), curr, f, old(St()))
    {
      var okey := f.okey;
      if f.Live() {
        if |curr| != 1 {
          okey := false;
        } else {
          okey := env.active(curr[0], valuemapStack) != f.invert;
          log := log + [Event.Tested(curr[0])];
        }
      }
      f' := f.Tested(okey);
    }

    method VisitTestCall(fuel: nat, p: nat, curr: seq<Str>, f: Flags, ghost args: seq<Expr>)
      returns (r: Ret, end: nat, f': Flags)
      requires Valid() && ArgsAt(tokens, p, args, FUNC_TERMINATOR) && WfArgs(args)
      modifies this
      ensures Valid()
      ensures var s := Act(env, fuel, Item.Call(Expr.Expr([]), args), curr, f, old(St()));
              r == s.res.ret && St() == s.res.st && (r.Plain() ==> f' == s.flags && end == p + |EncArgs(args)| + 1)
      decreases fuel, 1, args, 3
    {
      hide Test;
      var okey := f.okey;
      r := RTrue;
      if !f.Live() {
        end := SkipExpression(p, args, FUNC_TERMINATOR);
      } else if |curr| != 1 {
        end := SkipExpression(p, args, FUNC_TERMINATOR);
        okey := false;
      } else {
        r, end := EvaluateConditionalFunction(fuel, curr[0], p, args);
        okey := (r == RTrue) != f.invert;
      }
      f' := f.Tested(okey);
    }

    /** Branches, loops, definitions and bypassNesting blocks: the items with nested blocks. */
    method VisitStructure(fuel: nat, p: nat, f: Flags, ghost i: Item) returns (r: Ret, end: nat)
      requires Valid() && p < |tokens| && tokens[p] == ItemTok(i) && At(tokens, p + 1, ItemRest(i)) && WfItem(i)
      requires i.Branch? || i.For? || i.Def? || i.Bypass?
      modifies this
      ensures Valid()
      ensures Result(r, St()) == Act(env, fuel, i, [], f, old(St())).res
      ensures r.Plain() ==> end == p + 1 + |ItemRest(i)|
      decreases fuel, 1, i, 2
    {
      hide At, WfItems, ItemsAt, EncItems, EncHStr, Visit, Loop;
      r, end := RTrue, p + 1;
      var tok := tokens[p];
      var len;
      if tok == BRANCH {
        r, end := VisitBranch(fuel, end, f, i);
      } else if tok == FOR_LOOP {
        r, end := VisitFor(fuel, end, f, i);
      } else if tok == BYPASS_NESTING {
        BodyAt(tokens, end, i.body);
        len, end := GetBlockLen(end, |EncItems(i.body)| + 1);
        if f.Live() && len != 0 {
          r := VisitBypass(fuel, end, i.body);
        }
        end := end + len;
      } else {
        var name;
        DefAt(tokens, end, i);
        name, end := GetHashStr(end, i.name);
        len, end := GetBlockLen(end, |EncItems(i.body)| + 1);
        if f.Live() {
          VisitProFunctionDef(tok == TEST_DEF, name, end, i.body);
        }
        end := end + len;
      }
    }

    method VisitBranch(fuel: nat, p: nat, f: Flags, ghost i: Item) returns (r: Ret, end: nat)
      requires Valid() && i.Branch? && At(tokens, p, ItemRest(i)) && WfItem(i)
      modifies this
      ensures Valid()
      ensures Result(r, St()) == VisitBlock(env, fuel, if f.okey then i.thn else i.els, old(St()))
      ensures end == p + |ItemRest(i)|
      decreases fuel, 1, i, 0
    {
      hide At, WfItem, WfItems, ItemsAt, EncItems, Visit;
      r, end := RTrue, p;
      var len;
      BranchAt(tokens, end, i);
      len, end := GetBlockLen(end, BlockLen(i.thn));
      if f.okey && len != 0 {
        r := VisitProBlock(fuel, end, i.thn.items);
      }
      end := end + len;
      len, end := GetBlockLen(end, BlockLen(i.els));
      if !f.okey && len != 0 {
        r := VisitProBlock(fuel, end, i.els.items);
      }
      end := end + len;
    }

    method VisitProFunctionDef(isTest: bool, name: Str, p: nat, ghost body: seq<Item>)
      requires Valid() && ItemsAt(tokens, p, body)
      modifies this`testFunctions, this`replaceFunctions, this`testBodies, this`replaceBodies
      ensures Valid()
      ensures St() == Define(isTest, name, body, old(St()))
    {
      if isTest {
        testFunctions, testBodies := testFunctions[name := p], testBodies[name := body];
      } else {
        replaceFunctions, replaceBodies := replaceFunctions[name := p], replaceBodies[name := body];
      }
    }

    /** The stack is cut down to the global frame for the block, and put together again after it. */
    method VisitBypass(fuel: nat, p: nat, ghost body: seq<Item>) returns (r: Ret)
      requires Valid() && ItemsAt(tokens, p, body)
      modifies this
      ensures Valid()
      ensures Result(r, St()) == VisitGlobally(env, fuel, body, old(St()))
      decreases fuel, 1, body, 1
    {
      var saved := valuemapStack[1..];
      valuemapStack := [valuemapStack[0]];
      r := VisitProBlock(fuel, p, body);
      valuemapStack := [valuemapStack[0]] + saved;
    }

    method VisitFor(fuel: nat, p: nat, f: Flags, ghost i: Item) returns (r: Ret, end: nat)
      requires Valid() && i.For? && At(tokens, p, ItemRest(i)) && WfItem(i)
      modifies this
      ensures Valid()
      ensures Result(r, St()) == if f.Live() then Loop(env, fuel, i.name, i.list, i.body, old(St())) else Result(RTrue, old(St()))
      ensures end == p + |ItemRest(i)|
      decreases fuel, 1, i, 1
    {
      hide At, WfItem, WfItems, ItemsAt, EncItems, EncHStr, EncBody, Visit, Loop, ItemRest;
      ForAt(tokens, p, i);
      ghost var e := |EncExpr(i.list)| + 1;
      BodyAt(tokens, p + |EncHStr(i.name)| + 2 + e, i.body);
      var name, exprLen, len;
      name, end := GetHashStr(p, i.name);
      exprLen, end := GetBlockLen(end, e);
      var exprPtr := end;
      len, end := GetBlockLen(end + exprLen, |EncItems(i.body)| + 1);
      r := RTrue;
      if f.Live() {
        assert i == Item.For(i.name, i.list, i.body);
        r := VisitProLoop(fuel, name, exprPtr, end, i.name, i.list, i.body);
      }
      end := end + len;
    }

    method VisitProLoop(fuel: nat, name: Str, exprPtr: nat, p: nat, ghost h: HStr, ghost x: Expr, ghost body: seq<Item>)
      returns (r: Ret)
      requires Valid() && name == h.s
      requires ArgsAt(tokens, exprPtr, [x], VALUE_TERMINATOR) && ItemsAt(tokens, p, body)
      modifies this
      ensures Valid()
      ensures Result(r, St()) == Loop(env, fuel, h, x, body, old(St()))
      ensures Looping.Looped(env, fuel, h, x, body, old(St()), Result(r, St()))
      decreases fuel, 1, Item.For(h, x, body), 0
    {
      hide At, ArgsAt, ItemsAt, Words, Visit, Iterate, Range, Looping.Looped;
      Looping.LoopRuns(env, fuel, h, x, body, St());
      var words, end;
      r, end, words := ExpandValue(fuel, exprPtr, true, x);
      if r.Fatal() {
        return;
      }
      var key := Last(words);
      var variable: Str := [];
      if name == [] {
        if key != EVER {
          r := RFalse;
          return;
        }
        key := FOREVER;
      } else {
        variable := env.alias(name);
      }
      var was := ValuesOf(variable);
      var list := ValuesOf(key);
      var endless := list == [] && key == FOREVER;
      if list == [] {
        list := Range(env, key);
      }
      r := RunLoop(fuel, variable, endless, list, p, body);
      if variable != [] {
        valuemapStack := SetTop(valuemapStack, variable, Vals(was));
      }
    }

    method RunLoop(fuel: nat, variable: Str, endless: bool, list: seq<Str>, p: nat, ghost body: seq<Item>)
      returns (r: Ret)
      requires Valid() && ItemsAt(tokens, p, body)
      modifies this
      ensures Valid()
      ensures Result(r, St()) == Iterate(env, fuel, variable, endless, list, 0, body, RTrue, old(St()))
      decreases fuel, 1, body, 1
    {
      hide At, ItemsAt, Visit, BindLoopVar;
      var index := 0;
      r := RTrue;
      while true
        invariant Valid() && r.Plain() && (endless ==> index <= MAX_ITERATIONS)
        invariant Iterate(env, fuel, variable, endless, list, 0, body, RTrue, old(St()))
               == Iterate(env, fuel, variable, endless, list, index, body, r, St())
        decreases if endless then MAX_ITERATIONS - index else |list| - index
      {
        valuemapStack := BindLoopVar(valuemapStack, variable, endless, list, index);
        if if endless then index == MAX_ITERATIONS else index >= |list| {
          return;
        }
        index := index + 1;
        if endless || list[index - 1] != [] {
          r := VisitProBlock(fuel, p, body);
          if r == RNext {
            r := RTrue;
          } else if r == RBreak {
            r := RTrue;
            return;
          } else if !r.Plain() {
            return;
          }
        }
      }
    }
  }

  lemma {:induction false} EmptyHead(env: Env, fuel: nat, x: Expr, st: State)
    requires x.elems == []
    ensures Words(env, fuel, x, st, false) == Out(RTrue, st, [])
  {
  }

  function OpOf(tok: u16): AssignOp {
    if tok == ASSIGN then Set
    else if tok == APPEND then Append
    else if tok == APPEND_UNIQUE then AppendUnique
    else if tok == REMOVE then Remove
    else Replace
  }
}
