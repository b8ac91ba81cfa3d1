// The parser's writing side: scopes that append to one flat buffer and have
// their lengths patched in when they are left, proved against the scope machine.
module Parser {
  import opened Tokens
  import opened ScopeMachine
  import opened ScopeInvariant

  // ----- the code of open scopes ------------------------------------------------

  /** What opening a scope appends, up to its length field. */
  function Stem(o: Opener): seq<u16> {
    match o
    case Root => []
    case ThenOf => []
    case ElseOf(thn) => [BRANCH] + EncBlock(thn)
    case BodyOf(name, list) =>
      [FOR_LOOP] + EncHStr(name) + EncLen(|EncExpr(list)| + 1) + EncExpr(list) + [VALUE_TERMINATOR]
    case DefOf(isTest, name) => [if isTest then TEST_DEF else REPLACE_DEF] + EncHStr(name)
    case BypassOf => [BYPASS_NESTING]
  }

  /** The length field of a scope, not yet filled in. */
  function Gap(o: Opener): seq<u16> { if o.Root? then [] else [0, 0] }

  function ForkCode(f: Fork): seq<u16> {
    match f
    case NoFork => []
    case ThenOpen => [BRANCH]
    case ElseDue(thn) => [BRANCH] + EncBlock(thn)
  }

  function ScopeCode(s: Scope): seq<u16> {
    Stem(s.open) + Gap(s.open) + EncItems(s.items) + ForkCode(s.fork)
  }

  function Code(s: seq<Scope>): seq<u16> {
    if s == [] then [] else Code(s[..|s| - 1]) + ScopeCode(s[|s| - 1])
  }

  lemma {:induction false} EncAppend(a: seq<Item>, b: seq<Item>)
    ensures EncItems(a + b) == EncItems(a) + EncItems(b)
  {
    if a == [] {
      assert a + b == b;
    } else {
      assert (a + b)[1..] == a[1..] + b;
      EncAppend(a[1..], b);
    }
  }

  lemma {:induction false} EncOne(i: Item)
    ensures EncItems([i]) == EncItem(i)
  {
    assert [i][1..] == [];
  }

  lemma {:induction false} AddItemCode(t: Scope, i: Item)
    requires t.fork.NoFork?
    ensures ScopeCode(AddItem(t, i)) == ScopeCode(t) + EncItem(i)
  {
    EncAppend(t.items, [i]);
    EncOne(i);
  }

  /** An else block that is due is put as an empty one. */
  lemma {:induction false} CloseForkCode(t: Scope)
    requires t.fork.ElseDue?
    ensures ScopeCode(CloseFork(t)) == ScopeCode(t) + EncLen(0)
    ensures EncItems(CloseFork(t).items) == EncItems(t.items) + ForkCode(t.fork) + EncLen(0)
  {
    EncAppend(t.items, [Branch(t.fork.thn, NoBlock)]);
    EncOne(Branch(t.fork.thn, NoBlock));
  }

  lemma {:induction false} LeftItemCode(open: Opener, body: seq<Item>)
    requires !open.Root? && !open.ThenOf?
    ensures EncItem(LeftItem(open, body)) == Stem(open) + EncBody(body)
  {
    assert EncBlock(Block.Block(body)) == EncBody(body);
  }

  /** What a left scope has become in its parent: the stem, the patched length and the block. */
  lemma {:induction false} AbsorbCode(parent: Scope, open: Opener, body: seq<Item>)
    requires !open.Root?
    requires if open.ThenOf? then parent.fork.ThenOpen? else parent.fork.NoFork?
    ensures ScopeCode(Absorb(parent, open, body)) == ScopeCode(parent) + (Stem(open) + EncBody(body))
  {
    if open.ThenOf? {
      ThenCode(parent, body);
    } else {
      LeftItemCode(open, body);
      AddItemCode(parent, LeftItem(open, body));
    }
  }

  lemma {:induction false} ThenCode(parent: Scope, body: seq<Item>)
    requires parent.fork.ThenOpen?
    ensures ScopeCode(Absorb(parent, ThenOf, body)) == ScopeCode(parent) + (Stem(ThenOf) + EncBody(body))
  {
    var front := Stem(parent.open) + Gap(parent.open) + EncItems(parent.items);
    assert EncBlock(Block.Block(body)) == EncBody(body);
    assert ScopeCode(parent) == front + [BRANCH];
    assert ScopeCode(Absorb(parent, ThenOf, body)) == front + ([BRANCH] + EncBody(body));
    assert Stem(ThenOf) + EncBody(body) == EncBody(body);
    hide *;
    Assoc(front, [BRANCH], EncBody(body));
  }

  /** Patching a length over the gap in front of it. */
  lemma {:induction false} PatchCode(before: seq<u16>, after: seq<u16>, n: nat)
    ensures (before + [0, 0] + after)[|before| := Low(n)][|before| + 1 := Low(n / 0x1_0000)]
         == before + EncLen(n) + after
  {
  }

  datatype BlockScope = BlockScope(start: Option<nat>, braceLevel: nat, special: bool, inBranch: bool,
                                   nestLoop: bool, nestFunction: bool)

  /** The parser's block for a scope on top of code of length `at`: its start is its length field. */
  function BlockOf(s: Scope, at: nat): BlockScope {
    BlockScope(if s.open.Root? then None else Some(at + |Stem(s.open)|), s.brace, s.special, !s.fork.NoFork?,
               s.inLoop, s.inFunction)
  }

  function Blocks(s: seq<Scope>): (bs: seq<BlockScope>)
    ensures |bs| == |s|
  {
    if s == [] then []
    else Blocks(s[..|s| - 1]) + [BlockOf(s[|s| - 1], |Code(s[..|s| - 1])|)]
  }

  /** The scopes below the top. */
  function Below(s: Scopes): seq<Scope> { s[..|s| - 1] }

  lemma {:induction false} OnTop(low: seq<Scope>, t: Scope)
    ensures Code(low + [t]) == Code(low) + ScopeCode(t)
    ensures Blocks(low + [t]) == Blocks(low) + [BlockOf(t, |Code(low)|)]
  {
    assert (low + [t])[..|low|] == low;
  }

  lemma {:induction false} Split(s: Scopes)
    ensures s == Below(s) + [ScopeMachine.Top(s)]
    ensures Code(s) == Code(Below(s)) + ScopeCode(ScopeMachine.Top(s))
    ensures Blocks(s) == Blocks(Below(s)) + [BlockOf(ScopeMachine.Top(s), |Code(Below(s))|)]
  {
  }

  /** The top scope replaced. */
  lemma {:induction false} Replaced(s: Scopes, t: Scope)
    ensures Code(WithTop(s, t)) == Code(Below(s)) + ScopeCode(t)
    ensures Blocks(WithTop(s, t)) == Blocks(Below(s)) + [BlockOf(t, |Code(Below(s))|)]
  {
    assert WithTop(s, t) == Below(s) + [t];
    OnTop(Below(s), t);
  }

  /** One more item in the top scope. */
  lemma {:induction false} PutLaid(s: Scopes, i: Item)
    requires ScopeMachine.Top(s).fork.NoFork?
    ensures Blocks(WithTop(s, AddItem(ScopeMachine.Top(s), i))) == Blocks(s)
    ensures Code(WithTop(s, AddItem(ScopeMachine.Top(s), i))) == Code(s) + EncItem(i)
  {
    var t := ScopeMachine.Top(s);
    hide Code, Blocks, ScopeCode, EncItem, Below, WithTop;
    Split(s);
    Replaced(s, AddItem(t, i));
    AddItemCode(t, i);
    Assoc(Code(Below(s)), ScopeCode(t), EncItem(i));
  }

  /** A scope's code once its pending else block is put. */
  lemma {:induction false} ClosedCode(t: Scope)
    requires !t.fork.ThenOpen? && !t.open.Root?
    ensures ScopeCode(t) + (if t.fork.NoFork? then [] else EncLen(0))
         == Stem(t.open) + [0, 0] + EncItems(CloseFork(t).items)
  {
    if t.fork.ElseDue? {
      CloseForkCode(t);
    }
  }

  /** The top scope may be left into the one below it. */
  ghost predicate Leavable(s: Scopes) {
    && |s| > 1 && !ScopeMachine.Top(s).open.Root? && !ScopeMachine.Top(s).fork.ThenOpen?
    && if ScopeMachine.Top(s).open.ThenOf? then s[|s| - 2].fork.ThenOpen? else s[|s| - 2].fork.NoFork?
  }

  /** Leaving the top scope: the one below takes its body in, and its block stays what it was. */
  lemma {:induction false} LeftShape(s: Scopes, at: nat)
    requires Leavable(s)
    ensures |Below(s)| > 0
    ensures var low: Scopes := Below(s);
            var parent := ScopeMachine.Top(low);
            var child := ScopeMachine.Top(s);
            var q := Absorb(parent, child.open, CloseFork(child).items);
            && !child.open.Root? && (if child.open.ThenOf? then parent.fork.ThenOpen? else parent.fork.NoFork?)
            && ScopeMachine.LeaveScope(s) == WithTop(low, q) && BlockOf(q, at) == BlockOf(parent, at)
  {
    hide Code, ScopeCode, EncBody, CloseFork;
  }

  /** The code and the blocks after the top scope is left. */
  lemma {:induction false} LeftLaid(s: Scopes)
    requires Leavable(s)
    ensures var child := ScopeMachine.Top(s);
            Code(ScopeMachine.LeaveScope(s)) == Code(Below(s)) + (Stem(child.open) + EncBody(CloseFork(child).items))
    ensures Blocks(ScopeMachine.LeaveScope(s)) == Blocks(Below(s))
  {
    assert |Below(s)| > 0;
    hide *;
    var child := ScopeMachine.Top(s);
    var low: Scopes := Below(s);
    var parent := ScopeMachine.Top(low);
    var q := Absorb(parent, child.open, CloseFork(child).items);
    LeftShape(s, |Code(Below(low))|);
    AbsorbCode(parent, child.open, CloseFork(child).items);
    Split(low);
    Replaced(low, q);
    Assoc(Code(Below(low)), ScopeCode(parent), Stem(child.open) + EncBody(CloseFork(child).items));
  }

  lemma {:induction false} Layout1(low: seq<u16>, code: seq<u16>, last: seq<u16>, stem: seq<u16>, gap: seq<u16>,
                                   items: seq<u16>)
    requires code + last == stem + gap + items
    ensures (low + code) + last == low + stem + gap + items
  {
    Assoc(low, code, last);
    Assoc(low, stem + gap, items);
    Assoc(low, stem, gap);
  }

  lemma {:induction false} Layout2(low: seq<u16>, stem: seq<u16>, len: seq<u16>, items: seq<u16>, end: seq<u16>)
    ensures low + (stem + (len + items + end)) == low + stem + len + (items + end)
  {
    Assoc(len, items, end);
    Assoc(low, stem, len + (items + end));
    Assoc(low + stem, len, items + end);
  }

  /** The buffer when the top scope is left and its pending else block is put. */
  lemma {:induction false} BeforeLeaving(s: Scopes)
    requires Leavable(s)
    ensures var child := ScopeMachine.Top(s);
            Code(s) + (if child.fork.NoFork? then [] else EncLen(0)) ==
            Code(Below(s)) + Stem(child.open) + [0, 0] + EncItems(CloseFork(child).items)
  {
    var child := ScopeMachine.Top(s);
    hide Code, Blocks, ScopeCode, EncItems, Stem, Below, CloseFork, EncLen;
    Split(s);
    ClosedCode(child);
    Layout1(Code(Below(s)), ScopeCode(child), if child.fork.NoFork? then [] else EncLen(0), Stem(child.open), [0, 0],
            EncItems(CloseFork(child).items));
  }

  /** The buffer when the terminator is put and the length patched. */
  lemma {:induction false} AfterLeaving(s: Scopes)
    requires Leavable(s)
    ensures var child := ScopeMachine.Top(s);
            var code := EncItems(CloseFork(child).items);
            Code(ScopeMachine.LeaveScope(s)) ==
            Code(Below(s)) + Stem(child.open) + EncLen(|code| + 1) + (code + [TERMINATOR])
  {
    var child := ScopeMachine.Top(s);
    var code := EncItems(CloseFork(child).items);
    assert EncBody(CloseFork(child).items) == EncLen(|code| + 1) + code + [TERMINATOR];
    hide Code, EncBody, EncItems, Stem, Below, CloseFork, LeaveScope, EncLen;
    LeftLaid(s);
    Layout2(Code(Below(s)), Stem(child.open), EncLen(|code| + 1), code, [TERMINATOR]);
  }

  lemma {:induction false} TopBlock(s: Scopes)
    ensures Blocks(s)[|s| - 1] == BlockOf(ScopeMachine.Top(s), |Code(Below(s))|)
  {
    hide BlockOf, Code, Stem;
  }

  lemma {:induction false} LowBlocks(s: Scopes)
    ensures Blocks(s)[..|s| - 1] == Blocks(Below(s))
  {
    hide BlockOf, Code, Stem;
  }

  /** Where the length field of the top scope is. */
  function Field(s: Scopes): nat { |Code(Below(s))| + |Stem(ScopeMachine.Top(s).open)| }

  lemma {:induction false} LeavingBlock(s: Scopes)
    requires Leavable(s)
    ensures var b := Blocks(s)[|s| - 1];
            b.start == Some(Field(s)) && b.inBranch == !ScopeMachine.Top(s).fork.NoFork?
  {
    TopBlock(s);
  }

  lemma {:induction false} LeftBlocks(s: Scopes)
    requires Leavable(s)
    ensures Blocks(ScopeMachine.LeaveScope(s)) == Blocks(s)[..|s| - 1]
  {
    hide *;
    LeftLaid(s);
    LowBlocks(s);
  }

  lemma {:induction false} InvLeavable(s: Scopes)
    requires InvScopes(s) && |s| > 1
    ensures Leavable(s)
  {
    assert Nested(s[|s| - 2], s[|s| - 1]);
  }

  lemma {:induction false} PushCode(low: Scopes, t: Scope)
    requires !t.open.Root? && t.items == [] && t.fork.NoFork?
    ensures Code(low + [t]) == Code(low) + Stem(t.open) + [0, 0]
  {
    EmptyCode(t);
    hide *;
    OnTop(low, t);
    Assoc(Code(low), Stem(t.open), [0, 0]);
  }

  /** The block of an empty scope that inherits its parent's nesting. */
  lemma {:induction false} PushBlock(low: Scopes, t: Scope)
    requires !t.open.Root? && t.items == [] && t.fork.NoFork?
    requires t.inLoop == ScopeMachine.Top(low).inLoop && t.inFunction == ScopeMachine.Top(low).inFunction
    ensures var b := Blocks(low)[|low| - 1];
            BlockOf(t, |Code(low)|) ==
              BlockScope(Some(|Code(low)| + |Stem(t.open)|), t.brace, t.special, false, b.nestLoop, b.nestFunction)
  {
    EmptyBlock(t, ScopeMachine.Top(low), |Code(low)|, |Code(Below(low))|);
    hide *;
    TopBlock(low);
  }

  lemma {:induction false} PushBlocks(low: Scopes, t: Scope)
    ensures Blocks(low + [t]) == Blocks(low) + [BlockOf(t, |Code(low)|)]
  {
    hide *;
    OnTop(low, t);
  }

  lemma {:induction false} EmptyCode(t: Scope)
    requires !t.open.Root? && t.items == [] && t.fork.NoFork?
    ensures ScopeCode(t) == Stem(t.open) + [0, 0]
  {
    hide Stem;
  }

  lemma {:induction false} EmptyBlock(t: Scope, parent: Scope, at: nat, below: nat)
    requires !t.open.Root? && t.fork.NoFork? && t.inLoop == parent.inLoop && t.inFunction == parent.inFunction
    ensures var b := BlockOf(parent, below);
            BlockOf(t, at) == BlockScope(Some(at + |Stem(t.open)|), t.brace, t.special, false, b.nestLoop, b.nestFunction)
  {
    hide Stem;
  }

  /** The top scope replaced by one with `more` code. */
  lemma {:induction false} TopCode(s: Scopes, u: Scope, more: seq<u16>)
    requires ScopeCode(u) == ScopeCode(ScopeMachine.Top(s)) + more
    ensures Code(WithTop(s, u)) == Code(s) + more
  {
    hide *;
    Split(s);
    Replaced(s, u);
    Assoc(Code(Below(s)), ScopeCode(ScopeMachine.Top(s)), more);
  }

  /** The top scope replaced, seen in its block. */
  lemma {:induction false} TopBlocks(s: Scopes, u: Scope)
    ensures Blocks(WithTop(s, u)) == Blocks(s)[|s| - 1 := BlockOf(u, |Code(Below(s))|)]
  {
    hide *;
    Split(s);
    Replaced(s, u);
  }

  /** Only the fields of the top scope that are not in the code change. */
  lemma {:induction false} FlagsCode(s: Scopes, u: Scope)
    requires var t := ScopeMachine.Top(s); u.open == t.open && u.items == t.items && u.fork == t.fork
    ensures Code(WithTop(s, u)) == Code(s)
  {
    var t := ScopeMachine.Top(s);
    assert ScopeCode(u) == ScopeCode(t);
    hide *;
    assert ScopeCode(t) + [] == ScopeCode(t);
    TopCode(s, u, []);
    assert Code(s) + [] == Code(s);
  }

  lemma {:induction false} FlagsBlock(s: Scopes, u: Scope)
    requires var t := ScopeMachine.Top(s); u.open == t.open && (u.fork.NoFork? <==> t.fork.NoFork?)
    ensures Blocks(s)[|s| - 1].(braceLevel := u.brace, special := u.special, nestLoop := u.inLoop, nestFunction := u.inFunction)
         == BlockOf(u, |Code(Below(s))|)
    ensures var b := Blocks(s)[|s| - 1]; var t := ScopeMachine.Top(s);
            b.braceLevel == t.brace && b.special == t.special && b.nestLoop == t.inLoop && b.nestFunction == t.inFunction
            && b.inBranch == !t.fork.NoFork?
  {
    TopBlock(s);
    hide Code, Blocks, Stem;
  }

  lemma {:induction false} ForkBlock(s: Scopes, u: Scope)
    requires var t := ScopeMachine.Top(s); u.(items := t.items, fork := t.fork) == t
    ensures Blocks(s)[|s| - 1].(inBranch := !u.fork.NoFork?) == BlockOf(u, |Code(Below(s))|)
  {
    TopBlock(s);
    hide Code, Blocks, Stem;
  }

  /** A pending else block put as an empty one. */
  lemma {:induction false} CloseForkLaid(s: Scopes)
    requires ScopeMachine.Top(s).fork.ElseDue?
    ensures Code(WithTop(s, CloseFork(ScopeMachine.Top(s)))) == Code(s) + EncLen(0)
  {
    hide *;
    CloseForkCode(ScopeMachine.Top(s));
    TopCode(s, CloseFork(ScopeMachine.Top(s)), EncLen(0));
  }

  /** A branch token put for a then block to come. */
  lemma {:induction false} ForkLaid(s: Scopes)
    requires ScopeMachine.Top(s).fork.NoFork?
    ensures Code(WithTop(s, ScopeMachine.Top(s).(fork := ThenOpen))) == Code(s) + [BRANCH]
  {
    var t := ScopeMachine.Top(s).(fork := ThenOpen);
    assert ScopeCode(t) == ScopeCode(ScopeMachine.Top(s)) + [BRANCH];
    hide *;
    TopCode(s, t, [BRANCH]);
  }

  /** A pending branch taken over by the scope of its else block. */
  lemma {:induction false} TakenLaid(s: Scopes)
    requires ScopeMachine.Top(s).fork.ElseDue?
    ensures var t := ScopeMachine.Top(s);
            Code(WithTop(s, t.(fork := NoFork))) + Stem(ElseOf(t.fork.thn)) == Code(s)
  {
    var t := ScopeMachine.Top(s);
    var u := t.(fork := NoFork);
    assert WithTop(WithTop(s, u), t) == s && ScopeMachine.Top(WithTop(s, u)) == u;
    hide *;
    TakenCode(t);
    TopCode(WithTop(s, u), t, Stem(ElseOf(t.fork.thn)));
  }

  lemma {:induction false} TakenCode(t: Scope)
    requires t.fork.ElseDue?
    ensures ScopeCode(t) == ScopeCode(t.(fork := NoFork)) + Stem(ElseOf(t.fork.thn))
  {
    var front := Stem(t.open) + Gap(t.open) + EncItems(t.items);
    assert ScopeCode(t.(fork := NoFork)) == front + [];
    assert ScopeCode(t) == front + ForkCode(t.fork);
    assert ForkCode(t.fork) == Stem(ElseOf(t.fork.thn));
    hide *;
    assert front + [] == front;
  }

  // ----- the buffer and the blocks against the scopes ---------------------------

  /** The buffer is the code of the open scopes, and each block knows where its length goes. */
  ghost predicate Laid(tok: seq<u16>, bs: seq<BlockScope>, ss: Scopes) {
    tok == Code(ss) && bs == Blocks(ss)
  }

  /** The same with the stem of a scope to be opened put as well. */
  ghost predicate Stemmed(tok: seq<u16>, bs: seq<BlockScope>, low: Scopes, open: Opener) {
    tok == Code(low) + Stem(open) && bs == Blocks(low) && !open.Root?
  }

  lemma {:induction false} TopFacts(tok: seq<u16>, bs: seq<BlockScope>, ss: Scopes)
    requires Laid(tok, bs, ss)
    ensures |bs| == |ss|
    ensures var b := bs[|bs| - 1]; var t := ScopeMachine.Top(ss);
            b.braceLevel == t.brace && b.special == t.special && b.nestLoop == t.inLoop && b.nestFunction == t.inFunction
            && b.inBranch == !t.fork.NoFork?
  {
    FlagsBlock(ss, ScopeMachine.Top(ss));
  }

  lemma {:induction false} LaidPut(tok: seq<u16>, bs: seq<BlockScope>, ss: Scopes, i: Item)
    requires Laid(tok, bs, ss) && ScopeMachine.Top(ss).fork.NoFork?
    ensures Laid(tok + EncItem(i), bs, WithTop(ss, AddItem(ScopeMachine.Top(ss), i)))
  {
    hide Code, Blocks, EncItem;
    PutLaid(ss, i);
  }

  lemma {:induction false} LaidStem(tok: seq<u16>, bs: seq<BlockScope>, ss: Scopes, open: Opener)
    requires Laid(tok, bs, ss) && !open.Root?
    ensures Stemmed(tok + Stem(open), bs, ss, open)
  {
  }

  /** The buffer after the scope of block `b` is left: its else block if one is due, its terminator, its length. */
  function LeftBuffer(tok: seq<u16>, b: BlockScope): seq<u16> {
    var buf := tok + (if b.inBranch then EncLen(0) else []) + [TERMINATOR];
    if b.start.Some? && b.start.value + 2 <= |buf| then
      var len := |buf| - b.start.value - 2;
      buf[b.start.value := Low(len)][b.start.value + 1 := Low(len / 0x1_0000)]
    else buf
  }

  lemma {:induction false} LeftBufferIs(buf: seq<u16>, b: BlockScope, before: seq<u16>, code: seq<u16>)
    requires buf + (if b.inBranch then EncLen(0) else []) == before + [0, 0] + code
    requires b.start == Some(|before|)
    ensures LeftBuffer(buf, b) == before + EncLen(|code| + 1) + (code + [TERMINATOR])
  {
    Assoc(before + [0, 0], code, [TERMINATOR]);
    hide EncLen;
    PatchCode(before, code + [TERMINATOR], |code| + 1);
  }

  /** The buffer that leaving makes is the code of the scopes that are left. */
  lemma {:induction false} LeftCode(ss: Scopes, b: BlockScope)
    requires Leavable(ss) && b == Blocks(ss)[|ss| - 1]
    ensures LeftBuffer(Code(ss), b) == Code(ScopeMachine.LeaveScope(ss))
  {
    hide *;
    var child := ScopeMachine.Top(ss);
    LeavingBlock(ss);
    BeforeLeaving(ss);
    AfterLeaving(ss);
    FieldIs(ss);
    LeftFrom(Code(ss), b, Code(Below(ss)), Stem(child.open), EncItems(CloseFork(child).items), child.fork.NoFork?);
  }

  lemma {:induction false} FieldIs(ss: Scopes)
    ensures Field(ss) == |Code(Below(ss))| + |Stem(ScopeMachine.Top(ss).open)|
  {
    hide Code, Below, Stem;
  }

  lemma {:induction false} LeftFrom(buf: seq<u16>, b: BlockScope, low: seq<u16>, stem: seq<u16>, code: seq<u16>,
                                    noFork: bool)
    requires b.start == Some(|low| + |stem|) && b.inBranch == !noFork
    requires buf + (if noFork then [] else EncLen(0)) == low + stem + [0, 0] + code
    ensures LeftBuffer(buf, b) == low + stem + EncLen(|code| + 1) + (code + [TERMINATOR])
  {
    hide EncLen, LeftBuffer;
    LeftBufferIs(buf, b, low + stem, code);
  }

  lemma {:induction false} LaidLeave(tok: seq<u16>, bs: seq<BlockScope>, ss: Scopes)
    requires Laid(tok, bs, ss) && Leavable(ss)
    ensures |bs| == |ss|
    ensures Laid(LeftBuffer(tok, bs[|bs| - 1]), bs[..|bs| - 1], ScopeMachine.LeaveScope(ss))
  {
    hide Code, Blocks, ScopeMachine.LeaveScope, LeftBuffer, Leavable;
    LeftBlocks(ss);
    LeftCode(ss, bs[|bs| - 1]);
  }

  /** An empty scope that inherits its parent's nesting, on top of a stem. */
  lemma {:induction false} LaidEnter(tok: seq<u16>, bs: seq<BlockScope>, low: Scopes, t: Scope)
    requires Stemmed(tok, bs, low, t.open) && t.items == [] && t.fork.NoFork?
    requires t.inLoop == ScopeMachine.Top(low).inLoop && t.inFunction == ScopeMachine.Top(low).inFunction
    ensures |bs| == |low|
    ensures var b := bs[|bs| - 1];
            Laid(tok + [0, 0],
                 bs + [BlockScope(Some(|tok|), t.brace, t.special, false, b.nestLoop, b.nestFunction)], low + [t])
  {
    hide Code, Blocks, Stem, BlockOf, ScopeCode;
    PushCode(low, t);
    PushBlock(low, t);
    PushBlocks(low, t);
  }

  /** Fields of the top scope that are not in the code. */
  lemma {:induction false} LaidFlags(tok: seq<u16>, bs: seq<BlockScope>, ss: Scopes, u: Scope)
    requires Laid(tok, bs, ss)
    requires var t := ScopeMachine.Top(ss); u.open == t.open && u.items == t.items && u.fork == t.fork
    ensures |bs| == |ss|
    ensures var b := bs[|bs| - 1].(braceLevel := u.brace, special := u.special, nestLoop := u.inLoop, nestFunction := u.inFunction);
            Laid(tok, bs[|bs| - 1 := b], WithTop(ss, u))
  {
    hide Code, Blocks, Stem, BlockOf, ScopeCode, WithTop;
    FlagsCode(ss, u);
    FlagsBlock(ss, u);
    TopBlocks(ss, u);
  }

  lemma {:induction false} ForkBlocks(ss: Scopes, u: Scope)
    requires var t := ScopeMachine.Top(ss); u.(items := t.items, fork := t.fork) == t
    ensures Blocks(WithTop(ss, u)) == Blocks(ss)[|ss| - 1 := Blocks(ss)[|ss| - 1].(inBranch := !u.fork.NoFork?)]
  {
    hide *;
    ForkBlock(ss, u);
    TopBlocks(ss, u);
  }

  lemma {:induction false} LaidCloseFork(tok: seq<u16>, bs: seq<BlockScope>, ss: Scopes)
    requires Laid(tok, bs, ss) && ScopeMachine.Top(ss).fork.ElseDue?
    ensures |bs| == |ss|
    ensures Laid(tok + EncLen(0), bs[|bs| - 1 := bs[|bs| - 1].(inBranch := false)],
                 WithTop(ss, CloseFork(ScopeMachine.Top(ss))))
  {
    hide Code, Blocks, Stem, BlockOf, ScopeCode, WithTop, EncLen;
    CloseForkLaid(ss);
    ForkBlocks(ss, CloseFork(ScopeMachine.Top(ss)));
  }

  lemma {:induction false} LaidFork(tok: seq<u16>, bs: seq<BlockScope>, ss: Scopes)
    requires Laid(tok, bs, ss) && ScopeMachine.Top(ss).fork.NoFork?
    ensures |bs| == |ss|
    ensures Stemmed(tok + [BRANCH], bs[|bs| - 1 := bs[|bs| - 1].(inBranch := true)],
                    WithTop(ss, ScopeMachine.Top(ss).(fork := ThenOpen)), ThenOf)
  {
    assert Stem(ThenOf) == [];
    hide Code, Blocks, Stem, BlockOf, ScopeCode, WithTop;
    ForkLaid(ss);
    ForkBlocks(ss, ScopeMachine.Top(ss).(fork := ThenOpen));
    assert tok + [BRANCH] + [] == tok + [BRANCH];
  }

  lemma {:induction false} LaidTake(tok: seq<u16>, bs: seq<BlockScope>, ss: Scopes)
    requires Laid(tok, bs, ss) && ScopeMachine.Top(ss).fork.ElseDue?
    ensures |bs| == |ss|
    ensures var t := ScopeMachine.Top(ss);
            Stemmed(tok, bs[|bs| - 1 := bs[|bs| - 1].(inBranch := false)], WithTop(ss, t.(fork := NoFork)), ElseOf(t.fork.thn))
  {
    hide Code, Blocks, Stem, BlockOf, ScopeCode, WithTop;
    TakenLaid(ss);
    ForkBlocks(ss, ScopeMachine.Top(ss).(fork := NoFork));
  }

  lemma {:induction false} LinesCode(tok: seq<u16>, bs: seq<BlockScope>, m: Machine, es: seq<Elem>)
    requires Laid(tok, bs, m.scopes) && ScopeMachine.Top(m.scopes).fork.NoFork?
    ensures Laid(tok + EncElems(es[..LeadingLines(es)]), bs, PutLines(m, es).scopes)
    ensures ScopeMachine.Top(PutLines(m, es).scopes).fork.NoFork?
    decreases |es|
  {
    if es != [] && es[0].ELine? {
      var i := Line(es[0].line);
      LaidPut(tok, bs, m.scopes, i);
      LinesCode(tok + EncItem(i), bs, Put(m, i), es[1..]);
      var k := LeadingLines(es[1..]);
      assert es[..k + 1][1..] == es[1..][..k];
      hide Laid;
      Assoc(tok, EncItem(i), EncElems(es[1..][..k]));
    } else {
      assert tok + [] == tok;
    }
  }

  lemma {:induction false} ElemsAppend(a: seq<Elem>, b: seq<Elem>)
    ensures EncElems(a + b) == EncElems(a) + EncElems(b)
  {
    if a == [] {
      assert a + b == b;
    } else {
      assert (a + b)[1..] == a[1..] + b;
      ElemsAppend(a[1..], b);
    }
  }

  /** The words `x` and then the rest of an item: leading line markers are items of their own. */
  lemma {:induction false} LaidHeaded(tok: seq<u16>, bs: seq<BlockScope>, m: Machine, x: Expr, item: Expr -> Item,
                                      rest: seq<u16>)
    requires Laid(tok, bs, m.scopes) && ScopeMachine.Top(m.scopes).fork.NoFork?
    requires EncItem(item(WithoutLines(x))) == EncExpr(WithoutLines(x)) + rest
    ensures Laid(tok + (EncExpr(x) + rest), bs, PutHeaded(m, x, item).scopes)
  {
    var k := LeadingLines(x.elems);
    var a, b := EncElems(x.elems[..k]), EncElems(x.elems[k..]);
    assert x.elems == x.elems[..k] + x.elems[k..];
    ElemsAppend(x.elems[..k], x.elems[k..]);
    LinesCode(tok, bs, m, x.elems);
    var m1 := PutLines(m, x.elems);
    LaidPut(tok + a, bs, m1.scopes, item(WithoutLines(x)));
    hide Laid, EncElems, PutLines, LeadingLines;
    Assoc(tok, a, b + rest);
    Assoc(a, b, rest);
  }

  lemma {:induction false} PutLinesFields(m: Machine, es: seq<Elem>)
    ensures PutLines(m, es) == m.(scopes := PutLines(m, es).scopes)
    decreases |es|
  {
    if es != [] && es[0].ELine? {
      PutLinesFields(Put(m, Line(es[0].line)), es[1..]);
    }
  }

  lemma {:induction false} ReturnCode(x: Expr)
    ensures EncItem(Return(x)) == EncExpr(x) + [RETURN]
  {
  }

  class QMakeParser {
    const hash: Hash
    var tok: seq<u16>
    var blockstack: seq<BlockScope>
    var state: LineState
    var canElse: bool
    var invert: nat
    var op: Operator
    var markLine: nat
    var lineNo: nat
    var ok: bool
    ghost var scopes: Scopes

    ghost predicate Valid()
      reads this
    {
      Laid(tok, blockstack, scopes)
    }

    ghost function Abs(): Machine
      reads this
    {
      Machine(scopes, state, canElse, invert, op, markLine, lineNo, ok)
    }

    constructor (hash: Hash)
      ensures Valid() && Abs() == Start(1) && this.hash == hash
    {
      this.hash := hash;
      tok, blockstack := [], [BlockScope(None, 0, false, false, false, false)];
      state, canElse, invert, op, markLine, lineNo, ok := StNew, false, 0, NoOperator, 1, 1, true;
      scopes := [Scope(Root, [], NoFork, 0, false, false, false)];
      new;
      assert scopes[..0] == [];
    }

    // ----- scopes -----------------------------------------------------------------

    /** Appends the code of one item to the top scope. */
    method PutItem(code: seq<u16>, ghost i: Item)
      requires Valid() && code == EncItem(i) && ScopeMachine.Top(scopes).fork.NoFork?
      modifies this`tok, this`scopes
      ensures Valid() && Abs() == Put(old(Abs()), i)
    {
      hide Laid, EncItem;
      LaidPut(tok, blockstack, scopes, i);
      tok := tok + code;
      scopes := WithTop(scopes, AddItem(ScopeMachine.Top(scopes), i));
    }

    /** Puts the else block of a branch that has none, the terminator, and the length of the block. */
    method LeaveScope()
      requires Valid() && Leavable(scopes)
      modifies this`tok, this`blockstack, this`scopes
      ensures Valid() && Abs() == old(Abs()).(scopes := ScopeMachine.LeaveScope(old(scopes)))
    {
      hide Laid, Leavable, ScopeMachine.LeaveScope, LeftBuffer;
      LaidLeave(tok, blockstack, scopes);
      var n := |blockstack| - 1;
      tok, blockstack, scopes := LeftBuffer(tok, blockstack[n]), blockstack[..n], ScopeMachine.LeaveScope(scopes);
    }

    /** Enters a scope whose stem is already put; its length field stays open. */
    method EnterScope(special: bool, st: LineState, ghost low: Scopes, ghost open: Opener)
      requires Stemmed(tok, blockstack, low, open)
      modifies this`tok, this`blockstack, this`scopes, this`state, this`canElse, this`markLine
      ensures Valid() && Abs() == ScopeMachine.EnterScope(old(Abs()).(scopes := low), open, special, st)
    {
      ghost var t := ScopeMachine.Top(low);
      ghost var child := Scope(open, [], NoFork, 0, special, t.inLoop, t.inFunction);
      hide Laid, Stemmed;
      LaidEnter(tok, blockstack, low, child);
      var top := blockstack[|blockstack| - 1];
      blockstack := blockstack + [BlockScope(Some(|tok|), 0, special, false, top.nestLoop, top.nestFunction)];
      tok := tok + [0, 0];
      state, canElse := st, false;
      if special {
        markLine := lineNo;
      }
      scopes := low + [child];
    }

    method SetTop(brace: nat, loop: bool, function_: bool)
      requires Valid()
      modifies this`blockstack, this`scopes
      ensures Valid()
      ensures Abs() == old(Abs()).(scopes :=
        WithTop(old(scopes), ScopeMachine.Top(old(scopes)).(brace := brace, inLoop := loop, inFunction := function_)))
    {
      ghost var t := ScopeMachine.Top(scopes).(brace := brace, inLoop := loop, inFunction := function_);
      hide Laid, WithTop;
      TopFacts(tok, blockstack, scopes);
      LaidFlags(tok, blockstack, scopes, t);
      var n := |blockstack| - 1;
      blockstack := blockstack[n := blockstack[n].(braceLevel := brace, nestLoop := loop, nestFunction := function_)];
      scopes := WithTop(scopes, t);
    }

    method LeaveOneLineScopes()
      requires Valid() && InvScopes(scopes)
      modifies this`tok, this`blockstack, this`scopes
      ensures Valid() && Abs() == old(Abs()).(scopes := LeaveOneLiners(old(scopes))) && InvScopes(scopes)
    {
      hide Laid, InvScopes, Leavable, ScopeMachine.LeaveScope;
      TopFacts(tok, blockstack, scopes);
      while blockstack[|blockstack| - 1].braceLevel == 0 && |blockstack| > 1
        invariant Valid() && InvScopes(scopes) && |blockstack| == |scopes|
        invariant LeaveOneLiners(scopes) == LeaveOneLiners(old(scopes))
        invariant blockstack[|blockstack| - 1].braceLevel == ScopeMachine.Top(scopes).brace
        decreases |scopes|
      {
        InvLeavable(scopes);
        LeaveInv(scopes);
        LeaveScope();
        TopFacts(tok, blockstack, scopes);
      }
    }

    /** Puts the empty else block of a branch in the top scope that still lacks one. */
    method CloseOpenFork()
      requires Valid() && !ScopeMachine.Top(scopes).fork.ThenOpen?
      modifies this`tok, this`blockstack, this`scopes
      ensures Valid()
      ensures Abs() == old(Abs()).(scopes := WithTop(old(scopes), CloseFork(ScopeMachine.Top(old(scopes)))))
    {
      hide Laid, EncLen;
      TopFacts(tok, blockstack, scopes);
      var n := |blockstack| - 1;
      if blockstack[n].inBranch {
        LaidCloseFork(tok, blockstack, scopes);
        blockstack := blockstack[n := blockstack[n].(inBranch := false)];
        tok := tok + EncLen(0);
        scopes := WithTop(scopes, CloseFork(ScopeMachine.Top(scopes)));
      } else {
        assert WithTop(scopes, ScopeMachine.Top(scopes)) == scopes;
      }
    }

    /** On a fresh line, closes all open one-line scopes. */
    method FlushScopes()
      requires Valid() && Inv(Abs())
      modifies this`tok, this`blockstack, this`scopes, this`canElse
      ensures Valid() && Abs() == ScopeMachine.FlushScopes(old(Abs()))
    {
      hide Laid;
      if state != StNew {
        return;
      }
      LeaveOneLineScopes();
      CloseOpenFork();
      canElse := false;
    }

    /** With a conditional pending, enters the scope of its then block; else flushes. */
    method FlushCond()
      requires Valid() && Inv(Abs())
      modifies this`tok, this`blockstack, this`scopes, this`canElse, this`state, this`markLine
      ensures Valid() && Abs() == ScopeMachine.FlushCond(old(Abs()))
    {
      hide Laid, Stemmed;
      if state == StCond {
        LaidFork(tok, blockstack, scopes);
        hide InvScopes;
        var n := |blockstack| - 1;
        tok := tok + [BRANCH];
        blockstack := blockstack[n := blockstack[n].(inBranch := true)];
        EnterScope(false, StNew, WithTop(scopes, ScopeMachine.Top(scopes).(fork := ThenOpen)), ThenOf);
      } else {
        FlushScopes();
      }
    }

    // ----- operators and line markers ---------------------------------------------

    method PutLineMarker()
      requires Valid() && ScopeMachine.Top(scopes).fork.NoFork?
      modifies this`tok, this`scopes, this`markLine
      ensures Valid() && Abs() == ScopeMachine.PutLineMarker(old(Abs()))
    {
      hide Laid;
      if markLine != 0 {
        PutItem([LINE, Low(markLine)], Line(Low(markLine)));
        markLine := 0;
      }
    }

    method WarnOperator()
      modifies this`invert, this`op
      ensures Abs() == ScopeMachine.WarnOperator(old(Abs()))
    {
      invert, op := 0, NoOperator;
    }

    method FailOperator()
      modifies this`invert, this`op, this`ok
      ensures Abs() == ScopeMachine.FailOperator(old(Abs()))
    {
      if invert > 0 || op != NoOperator {
        ok := false;
      }
      invert, op := 0, NoOperator;
    }

    method AcceptColon()
      modifies this`invert, this`op, this`ok
      ensures Abs() == ScopeMachine.AcceptColon(old(Abs()))
    {
      if op == AndOperator {
        op := NoOperator;
      }
      FailOperator();
    }

    method PutOperator()
      requires Valid() && ScopeMachine.Top(scopes).fork.NoFork?
      modifies this`tok, this`scopes, this`op
      ensures Valid() && Abs() == ScopeMachine.PutOperator(old(Abs()))
    {
      hide Laid;
      if op == AndOperator {
        if state == StCond {
          PutItem([AND], And);
        }
      } else if op == OrOperator {
        PutItem([OR], Or);
      }
      op := NoOperator;
    }

    // ----- tests ------------------------------------------------------------------

    method FinalizeTest()
      requires Valid() && Inv(Abs())
      modifies this
      ensures Valid() && Abs() == ScopeMachine.FinalizeTest(old(Abs())) && Clear(Abs())
    {
      hide Laid, ScopeMachine.FlushScopes, InvScopes, ScopeMachine.PutLineMarker, ScopeMachine.PutOperator;
      FinalizeTestInv(Abs());
      FlushScopesInv(Abs());
      FlushScopes();
      PutLineMarkerInv(Abs());
      PutLineMarker();
      PutOperatorInv(Abs());
      PutOperator();
      if invert % 2 == 1 {
        PutItem([NOT], Not);
      }
      invert, state, canElse := 0, StCond, true;
    }

    /** Puts the words of a head and the token after them, `rest` being the end of the item. */
    method PutWords(x: Expr, rest: seq<u16>, ghost item: Expr -> Item)
      requires Valid() && ScopeMachine.Top(scopes).fork.NoFork?
      requires EncItem(item(WithoutLines(x))) == EncExpr(WithoutLines(x)) + rest
      modifies this`tok, this`scopes
      ensures Valid() && Abs() == PutHeaded(old(Abs()), x, item)
    {
      hide Laid, EncItem, EncElems, EncExpr, LeadingLines, WithoutLines, PutLines;
      LaidHeaded(tok, blockstack, Abs(), x, item, rest);
      PutLinesFields(Abs(), x.elems);
      ghost var m := PutHeaded(Abs(), x, item);
      tok := tok + (EncExpr(x) + rest);
      scopes := m.scopes;
    }

    /** The else that ends a list of tests, or belongs to a branch that still lacks its else block. */
    method FinalizeElse()
      requires Valid() && Inv(Abs()) && ok
      modifies this
      ensures Valid() && Abs() == Else(old(Abs()))
    {
      hide Laid, Stemmed, InvScopes, TakeElse;
      FailOperator();
      if !ok {
        return;
      }
      TopFacts(tok, blockstack, scopes);
      var top := blockstack[|blockstack| - 1];
      if canElse && (!top.special || top.braceLevel > 0) {
        LaidStem(tok, blockstack, scopes, ElseOf(NoBlock));
        tok := tok + ([BRANCH] + EncLen(0));
        EnterScope(false, StCtrl, scopes, ElseOf(NoBlock));
      } else {
        FindElse();
      }
    }

    method FindElse()
      requires Valid() && InvScopes(scopes) && ok
      modifies this
      ensures Valid() && Abs() == TakeElse(old(Abs()))
    {
      hide Laid, Stemmed, InvScopes, Leavable, ScopeMachine.LeaveScope, ScopeMachine.EnterScope;
      ghost var m := Abs();
      while true
        invariant Valid() && InvScopes(scopes) && ok
        invariant TakeElse(Abs()) == TakeElse(m)
        decreases |scopes|
      {
        TopFacts(tok, blockstack, scopes);
        ForkKnown(scopes);
        var n := |blockstack| - 1;
        var top := blockstack[n];
        if top.inBranch && (!top.special || top.braceLevel > 0) {
          LaidTake(tok, blockstack, scopes);
          ghost var t := ScopeMachine.Top(scopes);
          blockstack := blockstack[n := top.(inBranch := false)];
          EnterScope(false, StCtrl, WithTop(scopes, t.(fork := NoFork)), ElseOf(t.fork.thn));
          return;
        }
        if top.braceLevel > 0 || |blockstack| == 1 {
          ok := false;
          return;
        }
        InvLeavable(scopes);
        LeaveInv(scopes);
        LeaveScope();
      }
    }

    method FinalizeCond(w: Words)
      requires Valid() && Inv(Abs()) && ok
      modifies this
      ensures Valid() && Abs() == ScopeMachine.FinalizeCond(old(Abs()), w)
    {
      hide Laid, InvScopes, Else, ScopeMachine.FinalizeTest, PutHeaded;
      match w {
        case NoWord =>
        case Excess => ok := false;
        case Word(x) =>
          if IsElse(x) {
            FinalizeElse();
          } else {
            FinalizeTest();
            PutWords(x, [CONDITION], h => Cond(h));
          }
      }
    }

    // ----- calls ------------------------------------------------------------------

    method CallFor(args: seq<Expr>)
      requires Valid() && Inv(Abs()) && ok
      modifies this
      ensures Valid() && Abs() == ScopeMachine.CallFor(hash, old(Abs()), args)
    {
      hide Laid, Stemmed, InvScopes, ScopeMachine.FlushCond, ScopeMachine.PutLineMarker, LoopArgs;
      AcceptColon();
      if !ok {
        return;
      }
      FlushCondInv(Abs());
      FlushCond();
      PutLineMarkerInv(Abs());
      PutLineMarker();
      var l := LoopArgs(hash, args);
      if l.None? {
        ok := false;
        return;
      }
      var name, list := Hashed(hash, l.value.name), l.value.list;
      PutStem([FOR_LOOP] + EncHStr(name) + EncLen(|EncExpr(list)| + 1) + EncExpr(list) + [VALUE_TERMINATOR], BodyOf(name, list));
      EnterScope(true, StCtrl, scopes, BodyOf(name, list));
      TopFacts(tok, blockstack, scopes);
      var top := blockstack[|blockstack| - 1];
      SetTop(top.braceLevel, true, top.nestFunction);
    }

    method PutStem(code: seq<u16>, ghost open: Opener)
      requires Valid() && !open.Root? && code == Stem(open)
      modifies this`tok
      ensures Stemmed(tok, blockstack, scopes, open)
    {
      LaidStem(tok, blockstack, scopes, open);
      hide Laid, Stemmed, Stem;
      tok := tok + code;
    }

    method CallDefine(isTest: bool, args: seq<Expr>)
      requires Valid() && Inv(Abs()) && ok
      modifies this
      ensures Valid() && Abs() == ScopeMachine.CallDefine(hash, old(Abs()), isTest, args)
    {
      hide Laid, Stemmed, Inv, ScopeMachine.FlushScopes, ScopeMachine.PutLineMarker, ScopeMachine.PutOperator, EncHStr, Hashed;
      hide PlainArg;
      if invert > 0 {
        ok := false;
        return;
      }
      FlushScopesInv(Abs());
      FlushScopes();
      PutLineMarkerInv(Abs());
      PutLineMarker();
      if |args| != 1 || PlainArg(args[0]).None? {
        ok := false;
        return;
      }
      PutOperator();
      EnterFunction(isTest, Hashed(hash, PlainArg(args[0]).value));
    }

    /** The definition's token and name, and its scope. */
    method EnterFunction(isTest: bool, name: HStr)
      requires Valid()
      modifies this
      ensures Valid()
      ensures var m := ScopeMachine.EnterScope(old(Abs()), DefOf(isTest, name), true, StCtrl);
              Abs() == m.(scopes := WithTop(m.scopes, ScopeMachine.Top(m.scopes).(inLoop := false, inFunction := true)))
    {
      hide Laid, Stemmed, EncHStr;
      PutStem([if isTest then TEST_DEF else REPLACE_DEF] + EncHStr(name), DefOf(isTest, name));
      EnterScope(true, StCtrl, scopes, DefOf(isTest, name));
      TopFacts(tok, blockstack, scopes);
      SetTop(blockstack[|blockstack| - 1].braceLevel, false, true);
    }

    method CallBypass(args: seq<Expr>)
      requires Valid() && Inv(Abs()) && ok
      modifies this
      ensures Valid() && Abs() == ScopeMachine.CallBypass(old(Abs()), args)
    {
      hide Laid, Stemmed, InvScopes, ScopeMachine.FlushScopes, ScopeMachine.PutLineMarker, ScopeMachine.PutOperator;
      TopFacts(tok, blockstack, scopes);
      if args != [] || !blockstack[|blockstack| - 1].nestFunction || invert > 0 {
        ok := false;
        return;
      }
      FlushScopesInv(Abs());
      FlushScopes();
      PutLineMarkerInv(Abs());
      PutLineMarker();
      PutOperator();
      PutStem([BYPASS_NESTING], BypassOf);
      EnterScope(true, StCtrl, scopes, BypassOf);
    }

    method CallReturn(args: seq<Expr>)
      requires Valid() && Inv(Abs()) && ok
      modifies this
      ensures Valid() && Abs() == ScopeMachine.CallReturn(old(Abs()), args)
    {
      hide Laid, InvScopes, ScopeMachine.FinalizeTest, PutHeaded, ReturnWords, WithoutLines, EncItem, EncExpr;
      ReturnCode(WithoutLines(ReturnWords(args)));
      TopFacts(tok, blockstack, scopes);
      var inFunction := blockstack[|blockstack| - 1].nestFunction;
      if (if inFunction then |args| > 1 else args != []) || invert > 0 {
        ok := false;
        return;
      }
      FinalizeTest();
      PutWords(ReturnWords(args), [RETURN], x => Return(x));
    }

    method CallJump(args: seq<Expr>, code: u16, ghost jump: Item)
      requires Valid() && Inv(Abs()) && ok && EncItem(jump) == [code]
      modifies this
      ensures Valid() && Abs() == ScopeMachine.CallJump(old(Abs()), args, jump)
    {
      hide Laid, InvScopes, ScopeMachine.FinalizeTest;
      TopFacts(tok, blockstack, scopes);
      if args != [] || !blockstack[|blockstack| - 1].nestLoop || invert > 0 {
        ok := false;
        return;
      }
      FinalizeTest();
      PutItem([code], jump);
    }

    method CallOption(args: seq<Expr>)
      requires Valid() && ok
      modifies this`ok
      ensures Valid() && Abs() == ScopeMachine.CallOption(old(Abs()), args)
    {
      TopFacts(tok, blockstack, scopes);
      hide Laid;
      if state != StNew || blockstack[|blockstack| - 1].braceLevel > 0 || |blockstack| > 1 || invert > 0 || op != NoOperator {
        ok := false;
      } else if |args| != 1 || PlainArg(args[0]) != Some(U("host_build")) {
        ok := false;
      }
    }

    method FinalizeCall(x: Expr, args: seq<Expr>)
      requires Valid() && Inv(Abs()) && ok
      modifies this
      ensures Valid() && Abs() == ScopeMachine.FinalizeCall(hash, old(Abs()), x, args)
    {
      hide Laid, InvScopes, ScopeMachine.FinalizeTest, PutHeaded, ScopeMachine.CallFor, ScopeMachine.CallDefine,
           ScopeMachine.CallBypass, ScopeMachine.CallReturn, ScopeMachine.CallJump, ScopeMachine.CallOption;
      var name := Literal(x);
      if name == Some(FOR) {
        CallFor(args);
      } else if name == Some(DEFINE_REPLACE) {
        CallDefine(false, args);
      } else if name == Some(DEFINE_TEST) {
        CallDefine(true, args);
      } else if name == Some(ScopeMachine.BYPASS) {
        CallBypass(args);
      } else if name == Some(RETURN_NAME) {
        CallReturn(args);
      } else if name == Some(NEXT_NAME) {
        CallJump(args, NEXT, Next);
      } else if name == Some(BREAK_NAME) {
        CallJump(args, BREAK, Break);
      } else if name == Some(OPTION_NAME) {
        CallOption(args);
      } else {
        FinalizeTest();
        CallWords(x, args);
      }
    }

    method CallWords(x: Expr, args: seq<Expr>)
      requires Valid() && ScopeMachine.Top(scopes).fork.NoFork?
      modifies this`tok, this`scopes
      ensures Valid() && Abs() == PutHeaded(old(Abs()), x, h => Call(h, args))
    {
      ghost var h := WithoutLines(x);
      assert EncItem(Call(h, args)) == EncExpr(h) + ([TEST_CALL] + EncArgs(args) + [FUNC_TERMINATOR]);
      hide Laid, EncItem, EncArgs, PutHeaded;
      PutWords(x, [TEST_CALL] + EncArgs(args) + [FUNC_TERMINATOR], h => Call(h, args));
    }

    // ----- events -----------------------------------------------------------------

    method FreshLine()
      modifies this`state, this`invert, this`op, this`markLine, this`lineNo
      ensures Abs() == ScopeMachine.FreshLine(old(Abs()))
    {
      lineNo := lineNo + 1;
      state, invert, op, markLine := StNew, 0, NoOperator, lineNo;
    }

    method CloseScope()
      requires Valid() && Inv(Abs()) && ok
      modifies this
      ensures Valid() && Abs() == ScopeMachine.CloseScope(old(Abs()))
    {
      hide Laid, InvScopes, Leavable, ScopeMachine.FlushScopes, ScopeMachine.LeaveScope;
      FlushScopesInv(Abs());
      FlushScopes();
      FailOperator();
      TopFacts(tok, blockstack, scopes);
      var top := blockstack[|blockstack| - 1];
      if top.braceLevel == 0 {
        ok := false;
        return;
      }
      LowerInv(scopes);
      SetTop(top.braceLevel - 1, top.nestLoop, top.nestFunction);
      TopFacts(tok, blockstack, scopes);
      if top.braceLevel == 1 && |blockstack| != 1 {
        InvLeavable(scopes);
        LeaveScope();
        state, canElse, markLine := StNew, false, lineNo;
      }
    }

    method OpenScope()
      requires Valid() && Inv(Abs()) && ok
      modifies this
      ensures Valid() && Abs() == ScopeMachine.OpenScope(old(Abs()))
    {
      hide Laid, InvScopes, ScopeMachine.FlushCond;
      if op == AndOperator {
        op := NoOperator;
      }
      FailOperator();
      FlushCond();
      TopFacts(tok, blockstack, scopes);
      var top := blockstack[|blockstack| - 1];
      state := StNew;
      SetTop(top.braceLevel + 1, top.nestLoop, top.nestFunction);
    }

    method PutAssignment(w: Words, aop: AssignOp, hint: u16, rhs: Expr)
      requires Valid() && Inv(Abs()) && ok
      modifies this
      ensures Valid() && Abs() == ScopeMachine.Assigned(old(Abs()), w, aop, hint, rhs)
    {
      hide Laid, InvScopes, ScopeMachine.FlushCond, ScopeMachine.PutLineMarker, PutHeaded;
      FlushCondInv(Abs());
      FlushCond();
      AcceptColon();
      if !w.Word? {
        ok := false;
        return;
      }
      PutLineMarkerInv(Abs());
      PutLineMarker();
      AssignWords(w.x, aop, hint, rhs);
    }

    method AssignWords(x: Expr, aop: AssignOp, hint: u16, rhs: Expr)
      requires Valid() && ScopeMachine.Top(scopes).fork.NoFork?
      modifies this`tok, this`scopes
      ensures Valid() && Abs() == PutHeaded(old(Abs()), x, lhs => Assign(lhs, aop, hint, rhs))
    {
      ghost var h := WithoutLines(x);
      assert EncItem(Assign(h, aop, hint, rhs)) == EncExpr(h) + ([OpTok(aop), hint] + EncExpr(rhs) + [VALUE_TERMINATOR]);
      hide Laid, EncItem, EncExpr, PutHeaded, OpTok;
      PutWords(x, [OpTok(aop), hint] + EncExpr(rhs) + [VALUE_TERMINATOR], lhs => Assign(lhs, aop, hint, rhs));
    }

    /** One event; after a parse error the rest of the file is passed over. */
    method HandleEvent(e: Event)
      requires Valid() && (ok ==> Inv(Abs())) && WfEvent(e)
      modifies this
      ensures Valid() && Abs() == ScopeMachine.Step(hash, old(Abs()), e) && (ok ==> Inv(Abs()))
    {
      if ok {
        StepInv(hash, Abs(), e);
        HandleGoodEvent(e);
      }
    }

    method HandleGoodEvent(e: Event)
      requires Valid() && Inv(Abs()) && ok && WfEvent(e)
      modifies this
      ensures Valid() && Abs() == ScopeMachine.Step(hash, old(Abs()), e)
    {
      hide Laid, InvScopes, ScopeMachine.FinalizeCond, ScopeMachine.FinalizeCall, ScopeMachine.CloseScope,
           ScopeMachine.OpenScope, Assigned;
      match e {
        case Bang => invert := invert + 1;
        case Garbled => ok := false;
        case Colon(w) =>
          FinalizeCond(w);
          WarnOperator();
          if state == StNew { ok := false; } else { op := AndOperator; }
        case Pipe(w) =>
          FinalizeCond(w);
          WarnOperator();
          if state != StCond { ok := false; } else { op := OrOperator; }
        case Open(w) =>
          FinalizeCondInv(Abs(), w);
          FinalizeCond(w);
          if ok { OpenScope(); }
        case Close(w) =>
          FinalizeCondInv(Abs(), w);
          FinalizeCond(w);
          if ok {
            state := StNew;
            CloseScope();
          }
        case Newline(w) =>
          FinalizeCond(w);
          FreshLine();
        case Continued(comment) =>
          if comment && markLine == lineNo { markLine := markLine + 1; }
          lineNo := lineNo + 1;
        case Invoke(x, args) => FinalizeCall(x, args);
        case Assignment(w, aop, hint, rhs, end) =>
          AssignedInv(Abs(), w, aop, hint, rhs);
          PutAssignment(w, aop, hint, rhs);
          if ok {
            match end {
              case AtNewline => FreshLine();
              case AtBrace => CloseScope();
              case AtEof =>
            }
          }
      }
    }

    /** The events of a whole file; the stream is in `tok` if the file is accepted. */
    method Read(es: seq<Event>, last: Words)
      requires Valid() && Abs() == Start(1) && WfEvents(es) && WfWords(last)
      modifies this
      ensures Parse(hash, es, last).Some? == ok
      ensures ok ==> tok == EncItems(Parse(hash, es, last).value)
    {
      hide Laid, InvScopes, ScopeMachine.FinalizeCond, ScopeMachine.Step, ScopeMachine.FlushScopes;
      StartInv();
      ghost var m := Abs();
      for i := 0 to |es|
        invariant Valid() && (ok ==> Inv(Abs()))
        invariant Run(hash, Abs(), es[i..]) == Run(hash, m, es)
      {
        HandleEvent(es[i]);
        assert es[i..][1..] == es[i + 1..];
      }
      if ok {
        FinalizeCondInv(Abs(), last);
        FinishInv(Abs(), last);
        FinalizeCond(last);
        WarnOperator();
        FlushOk(Abs());
        if ok {
          End();
        }
      }
    }

    method End()
      requires Valid() && Inv(Abs()) && ok
      modifies this
      ensures Valid()
      ensures var m1 := ScopeMachine.FlushScopes(old(Abs()));
              var good := |m1.scopes| == 1 && ScopeMachine.Top(m1.scopes).brace == 0;
              ok == good && (ok ==> tok == EncItems(CloseFork(ScopeMachine.Top(m1.scopes)).items))
    {
      hide Laid, InvScopes, ScopeMachine.FlushScopes, EncItems, CloseFork;
      FlushScopesInv(Abs());
      FlushScopes();
      TopFacts(tok, blockstack, scopes);
      if |blockstack| > 1 || blockstack[|blockstack| - 1].braceLevel > 0 {
        ok := false;
        return;
      }
      ForkKnown(scopes);
      RootKnown(scopes);
      ghost var t := ScopeMachine.Top(scopes);
      CloseOpenFork();
      RootCode(tok, blockstack, scopes, t);
    }
  }

  lemma {:induction false} FlushOk(m: Machine)
    ensures ScopeMachine.FlushScopes(m).ok == m.ok
  {
  }

  lemma {:induction false} LowerInv(s: Scopes)
    requires InvScopes(s) && ScopeMachine.Top(s).brace > 0
    ensures InvScopes(WithTop(s, ScopeMachine.Top(s).(brace := ScopeMachine.Top(s).brace - 1)))
  {
    WithTopInv(s, ScopeMachine.Top(s).(brace := ScopeMachine.Top(s).brace - 1));
  }

  lemma {:induction false} RootKnown(s: Scopes)
    requires InvScopes(s) && |s| == 1
    ensures ScopeMachine.Top(s).open.Root?
  {
  }

  /** The root scope alone is just its items. */
  lemma {:induction false} RootCode(tok: seq<u16>, bs: seq<BlockScope>, s: Scopes, t: Scope)
    requires Laid(tok, bs, s) && |s| == 1 && ScopeMachine.Top(s) == CloseFork(t) && t.open.Root? && !t.fork.ThenOpen?
    ensures tok == EncItems(CloseFork(t).items)
  {
    assert s[..0] == [];
  }

  lemma {:induction false} ForkKnown(s: Scopes)
    requires InvScopes(s)
    ensures !ScopeMachine.Top(s).fork.ThenOpen?
  {
  }
}
