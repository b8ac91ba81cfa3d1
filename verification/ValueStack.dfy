// The evaluator's stack of variable maps, as values: what each lookup and each
// scope operation of the evaluator means.
module ValueStack {
  import opened Tokens

  /** A binding: a value, or the tombstone that `unset` leaves. */
  datatype Val = Fake | Vals(l: seq<Str>)

  type Frame = map<Str, Val>

  /** Outermost frame first. There is always a global frame. */
  type Stack = s: seq<Frame> | |s| > 0 witness [map[]]

  /** Names that are visible only in the frame that binds them: all digits. */
  predicate IsFunctParam(name: Str) {
    forall i | 0 <= i < |name| :: '0' as int <= name[i] <= '9' as int
  }

  function Deref(v: Val): seq<Str> {
    if v.Fake? then [] else v.l
  }

  function Top(s: Stack): Frame { s[|s| - 1] }

  function SetTop(s: Stack, name: Str, v: Val): Stack {
    s[|s| - 1 := Top(s)[name := v]]
  }

  function Push(s: Stack, f: Frame): Stack { s + [f] }

  function Pop(s: Stack): Stack {
    if |s| == 1 then s else s[..|s| - 1]
  }

  /** The innermost frame below `n` that binds `name`, or -1. */
  function Innermost(s: seq<Frame>, n: nat, name: Str): (r: int)
    requires n <= |s|
    ensures -1 <= r < n
    ensures r >= 0 ==> name in s[r]
    ensures forall k | r < k < n :: name !in s[k]
  {
    if n == 0 then -1
    else if name in s[n - 1] then n - 1
    else Innermost(s, n - 1, name)
  }

  /** The frame a lookup of `name` ends in, or -1. */
  function Binding(s: Stack, name: Str): (r: int)
    ensures -1 <= r < |s|
    ensures r >= 0 ==> name in s[r]
  {
    if name in Top(s) then |s| - 1
    else if IsFunctParam(name) then -1
    else Innermost(s, |s|, name)
  }

  /** The visible value of a name; unbound and unset names are empty. */
  function Values(s: Stack, name: Str): seq<Str> {
    var i := Binding(s, name);
    if i < 0 then [] else Deref(s[i][name])
  }

  /** Fetching a name for writing copies its visible value into the top frame. */
  function Materialize(s: Stack, name: Str): Stack {
    if name in Top(s) && Top(s)[name].Vals? then s
    else SetTop(s, name, Vals(Values(s, name)))
  }

  lemma {:induction false} SetMaterialized(s: Stack, name: Str)
    ensures forall v :: SetTop(Materialize(s, name), name, v) == SetTop(s, name, v)
  {
    forall v ensures SetTop(Materialize(s, name), name, v) == SetTop(s, name, v) {
      assert Top(Materialize(s, name))[name := v] == Top(s)[name := v];
    }
  }

  function Unset(s: Stack, name: Str): (bool, Stack) {
    var i := Binding(s, name);
    if i < 0 || s[i][name].Fake? then (false, s)
    else if |s| == 1 then (true, [s[0] - {name}])
    else (true, SetTop(s, name, Fake))
  }

  function Export(s: Stack, name: Str): Stack {
    var i := Innermost(s, |s|, name);
    if i <= 0 then s
    else
      seq(|s|, k requires 0 <= k < |s| =>
        if k == 0 then s[0][name := Vals(Deref(s[i][name]))] else s[k] - {name})
  }
}
