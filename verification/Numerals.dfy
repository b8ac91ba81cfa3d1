// Decimal numerals, by what they read as.
module Numerals {
  import opened Tokens
  import opened ValueStack
  import opened Semantics

  const ZERO: u16 := 48
  const MINUS: u16 := 45

  /** The number a word of decimal digits reads as. */
  function Reading(w: Str): nat
    requires IsFunctParam(w)
  {
    if w == [] then 0 else 10 * Reading(w[..|w| - 1]) + w[|w| - 1] - ZERO
  }

  /** The word is `n` in decimal digits, without leading zeros. */
  predicate Numeral(w: Str, n: nat) {
    w != [] && IsFunctParam(w) && Reading(w) == n && (w[0] == ZERO ==> |w| == 1)
  }

  /** The same for integers: a minus sign in front of a negative one. */
  predicate SignedNumeral(w: Str, i: int) {
    if i < 0 then w != [] && w[0] == MINUS && Numeral(w[1..], -i) else Numeral(w, i)
  }

  /** One digit more. */
  lemma {:induction false} OneDigitMore(w: Str, m: nat, r: nat)
    requires r < 10 && if m == 0 then w == [] else Numeral(w, m)
    ensures Numeral(w + [ZERO + r], 10 * m + r)
  {
    var v := w + [ZERO + r];
    assert v[..|v| - 1] == w;
    assert m == 0 ==> Reading([]) == 0;
    if |w| == 1 {
      SingleDigit(w);
    }
  }

  lemma {:induction false} SingleDigit(w: Str)
    requires |w| == 1 && IsFunctParam(w)
    ensures Reading(w) == w[0] - ZERO
  {
    assert w[..0] == [];
  }

  lemma {:induction false} DigitsRead(n: nat)
    ensures Numeral(Digits(n), n)
  {
    hide *;
    LastDigit(n);
    if n >= 10 {
      DigitsRead(n / 10);
    }
    OneDigitMore(if n < 10 then [] else Digits(n / 10), n / 10, n % 10);
  }

  lemma {:induction false} LastDigit(n: nat)
    ensures Digits(n) == (if n < 10 then [] else Digits(n / 10)) + [ZERO + n % 10]
    ensures 10 * (n / 10) + n % 10 == n && (n < 10 <==> n / 10 == 0) && n % 10 < 10
  {
  }

  lemma {:induction false} NumberReads(i: int)
    ensures SignedNumeral(Number(i), i)
  {
    if i < 0 {
      DigitsRead(-i);
      assert ([MINUS] + Digits(-i))[1..] == Digits(-i);
    } else {
      DigitsRead(i);
    }
  }

  lemma {:induction false} NotZero(w: Str)
    requires w != [] && IsFunctParam(w) && w[0] != ZERO
    ensures Reading(w) >= 1
  {
    if |w| == 1 {
      SingleDigit(w);
    } else {
      NotZero(w[..|w| - 1]);
    }
  }

  /** A number has one numeral. */
  lemma {:induction false} OneNumeral(v: Str, w: Str, n: nat)
    requires Numeral(v, n) && Numeral(w, n)
    ensures v == w
  {
    Split(v, n);
    Split(w, n);
    if |v| > 1 && |w| > 1 {
      OneNumeral(v[..|v| - 1], w[..|w| - 1], n / 10);
    }
  }

  /** The last digit of a numeral, and the numeral in front of it. */
  lemma {:induction false} Split(w: Str, n: nat)
    requires Numeral(w, n)
    ensures w == w[..|w| - 1] + [ZERO + n % 10]
    ensures |w| > 1 <==> n >= 10
    ensures |w| > 1 ==> Numeral(w[..|w| - 1], n / 10)
  {
    var v := w[..|w| - 1];
    assert w == v + [w[|w| - 1]];
    if |w| > 1 {
      NotZero(v);
    } else {
      SingleDigit(w);
    }
  }
}
