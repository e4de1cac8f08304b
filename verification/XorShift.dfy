/** Bit facts: a word xored with a shift of itself determines the word. */
module ShiftBits {
  lemma {:induction false} UndoneLeft13(x: bv64)
    ensures var y := x ^ (x << 13); y ^ (y << 13) ^ (y << 26) ^ (y << 39) ^ (y << 52) == x
  {
  }

  lemma {:induction false} RedoneLeft13(x: bv64)
    ensures var y := x ^ (x << 13) ^ (x << 26) ^ (x << 39) ^ (x << 52); y ^ (y << 13) == x
  {
  }

  lemma {:induction false} UndoneRight7(x: bv64)
    ensures var y := x ^ (x >> 7);
            y ^ (y >> 7) ^ (y >> 14) ^ (y >> 21) ^ (y >> 28) ^ (y >> 35) ^ (y >> 42) ^ (y >> 49)
              ^ (y >> 56) ^ (y >> 63) == x
  {
  }

  lemma {:induction false} RedoneRight7(x: bv64)
    ensures var y := x ^ (x >> 7) ^ (x >> 14) ^ (x >> 21) ^ (x >> 28) ^ (x >> 35) ^ (x >> 42) ^ (x >> 49)
                       ^ (x >> 56) ^ (x >> 63);
            y ^ (y >> 7) == x
  {
  }

  lemma {:induction false} UndoneLeft17(x: bv64)
    ensures var y := x ^ (x << 17); y ^ (y << 17) ^ (y << 34) ^ (y << 51) == x
  {
  }

  lemma {:induction false} RedoneLeft17(x: bv64)
    ensures var y := x ^ (x << 17) ^ (x << 34) ^ (x << 51); y ^ (y << 17) == x
  {
  }
}

/** `XorShift64`: the generator behind the bootstrap. */
module XorShift {
  import opened ShiftBits

  // ---- the three mixings and what undoes them ----

  function Left13(x: bv64): bv64 {
    x ^ (x << 13)
  }

  function Right7(x: bv64): bv64 {
    x ^ (x >> 7)
  }

  function Left17(x: bv64): bv64 {
    x ^ (x << 17)
  }

  /** One step of the state word. */
  function Step(x: bv64): bv64 {
    Left17(Right7(Left13(x)))
  }

  function UndoLeft13(y: bv64): bv64 {
    y ^ (y << 13) ^ (y << 26) ^ (y << 39) ^ (y << 52)
  }

  function UndoRight7(y: bv64): bv64 {
    y ^ (y >> 7) ^ (y >> 14) ^ (y >> 21) ^ (y >> 28) ^ (y >> 35) ^ (y >> 42) ^ (y >> 49) ^ (y >> 56) ^ (y >> 63)
  }

  function UndoLeft17(y: bv64): bv64 {
    y ^ (y << 17) ^ (y << 34) ^ (y << 51)
  }

  /** The previous state word. */
  function Unstep(y: bv64): bv64 {
    UndoLeft13(UndoRight7(UndoLeft17(y)))
  }

  lemma {:induction false} Left13Is(x: bv64, y: bv64)
    ensures y == Left13(x) <==> y == x ^ (x << 13)
  {
  }

  lemma {:induction false} Left13Undone(x: bv64, y: bv64)
    requires y == x ^ (x << 13)
    ensures UndoLeft13(y) == x
  {
    UndoneLeft13(x);
  }

  lemma {:induction false} UndoLeft13Redone(x: bv64, y: bv64)
    requires y == x ^ (x << 13) ^ (x << 26) ^ (x << 39) ^ (x << 52)
    ensures Left13(y) == x
  {
    RedoneLeft13(x);
  }

  lemma {:induction false} Left13Inverse(x: bv64)
    ensures UndoLeft13(Left13(x)) == x && Left13(UndoLeft13(x)) == x
  {
    Left13Undone(x, Left13(x));
    UndoLeft13Redone(x, UndoLeft13(x));
  }

  lemma {:induction false} Right7Is(x: bv64, y: bv64)
    ensures y == Right7(x) <==> y == x ^ (x >> 7)
  {
  }

  lemma {:induction false} Right7Undone(x: bv64, y: bv64)
    requires y == x ^ (x >> 7)
    ensures UndoRight7(y) == x
  {
    UndoneRight7(x);
  }

  lemma {:induction false} UndoRight7Redone(x: bv64, y: bv64)
    requires y
             == x ^ (x >> 7) ^ (x >> 14) ^ (x >> 21) ^ (x >> 28) ^ (x >> 35) ^ (x >> 42) ^ (x >> 49)
                     ^ (x >> 56) ^ (x >> 63)
    ensures Right7(y) == x
  {
    RedoneRight7(x);
  }

  lemma {:induction false} Right7Inverse(x: bv64)
    ensures UndoRight7(Right7(x)) == x && Right7(UndoRight7(x)) == x
  {
    Right7Undone(x, Right7(x));
    UndoRight7Redone(x, UndoRight7(x));
  }

  lemma {:induction false} Left17Is(x: bv64, y: bv64)
    ensures y == Left17(x) <==> y == x ^ (x << 17)
  {
  }

  lemma {:induction false} Left17Undone(x: bv64, y: bv64)
    requires y == x ^ (x << 17)
    ensures UndoLeft17(y) == x
  {
    UndoneLeft17(x);
  }

  lemma {:induction false} UndoLeft17Redone(x: bv64, y: bv64)
    requires y == x ^ (x << 17) ^ (x << 34) ^ (x << 51)
    ensures Left17(y) == x
  {
    RedoneLeft17(x);
  }

  lemma {:induction false} Left17Inverse(x: bv64)
    ensures UndoLeft17(Left17(x)) == x && Left17(UndoLeft17(x)) == x
  {
    Left17Undone(x, Left17(x));
    UndoLeft17Redone(x, UndoLeft17(x));
  }

  /** The step is a bijection on 64-bit words. */
  lemma {:induction false} StepInverse(x: bv64)
    ensures Unstep(Step(x)) == x
    ensures Step(Unstep(x)) == x
  {
    Left13Inverse(x);
    Right7Inverse(Left13(x));
    Left17Inverse(Right7(Left13(x)));
    Left17Inverse(x);
    Right7Inverse(UndoLeft17(x));
    Left13Inverse(UndoRight7(UndoLeft17(x)));
  }

  lemma {:induction false} StepIs(x: bv64, a: bv64, b: bv64, y: bv64)
    requires a == Left13(x) && b == Right7(a) && y == Left17(b)
    ensures y == Step(x)
  {
  }

  lemma {:induction false} StepInjective(x: bv64, y: bv64)
    requires Step(x) == Step(y)
    ensures x == y
  {
    StepInverse(x);
    StepInverse(y);
  }

  lemma {:induction false} StepNonZero(x: bv64)
    requires x != 0
    ensures Step(x) != 0
  {
    assert Step(0) == 0;
    if Step(x) == 0 {
      StepInjective(x, 0);
    }
  }

  function Seeded(seed: bv64): bv64 {
    if seed == 0 then 0x9e37_79b9_7f4a_7c15 else seed
  }

  /** The state word after `n` draws. */
  function After(seed: bv64, n: nat): bv64 {
    if n == 0 then Seeded(seed) else Step(After(seed, n - 1))
  }

  /** From any seed the state never becomes zero. */
  lemma {:induction false} NeverZero(seed: bv64, n: nat)
    ensures After(seed, n) != 0
  {
    if n > 0 {
      NeverZero(seed, n - 1);
      StepNonZero(After(seed, n - 1));
    }
  }

  class XorShift64 {
    var state: bv64

    constructor (seed: bv64)
      ensures state == Seeded(seed) == After(seed, 0) != 0
    {
      state := if seed == 0 then 0x9e37_79b9_7f4a_7c15 else seed;
    }

    /** `index`: the next state word, reduced below a positive bound. */
    method Index(upper: nat) returns (i: nat)
      requires upper > 0
      modifies this
      ensures state == Step(old(state))
      ensures i == (state as int) % upper && i < upper
      ensures old(state) != 0 ==> state != 0
    {
      var first := MixLeft13(state);
      var second := MixRight7(first);
      var value := MixLeft17(second);
      StepIs(state, first, second, value);
      if state != 0 {
        StepNonZero(state);
      }
      state := value;
      i := (value as int) % upper;
    }
  }

  // ---- the three assignments of `index` ----

  method MixLeft13(x: bv64) returns (value: bv64)
    ensures value == Left13(x)
  {
    value := x;
    value := value ^ (value << 13);
    Left13Is(x, value);
  }

  method MixRight7(x: bv64) returns (value: bv64)
    ensures value == Right7(x)
  {
    value := x;
    value := value ^ (value >> 7);
    Right7Is(x, value);
  }

  method MixLeft17(x: bv64) returns (value: bv64)
    ensures value == Left17(x)
  {
    value := x;
    value := value ^ (value << 17);
    Left17Is(x, value);
  }
}
