/** Python's bitwise operators on the passage masks, written out on unbounded
    integers. Every mask operation in the labyrinth combines a cell with one of
    the four single-bit flags 1, 2, 4 and 8. */
module Bits {

  predicate IsFlag(b: int) { b == 1 || b == 2 || b == 4 || b == 8 }

  /** `m & b != 0` for a flag `b`. Dividing by a positive divisor rounds down in
      Dafny, so this reads the two's-complement bit of `m` exactly as Python does,
      negative `m` included. */
  predicate HasBit(m: int, b: int)
    requires IsFlag(b)
  {
    (m / b) % 2 == 1
  }

  /** `m | b` for a flag `b`. */
  function Or(m: int, b: int): (r: int)
    requires IsFlag(b)
    ensures HasBit(r, b)
    ensures r == m <==> HasBit(m, b)
    ensures r != 0
    ensures 0 <= m < 16 ==> 0 <= r < 16
  {
    if HasBit(m, b) then m else m + b
  }

  /** A flag of a mask is the same flag of its low four bits. */
  lemma {:induction false} LowBits(m: int, c: int)
    requires IsFlag(c)
    ensures HasBit(m, c) == HasBit(m % 16, c)
  {
    var q, r := m / 16, m % 16;
    assert m == 16 * q + r;
    if c == 1 { assert m / 1 == 2 * (8 * q) + r; }
    else if c == 2 { assert m / 2 == 2 * (4 * q) + r / 2; }
    else if c == 4 { assert m / 4 == 2 * (2 * q) + r / 4; }
    else { assert m / 8 == 2 * q + r / 8; }
  }

  /** On a 4-bit mask without the flag `b`, adding `b` stays within four bits
      and leaves the other three flags alone. */
  lemma {:induction false} AddKeepsLowBits(r: int, b: int, c: int)
    requires IsFlag(b) && IsFlag(c) && b != c
    requires 0 <= r < 16 && !HasBit(r, b)
    ensures r + b < 16
    ensures HasBit(r + b, c) == HasBit(r, c)
  {
    // One case per pair of flags: each is then plain arithmetic on r.
    if b == 1 && c == 2 {
    } else if b == 1 && c == 4 {
    } else if b == 1 && c == 8 {
    } else if b == 2 && c == 1 {
    } else if b == 2 && c == 4 {
    } else if b == 2 && c == 8 {
    } else if b == 4 && c == 1 {
    } else if b == 4 && c == 2 {
    } else if b == 4 && c == 8 {
    } else {
    }
  }

  /** Adding to a mask what its low four bits leave room for changes only
      those bits. */
  lemma {:induction false} AddLow(m: int, k: int)
    requires 0 <= m % 16 + k < 16
    ensures (m + k) % 16 == m % 16 + k
  {
    assert m + k == 16 * (m / 16) + (m % 16 + k);
  }

  /** Or-ing in one flag leaves every other flag alone, for every integer. */
  lemma {:induction false} OrKeepsOtherBits(m: int, b: int, c: int)
    requires IsFlag(b) && IsFlag(c) && b != c
    ensures HasBit(Or(m, b), c) == HasBit(m, c)
  {
    LowBits(m, b);
    LowBits(m, c);
    if !HasBit(m, b) {
      var r := m % 16;
      AddKeepsLowBits(r, b, c);
      AddLow(m, b);
      LowBits(m + b, c);
    }
  }

  /** Or-ing the same flag twice is or-ing it once, for every integer. */
  lemma {:induction false} OrIdempotent(m: int, b: int)
    requires IsFlag(b)
    ensures Or(Or(m, b), b) == Or(m, b)
  {
  }
}
