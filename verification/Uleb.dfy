/**
 Unsigned LEB128 (section 7.6 of the DWARF 5 standard) as the tracker's C code reads it: a
 64-bit accumulator, a shift-and-or loop of at most ten bytes, and 0 for a group that does not
 end. The arithmetic is over naturals; the width of `uintptr_t` is written out as WORD.
 */
module Uleb {
  import opened Arithmetic
  import opened Bytes

  /** The number of values of a 64-bit word. */
  const WORD: nat := 0x1_0000_0000_0000_0000

  /** The loop runs while `bit < 64`, in steps of seven bits. */
  const MAX_BYTES: nat := 10

  /** Bitwise or of two naturals, bit by bit. */
  function Or(a: nat, b: nat): nat {
    if a == 0 then b
    else 2 * Or(a / 2, b / 2) + (if a % 2 == 1 || b % 2 == 1 then 1 else 0)
  }

  /** `(uintptr_t)a << bit`: the bits above the 64th are lost. */
  function ShiftLeft(a: nat, bit: nat): nat {
    a * Pow2(bit) % WORD
  }

  /** The base-128 sum of the low seven bits of each byte, least significant first. */
  function Value(bytes: seq<Byte>): nat {
    if bytes == [] then 0 else bytes[0] % 128 + 128 * Value(bytes[1..])
  }

  /** One encoded number: every byte but the last has its high bit set, and there are at most ten. */
  predicate IsGroup(bytes: seq<Byte>) {
    && 1 <= |bytes| <= MAX_BYTES
    && bytes[|bytes| - 1] < 128
    && forall i :: 0 <= i < |bytes| - 1 ==> bytes[i] >= 128
  }

  /** The encoding of section 7.6: low seven bits first, high bit set while more follow. */
  function Encode(n: nat): seq<Byte> {
    if n < 128 then [n] else [n % 128 + 128] + Encode(n / 128)
  }

  /** Where the reading loop stops when it may still take `budget` bytes. */
  function GroupEnd(image: seq<Byte>, at: nat, budget: nat): (end: nat)
    requires at <= |image|
    ensures at <= end <= |image|
    ensures end <= at + budget
    decreases budget
  {
    if at == |image| || budget == 0 then at
    else if image[at] < 128 then at + 1
    else GroupEnd(image, at + 1, budget - 1)
  }

  /** Whether a byte without the high bit comes within `budget` bytes and inside the image. */
  predicate Terminated(image: seq<Byte>, at: nat, budget: nat)
    requires at <= |image|
    decreases budget
  {
    && at < |image|
    && budget > 0
    && (image[at] < 128 || Terminated(image, at + 1, budget - 1))
  }

  /** The number a reader finds at `at`: the base-128 sum modulo the word, or 0 without a terminator. */
  function Decoded(image: seq<Byte>, at: nat): (value: nat)
    requires at <= |image|
    ensures value < WORD
  {
    if Terminated(image, at, MAX_BYTES)
    then Value(image[at..GroupEnd(image, at, MAX_BYTES)]) % WORD
    else 0
  }

  // Arithmetic of the shift-and-or step

  lemma Pow2Sum(a: nat, b: nat)
    ensures Pow2(a + b) == Pow2(a) * Pow2(b)
  {
    if a != 0 {
      Pow2Sum(a - 1, b);
      assert Pow2(a) * Pow2(b) == 2 * (Pow2(a - 1) * Pow2(b));
    }
  }

  lemma WordIsPow2()
    ensures Pow2(64) == WORD
  {
    assert Pow2(4) == 16;
    Pow2Sum(4, 4);
    Pow2Sum(8, 8);
    Pow2Sum(16, 16);
    Pow2Sum(32, 32);
  }

  /** Or is addition when the right operand's low `bit` bits are clear and the left one fits in them. */
  lemma {:induction false} OrAddsAbove(low: nat, high: nat, bit: nat)
    requires low < Pow2(bit)
    ensures Or(low, high * Pow2(bit)) == low + high * Pow2(bit)
  {
    if low != 0 {
      var rest := high * Pow2(bit - 1);
      assert high * Pow2(bit) == 2 * rest;
      OrAddsAbove(low / 2, high, bit - 1);
    }
  }

  lemma SplitDigit(digit: nat, p: nat, q: nat, k: nat, m: nat)
    requires digit == k * q + m && m < q
    ensures digit * p == k * (p * q) + m * p
    ensures m * p + p <= p * q
  {
    Distribute(k * q, m, p);
    Associate(k, q, p);
    Distribute(q - m - 1, m + 1, p);
    Distribute(m, 1, p);
  }

  /** Dropping a digit's overflow before adding is the same as reducing the sum. */
  lemma OverflowDrops(low: nat, digit: nat, p: nat, q: nat, word: nat)
    requires low < p && q > 0 && word == p * q && word > 0
    ensures digit * p % word == digit % q * p
    ensures (low + digit * p) % word == low + digit % q * p < word
  {
    var k, m := digit / q, digit % q;
    SplitDigit(digit, p, q, k, m);
    ModUnique(digit * p, word, k, m * p);
    ModUnique(low + digit * p, word, k, low + m * p);
  }

  /** One turn of the loop adds the shifted digit modulo the word, also when it overflows. */
  lemma ShiftOrAdds(low: nat, digit: nat, bit: nat)
    requires bit < 64 && low < Pow2(bit)
    ensures Or(low, ShiftLeft(digit, bit)) == (low + digit * Pow2(bit)) % WORD
  {
    var p, q := Pow2(bit), Pow2(64 - bit);
    WordIsPow2();
    Pow2Sum(bit, 64 - bit);
    OverflowDrops(low, digit, p, q, WORD);
    OrAddsAbove(low, digit % q, bit);
  }

  lemma {:induction false} ValueSnoc(bytes: seq<Byte>, last: Byte)
    ensures Value(bytes + [last]) == Value(bytes) + last % 128 * Pow2(7 * |bytes|)
    ensures Value(bytes) < Pow2(7 * |bytes|)
  {
    if bytes == [] {
      assert bytes + [last] == [last];
      assert Value([last]) == last % 128 + 128 * Value([last][1..]);
    } else {
      ValueSnoc(bytes[1..], last);
      assert (bytes + [last])[1..] == bytes[1..] + [last];
      var p := Pow2(7 * |bytes[1..]|);
      assert Pow2(7) == 128;
      Pow2Sum(7, 7 * |bytes[1..]|);
      assert Pow2(7 * |bytes|) == 128 * p;
      assert 128 * (last % 128 * p) == last % 128 * (128 * p);
    }
  }

  lemma BelowWord(bit: nat)
    requires bit < 64
    ensures Pow2(bit) < WORD
  {
    WordIsPow2();
    Pow2Sum(bit, 64 - bit);
    var p, q := Pow2(bit), Pow2(64 - bit);
    assert q == 2 * Pow2(63 - bit);
    hide Pow2;
    MultipleOutgrows(q - 1, p);
    Distribute(q - 1, 1, p);
  }

  /** The accumulator stays the base-128 sum modulo the word when a byte is taken in. */
  lemma StepAdds(image: seq<Byte>, at: nat, cursor: nat, result: nat)
    requires at <= cursor < |image| && cursor - at < MAX_BYTES
    requires result == Value(image[at..cursor]) % WORD
    ensures Or(result, ShiftLeft(image[cursor] % 128, 7 * (cursor - at))) == Value(image[at..cursor + 1]) % WORD
  {
    hide Or, ShiftLeft, Value, Pow2;
    var taken, current := image[at..cursor], image[cursor];
    assert image[at..cursor + 1] == taken + [current];
    ValueSnoc(taken, current);
    BelowWord(7 * |taken|);
    ShiftOrAdds(result, current % 128, 7 * |taken|);
  }

  // The loop

  lemma {:induction false} GroupSplit(image: seq<Byte>, at: nat, cursor: nat, budget: nat)
    requires at <= cursor <= |image| && cursor - at <= budget
    requires forall i :: at <= i < cursor ==> image[i] >= 128
    ensures GroupEnd(image, at, budget) == GroupEnd(image, cursor, budget - (cursor - at))
    ensures Terminated(image, at, budget) == Terminated(image, cursor, budget - (cursor - at))
    decreases cursor - at
  {
    if at < cursor {
      GroupSplit(image, at + 1, cursor, budget - 1);
    }
  }

  lemma GroupStops(image: seq<Byte>, at: nat, cursor: nat)
    requires at < cursor <= |image| && cursor - at <= MAX_BYTES
    requires (forall i :: at <= i < cursor - 1 ==> image[i] >= 128) && image[cursor - 1] < 128
    ensures GroupEnd(image, at, MAX_BYTES) == cursor && Terminated(image, at, MAX_BYTES)
  {
    GroupSplit(image, at, cursor - 1, MAX_BYTES);
  }

  lemma GroupUnterminated(image: seq<Byte>, at: nat, cursor: nat)
    requires at <= cursor <= |image| && cursor - at <= MAX_BYTES
    requires forall i :: at <= i < cursor ==> image[i] >= 128
    requires cursor == |image| || cursor - at == MAX_BYTES
    ensures GroupEnd(image, at, MAX_BYTES) == cursor && !Terminated(image, at, MAX_BYTES)
  {
    GroupSplit(image, at, cursor, MAX_BYTES);
  }

  /**
   The C `read_uleb`: it advances the cursor over the group and returns its value. Every read is
   inside the image.
   */
  method ReadUleb(image: seq<Byte>, at: nat) returns (result: nat, cursor: nat)
    requires at <= |image|
    ensures result == Decoded(image, at)
    ensures cursor == GroupEnd(image, at, MAX_BYTES)
  {
    assert Value([]) == 0 && Value([]) % WORD == 0;
    hide Or, ShiftLeft, Value, Terminated, GroupEnd, Pow2;
    result, cursor := 0, at;
    var bit := 0;
    while cursor < |image| && bit < 64
      invariant at <= cursor <= |image|
      invariant bit == 7 * (cursor - at) <= 70
      invariant forall i :: at <= i < cursor ==> image[i] >= 128
      invariant result == Value(image[at..cursor]) % WORD
    {
      var current := image[cursor];
      StepAdds(image, at, cursor, result);
      result := Or(result, ShiftLeft(current % 128, bit));
      cursor := cursor + 1;
      if current < 128 {
        GroupStops(image, at, cursor);
        return;
      }
      bit := bit + 7;
    }
    GroupUnterminated(image, at, cursor);
    result := 0;
  }

  // What the reader returns

  /** A complete group read anywhere gives its base-128 sum modulo 2^64 and is consumed exactly. */
  lemma DecodesGroup(image: seq<Byte>, from: nat, to: nat)
    requires from < to <= |image| && IsGroup(image[from..to])
    ensures Decoded(image, from) == Value(image[from..to]) % WORD
    ensures GroupEnd(image, from, MAX_BYTES) == to
  {
    var group := image[from..to];
    forall i | from <= i < to - 1
      ensures image[i] >= 128
    {
      assert image[i] == group[i - from];
    }
    assert image[to - 1] == group[|group| - 1];
    GroupSplit(image, from, to - 1, MAX_BYTES);
  }

  /** Anything else reads as 0, and the cursor stops at the end of the image or after ten bytes. */
  lemma DecodesNothingElse(image: seq<Byte>, from: nat)
    requires from <= |image|
    requires forall to :: from < to <= |image| ==> !IsGroup(image[from..to])
    ensures Decoded(image, from) == 0
    ensures GroupEnd(image, from, MAX_BYTES) == if from + MAX_BYTES <= |image| then from + MAX_BYTES else |image|
  {
    var stop := FirstLow(image, from, MAX_BYTES);
    LowByteEndsGroup(image, from, stop);
    GroupSplit(image, from, stop, MAX_BYTES);
  }

  lemma LowByteEndsGroup(image: seq<Byte>, from: nat, stop: nat)
    requires from <= stop <= |image|
    requires forall i :: from <= i < stop ==> image[i] >= 128
    requires stop < |image| ==> image[stop] < 128 || stop - from >= MAX_BYTES
    ensures stop < |image| && stop - from < MAX_BYTES ==> IsGroup(image[from..stop + 1])
  {
  }

  /** The first byte without the high bit among the next `budget`, or where that search ends. */
  lemma {:induction false} FirstLow(image: seq<Byte>, from: nat, budget: nat) returns (stop: nat)
    requires from <= |image|
    ensures from <= stop <= |image| && stop - from <= budget
    ensures forall i :: from <= i < stop ==> image[i] >= 128
    ensures stop < |image| && stop - from < budget ==> image[stop] < 128
    decreases budget
  {
    if from == |image| || budget == 0 || image[from] < 128 {
      stop := from;
    } else {
      stop := FirstLow(image, from + 1, budget - 1);
    }
  }

  lemma {:induction false} EncodeIsGroup(n: nat, size: nat)
    requires 1 <= size <= MAX_BYTES && n < Pow2(7 * size)
    ensures |Encode(n)| <= size && IsGroup(Encode(n))
    ensures Value(Encode(n)) == n
  {
    if n < 128 {
      assert Encode(n)[1..] == [];
    } else {
      assert Pow2(7) == 128;
      assert size > 1;
      Pow2Sum(7, 7 * (size - 1));
      EncodeIsGroup(n / 128, size - 1);
      assert Encode(n)[1..] == Encode(n / 128);
    }
  }

  lemma EncodeFits(n: nat)
    requires n < WORD
    ensures IsGroup(Encode(n)) && Value(Encode(n)) == n
  {
    WordIsPow2();
    Pow2Sum(64, 6);
    assert Pow2(70) == Pow2(64) * Pow2(6) > n;
    hide Pow2, Value, Encode, IsGroup;
    EncodeIsGroup(n, MAX_BYTES);
  }

  /** Reading inverts encoding for every 64-bit number, in any surroundings. */
  lemma ReadInvertsEncode(before: seq<Byte>, n: nat, after: seq<Byte>)
    requires n < WORD
    ensures var image := before + Encode(n) + after;
            && Decoded(image, |before|) == n
            && GroupEnd(image, |before|, MAX_BYTES) == |before| + |Encode(n)|
  {
    hide Pow2, Value, Encode, Terminated, GroupEnd, IsGroup, Decoded;
    EncodeFits(n);
    var image := before + Encode(n) + after;
    var from, to := |before|, |before| + |Encode(n)|;
    assert image[from..to] == Encode(n);
    assert |Encode(n)| > 0 by {
      GroupsAreNotEmpty(Encode(n));
    }
    DecodesGroup(image, from, to);
  }

  lemma GroupsAreNotEmpty(bytes: seq<Byte>)
    requires IsGroup(bytes)
    ensures |bytes| > 0
  {
  }
}
