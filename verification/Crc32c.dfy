/** Linear feedback registers over an arbitrary state type.

A checksum register is shifted once per input bit after each input byte has been
added to it. The error-detection argument needs only that shifting is linear and
invertible, so it is made here once, away from the bits of any one polynomial.
 */
module Registers {
  import opened Bytes

  /** `lift(b, i)` is the state that i bytes' worth of shifts turn into `lift(b, 0)`. */
  datatype Register<!T> = Register(bits: nat, shift: T -> T, add: (T, T) -> T, lift: (Byte, nat) -> T)

  function Shifts<T>(r: Register<T>, x: T, k: nat): T
    decreases k
  {
    if k == 0 then x else Shifts(r, r.shift(x), k - 1)
  }

  function Feed<T>(r: Register<T>, x: T, b: Byte): T {
    Shifts(r, r.add(x, r.lift(b, 0)), r.bits)
  }

  function FeedAll<T>(r: Register<T>, x: T, data: Blob): T
    decreases |data|
  {
    if data == [] then x else FeedAll(r, Feed(r, x, data[0]), data[1..])
  }

  /** A window of bytes as one addend; the byte at position i is lifted by i + k. */
  function Window<T>(r: Register<T>, data: Blob, k: nat): T
    requires data != []
    decreases |data|
  {
    if |data| == 1 then r.lift(data[0], k)
    else r.add(r.lift(data[0], k), Window(r, data[1..], k + 1))
  }

  // The laws are stated over named terms, so that a proof uses a law only where
  // it mentions the term.

  function Sum<T>(r: Register<T>, a: T, b: T, c: T): T {
    r.add(r.add(a, b), c)
  }

  function ShiftedSum<T>(r: Register<T>, a: T, b: T): T {
    r.shift(r.add(a, b))
  }

  predicate SameShift<T(==)>(r: Register<T>, a: T, b: T) {
    r.shift(a) == r.shift(b)
  }

  predicate SameSum<T(==)>(r: Register<T>, a: T, b: T, c: T, d: T) {
    r.add(a, b) == r.add(c, d)
  }

  function Lowered<T>(r: Register<T>, b: Byte, i: nat): T {
    Shifts(r, r.lift(b, i), r.bits)
  }

  ghost predicate Associative<T(!new)>(r: Register<T>) {
    forall a, b, c {:trigger Sum(r, a, b, c)} :: Sum(r, a, b, c) == r.add(a, r.add(b, c))
  }

  ghost predicate Cancels<T(!new)>(r: Register<T>) {
    forall a, b, c, d {:trigger SameSum(r, a, b, c, d)} ::
      SameSum(r, a, b, c, d) ==> (a == c <==> b == d)
  }

  ghost predicate Linear<T(!new)>(r: Register<T>) {
    && (forall a, b {:trigger ShiftedSum(r, a, b)} :: ShiftedSum(r, a, b) == r.add(r.shift(a), r.shift(b)))
    && (forall a, b {:trigger SameShift(r, a, b)} :: SameShift(r, a, b) ==> a == b)
  }

  /** Lifts are undone by a byte's worth of shifts, up to position `width`. */
  ghost predicate Lifts<T(!new)>(r: Register<T>, width: nat) {
    forall b, i {:trigger Lowered(r, b, i)} | 0 < i < width :: Lowered(r, b, i) == r.lift(b, i - 1)
  }

  ghost predicate Lawful<T(!new)>(r: Register<T>, width: nat) {
    Associative(r) && Cancels(r) && Linear(r) && Lifts(r, width)
  }

  /** Shifting is halving as long as the state is clear. */
  lemma {:induction false} ShiftsHalve<T(!new)>(r: Register<T>, half: T -> T, clear: T -> bool, xs: seq<T>)
    requires xs != []
    requires forall y | clear(y) :: r.shift(y) == half(y)
    requires forall i | 0 <= i < |xs| - 1 :: half(xs[i]) == xs[i + 1] && clear(xs[i])
    ensures Shifts(r, xs[0], |xs| - 1) == xs[|xs| - 1]
    decreases |xs|
  {
    if |xs| > 1 {
      ShiftsHalve(r, half, clear, xs[1..]);
      assert clear(xs[0]) && half(xs[0]) == xs[1];
    }
  }

  lemma {:induction false} ChainOf<T>(f: T -> T, a0: T, a1: T, a2: T, a3: T, a4: T, a5: T, a6: T, a7: T, a8: T)
    requires f(a0) == a1 && f(a1) == a2 && f(a2) == a3 && f(a3) == a4
    requires f(a4) == a5 && f(a5) == a6 && f(a6) == a7 && f(a7) == a8
    ensures var xs := [a0, a1, a2, a3, a4, a5, a6, a7, a8];
            forall i | 0 <= i < 8 :: f(xs[i]) == xs[i + 1]
  {
  }

  lemma {:induction false} ShiftsInjective<T(!new)>(r: Register<T>, a: T, b: T, k: nat)
    requires Linear(r) && Shifts(r, a, k) == Shifts(r, b, k)
    ensures a == b
    decreases k
  {
    if k > 0 {
      ShiftsInjective(r, r.shift(a), r.shift(b), k - 1);
      assert SameShift(r, a, b);
    }
  }

  lemma {:induction false} ShiftsLinear<T(!new)>(r: Register<T>, a: T, b: T, k: nat)
    requires Linear(r)
    ensures Shifts(r, r.add(a, b), k) == r.add(Shifts(r, a, k), Shifts(r, b, k))
    decreases k
  {
    if k > 0 {
      ShiftsLinear(r, r.shift(a), r.shift(b), k - 1);
      assert ShiftedSum(r, a, b) == r.add(r.shift(a), r.shift(b));
    }
  }

  lemma {:induction false} ShiftsAdd<T(!new)>(r: Register<T>, a: T, j: nat, k: nat)
    ensures Shifts(r, Shifts(r, a, j), k) == Shifts(r, a, j + k)
    decreases j
  {
    if j > 0 {
      ShiftsAdd(r, r.shift(a), j - 1, k);
    }
  }

  /** Feeding the same bytes keeps different registers different. */
  lemma {:induction false} FeedAllInjective<T(!new)>(r: Register<T>, a: T, b: T, data: Blob)
    requires Cancels(r) && Linear(r) && FeedAll(r, a, data) == FeedAll(r, b, data)
    ensures a == b
    decreases |data|
  {
    if data != [] {
      FeedAllInjective(r, Feed(r, a, data[0]), Feed(r, b, data[0]), data[1..]);
      var e := r.lift(data[0], 0);
      ShiftsInjective(r, r.add(a, e), r.add(b, e), r.bits);
      assert SameSum(r, a, e, b, e);
    }
  }

  lemma {:induction false} FeedAllConcat<T(!new)>(r: Register<T>, x: T, a: Blob, b: Blob)
    ensures FeedAll(r, x, a + b) == FeedAll(r, FeedAll(r, x, a), b)
    decreases |a|
  {
    if a == [] {
      assert a + b == b;
    } else {
      assert (a + b)[0] == a[0] && (a + b)[1..] == a[1..] + b;
      FeedAllConcat(r, Feed(r, x, a[0]), a[1..], b);
    }
  }

  /** A byte's worth of shifts lowers a window by one position. */
  lemma {:induction false} WindowLowers<T(!new)>(r: Register<T>, data: Blob, k: nat, width: nat)
    requires Linear(r) && Lifts(r, width)
    requires data != [] && 0 < k && k + |data| <= width
    ensures Shifts(r, Window(r, data, k), r.bits) == Window(r, data, k - 1)
    decreases |data|
  {
    assert Lowered(r, data[0], k) == r.lift(data[0], k - 1);
    if |data| > 1 {
      ShiftsLinear(r, r.lift(data[0], k), Window(r, data[1..], k + 1), r.bits);
      WindowLowers(r, data[1..], k + 1, width);
    }
  }

  function Bits<T>(r: Register<T>, count: nat): nat {
    if count == 0 then 0 else r.bits + Bits(r, count - 1)
  }

  ghost predicate WindowFed<T>(r: Register<T>, x: T, data: Blob)
    requires data != []
  {
    FeedAll(r, x, data) == Shifts(r, r.add(x, Window(r, data, 0)), Bits(r, |data|))
  }

  /** Feeding a window byte by byte is adding it whole and shifting once per bit. */
  lemma {:induction false} FeedWindow<T(!new)>(r: Register<T>, x: T, data: Blob, width: nat)
    requires Lawful(r, width)
    requires 0 < |data| <= width
    ensures WindowFed(r, x, data)
    decreases |data|
  {
    if |data| == 1 {
      FeedOne(r, x, data);
    } else {
      FeedWindow(r, Feed(r, x, data[0]), data[1..], width);
      FeedMore(r, x, data, width);
    }
  }

  lemma {:induction false} FeedOne<T(!new)>(r: Register<T>, x: T, data: Blob)
    requires |data| == 1
    ensures WindowFed(r, x, data)
  {
    assert data[1..] == [];
    assert FeedAll(r, Feed(r, x, data[0]), data[1..]) == Feed(r, x, data[0]);
    assert Bits(r, 1) == r.bits + Bits(r, 0);
  }

  lemma {:induction false} FeedMore<T(!new)>(r: Register<T>, x: T, data: Blob, width: nat)
    requires Associative(r) && Linear(r) && Lifts(r, width)
    requires 1 < |data| <= width
    requires WindowFed(r, Feed(r, x, data[0]), data[1..])
    ensures WindowFed(r, x, data)
  {
    WindowLowers(r, data[1..], 1, width);
    ShiftTogether(r, x, r.lift(data[0], 0), Window(r, data[1..], 1), Bits(r, |data| - 1));
    Unfold(r, x, data, Window(r, data[1..], 1));
  }

  lemma {:induction false} Unfold<T(!new)>(r: Register<T>, x: T, data: Blob, tail: T)
    requires 1 < |data| && tail == Window(r, data[1..], 1)
    requires Shifts(r, tail, r.bits) == Window(r, data[1..], 0)
    requires WindowFed(r, Feed(r, x, data[0]), data[1..])
    requires Shifts(r, r.add(Feed(r, x, data[0]), Shifts(r, tail, r.bits)), Bits(r, |data| - 1))
             == Shifts(r, r.add(x, r.add(r.lift(data[0], 0), tail)), r.bits + Bits(r, |data| - 1))
    ensures WindowFed(r, x, data)
  {
  }

  lemma {:induction false} ShiftTogether<T(!new)>(r: Register<T>, x: T, e: T, tail: T, left: nat)
    requires Associative(r) && Linear(r)
    ensures Shifts(r, r.add(Shifts(r, r.add(x, e), r.bits), Shifts(r, tail, r.bits)), left)
            == Shifts(r, r.add(x, r.add(e, tail)), r.bits + left)
  {
    ShiftsLinear(r, r.add(x, e), tail, r.bits);
    ShiftsAdd(r, r.add(r.add(x, e), tail), r.bits, left);
    assert Sum(r, x, e, tail) == r.add(x, r.add(e, tail));
  }

  /** Windows that differ as addends leave any register in different states. */
  lemma {:induction false} WindowsDiffer<T(!new)>(r: Register<T>, x: T, one: Blob, two: Blob, width: nat)
    requires Lawful(r, width)
    requires 0 < |one| == |two| <= width
    requires Window(r, one, 0) != Window(r, two, 0)
    ensures FeedAll(r, x, one) != FeedAll(r, x, two)
  {
    FeedWindow(r, x, one, width);
    FeedWindow(r, x, two, width);
    if FeedAll(r, x, one) == FeedAll(r, x, two) {
      ShiftsInjective(r, r.add(x, Window(r, one, 0)), r.add(x, Window(r, two, 0)), Bits(r, |one|));
      assert SameSum(r, x, Window(r, one, 0), x, Window(r, two, 0));
    }
  }

  /** Two messages that agree outside one window, and whose windows differ as
      addends, leave the register in different states. */
  lemma {:induction false} BurstDetected<T(!new)>(r: Register<T>, x: T, before: Blob, one: Blob, two: Blob, after: Blob, width: nat)
    requires Lawful(r, width)
    requires 0 < |one| == |two| <= width
    requires Window(r, one, 0) != Window(r, two, 0)
    ensures FeedAll(r, x, before + one + after) != FeedAll(r, x, before + two + after)
  {
    var y := FeedAll(r, x, before);
    FeedThree(r, x, before, one, after);
    FeedThree(r, x, before, two, after);
    WindowsDiffer(r, y, one, two, width);
    if FeedAll(r, FeedAll(r, y, one), after) == FeedAll(r, FeedAll(r, y, two), after) {
      FeedAllInjective(r, FeedAll(r, y, one), FeedAll(r, y, two), after);
    }
  }

  lemma {:induction false} FeedThree<T(!new)>(r: Register<T>, x: T, a: Blob, b: Blob, c: Blob)
    ensures FeedAll(r, x, a + b + c) == FeedAll(r, FeedAll(r, FeedAll(r, x, a), b), c)
  {
    FeedAllConcat(r, x, a + b, c);
    FeedAllConcat(r, x, a, b);
  }
}

/** CRC32C (section 12.1 of RFC 3720), reflected form with polynomial 0x82f63b78. */
module Crc {
  import opened Bytes
  import opened Registers

  const POLYNOMIAL: bv32 := 0x82f63b78
  const ALL_ONES: bv32 := 0xffffffff

  // Integers and words are related bit by bit, through eight booleans.

  datatype Octet = Octet(b7: bool, b6: bool, b5: bool, b4: bool, b3: bool, b2: bool, b1: bool, b0: bool)

  datatype Quad = Quad(o3: Octet, o2: Octet, o1: Octet, o0: Octet)

  function Weight(on: bool, weight: nat): nat {
    if on then weight else 0
  }

  function NatOfOctet(o: Octet): (n: nat)
    ensures n < 256
  {
    Weight(o.b7, 128) + Weight(o.b6, 64) + Weight(o.b5, 32) + Weight(o.b4, 16)
    + Weight(o.b3, 8) + Weight(o.b2, 4) + Weight(o.b1, 2) + Weight(o.b0, 1)
  }

  function OctetOf(b: Byte): (o: Octet)
    ensures NatOfOctet(o) == b as nat
  {
    var n := b as nat;
    var b7 := n >= 128;
    var r6 := n - Weight(b7, 128);
    var b6 := r6 >= 64;
    var r5 := r6 - Weight(b6, 64);
    var b5 := r5 >= 32;
    var r4 := r5 - Weight(b5, 32);
    var b4 := r4 >= 16;
    var r3 := r4 - Weight(b4, 16);
    var b3 := r3 >= 8;
    var r2 := r3 - Weight(b3, 8);
    var b2 := r2 >= 4;
    var r1 := r2 - Weight(b2, 4);
    var b1 := r1 >= 2;
    Octet(b7, b6, b5, b4, b3, b2, b1, r1 - Weight(b1, 2) == 1)
  }

  function NatOfQuad(q: Quad): (n: nat)
    ensures n < TWO32
  {
    NatOfOctet(q.o0) + 0x100 * NatOfOctet(q.o1) + 0x1_0000 * NatOfOctet(q.o2) + 0x100_0000 * NatOfOctet(q.o3)
  }

  function BitIf(on: bool, mask: bv32): bv32 {
    if on then mask else 0
  }

  function WordOfOctet(o: Octet): bv32 {
    BitIf(o.b7, 128) | BitIf(o.b6, 64) | BitIf(o.b5, 32) | BitIf(o.b4, 16)
    | BitIf(o.b3, 8) | BitIf(o.b2, 4) | BitIf(o.b1, 2) | BitIf(o.b0, 1)
  }

  function WordOfByte(b: Byte): bv32 {
    WordOfOctet(OctetOf(b))
  }

  function OctetOfWord(w: bv32): Octet {
    Octet(w & 128 != 0, w & 64 != 0, w & 32 != 0, w & 16 != 0, w & 8 != 0, w & 4 != 0, w & 2 != 0, w & 1 != 0)
  }

  function QuadOfWord(w: bv32): Quad {
    Quad(OctetOfWord(w >> 24), OctetOfWord(w >> 16), OctetOfWord(w >> 8), OctetOfWord(w))
  }

  function NatOfWord(w: bv32): (n: nat)
    ensures n < TWO32
  {
    NatOfQuad(QuadOfWord(w))
  }

  /** One shift: a division step by the polynomial, applied under a mask. */
  function Shift(crc: bv32): bv32 {
    (crc >> 1) ^ (POLYNOMIAL & (0 - (crc & 1)))
  }

  function Lift(w: bv32, i: nat): bv32 {
    if i == 0 then w else if i == 1 then w << 8 else if i == 2 then w << 16 else w << 24
  }

  function Xor(a: bv32, b: bv32): bv32 {
    a ^ b
  }

  const REGISTER := Register(8, Shift, Xor, (b: Byte, i: nat) => Lift(WordOfByte(b), i))

  /** The checksum of a buffer, as stored beside it. */
  function Checksum(data: Blob): (c: nat)
    ensures c < TWO32
  {
    NatOfWord(FeedAll(REGISTER, ALL_ONES, data) ^ ALL_ONES)
  }

  /** The loop over the bytes of a buffer. */
  method Crc32c(data: Blob) returns (checksum: nat)
    ensures checksum == Checksum(data)
  {
    var crc := ALL_ONES;
    var i := 0;
    while i < |data|
      invariant 0 <= i <= |data|
      invariant FeedAll(REGISTER, ALL_ONES, data) == FeedAll(REGISTER, crc, data[i..])
    {
      assert data[i..][0] == data[i] && data[i..][1..] == data[i + 1..];
      crc := FeedByte(crc, data[i]);
      i := i + 1;
    }
    assert data[i..] == [];
    checksum := NatOfWord(crc ^ ALL_ONES);
  }

  method FeedByte(start: bv32, b: Byte) returns (crc: bv32)
    ensures crc == Feed(REGISTER, start, b)
  {
    FeedIs(start, b);
    crc := start ^ WordOfByte(b);
    crc := ShiftLoop(REGISTER.bits, crc);
  }

  lemma {:induction false} FeedIs(start: bv32, b: Byte)
    ensures Feed(REGISTER, start, b) == Shifts(REGISTER, start ^ WordOfByte(b), REGISTER.bits)
  {
    assert REGISTER.add(start, REGISTER.lift(b, 0)) == start ^ WordOfByte(b);
  }

  /** The inner loop, one shift per bit. */
  method ShiftLoop(bits: nat, start: bv32) returns (crc: bv32)
    ensures crc == Shifts(REGISTER, start, bits)
  {
    crc := start;
    var bit := 0;
    while bit < bits
      invariant 0 <= bit <= bits
      invariant Shifts(REGISTER, start, bits) == Shifts(REGISTER, crc, bits - bit)
    {
      crc := Shift(crc);
      bit := bit + 1;
    }
  }

  // ------------------------------------------------------------------
  // The register is a linear, invertible machine
  // ------------------------------------------------------------------

  lemma {:induction false} LowBit(a: bv32)
    ensures a & 1 == 0 || a & 1 == 1
  {
  }

  lemma {:induction false} ShiftInjective(a: bv32, b: bv32)
    requires Shift(a) == Shift(b)
    ensures a == b
  {
  }

  lemma {:induction false} ShiftLinear(a: bv32, b: bv32)
    ensures Shift(a ^ b) == Shift(a) ^ Shift(b)
  {
    assert (a ^ b) >> 1 == (a >> 1) ^ (b >> 1);
    assert (a ^ b) & 1 == (a & 1) ^ (b & 1);
    LowBit(a);
    LowBit(b);
    var x, y := a & 1, b & 1;
    assert (POLYNOMIAL & (0 - (x ^ y))) == (POLYNOMIAL & (0 - x)) ^ (POLYNOMIAL & (0 - y));
  }

  lemma {:induction false} XorAssociative(a: bv32, b: bv32, c: bv32)
    ensures Xor(Xor(a, b), c) == Xor(a, Xor(b, c))
  {
  }

  lemma {:induction false} XorCancels(a: bv32, b: bv32, c: bv32, d: bv32)
    requires Xor(a, b) == Xor(c, d)
    ensures a == c <==> b == d
  {
    XorTwice(a, b);
    XorTwice(c, d);
  }

  lemma {:induction false} XorTwice(a: bv32, b: bv32)
    ensures Xor(a, Xor(a, b)) == b && Xor(Xor(a, b), b) == a
  {
  }

  /** Shifting a word whose low bit is clear adds no polynomial. */
  lemma {:induction false} ShiftClear(w: bv32)
    requires w & 1 == 0
    ensures Shift(w) == w >> 1
  {
  }

  lemma {:induction false} OctetOfWordOfOctet(o: Octet)
    ensures WordOfOctet(o) < 256
    ensures OctetOfWord(WordOfOctet(o)) == o
  {
  }

  lemma {:induction false} QuadOfWordInjective(v: bv32, w: bv32)
    requires QuadOfWord(v) == QuadOfWord(w)
    ensures v == w
  {
  }

  lemma {:induction false} NatOfOctetInjective(o: Octet, p: Octet)
    requires NatOfOctet(o) == NatOfOctet(p)
    ensures o == p
  {
  }

  lemma {:induction false} Base256Injective(a0: nat, a1: nat, a2: nat, a3: nat, b0: nat, b1: nat, b2: nat, b3: nat)
    requires a0 < 256 && a1 < 256 && a2 < 256 && a3 < 256
    requires b0 < 256 && b1 < 256 && b2 < 256 && b3 < 256
    requires a0 + 0x100 * a1 + 0x1_0000 * a2 + 0x100_0000 * a3
             == b0 + 0x100 * b1 + 0x1_0000 * b2 + 0x100_0000 * b3
    ensures a0 == b0 && a1 == b1 && a2 == b2 && a3 == b3
  {
  }

  lemma {:induction false} NatOfQuadInjective(p: Quad, q: Quad)
    requires NatOfQuad(p) == NatOfQuad(q)
    ensures p == q
  {
    Base256Injective(NatOfOctet(p.o0), NatOfOctet(p.o1), NatOfOctet(p.o2), NatOfOctet(p.o3),
                     NatOfOctet(q.o0), NatOfOctet(q.o1), NatOfOctet(q.o2), NatOfOctet(q.o3));
    NatOfOctetInjective(p.o0, q.o0);
    NatOfOctetInjective(p.o1, q.o1);
    NatOfOctetInjective(p.o2, q.o2);
    NatOfOctetInjective(p.o3, q.o3);
  }

  lemma {:induction false} NatOfWordInjective(v: bv32, w: bv32)
    requires NatOfWord(v) == NatOfWord(w)
    ensures v == w
  {
    NatOfQuadInjective(QuadOfWord(v), QuadOfWord(w));
    QuadOfWordInjective(v, w);
  }

  // ------------------------------------------------------------------
  // Error detection
  // ------------------------------------------------------------------

  /** Registers of this polynomial, whatever their symbols are. */
  ghost predicate Shaped(r: Register<bv32>) {
    r.add == Xor && r.shift == Shift
  }

  lemma {:induction false} ShapedAssociative(r: Register<bv32>)
    requires Shaped(r)
    ensures Associative(r)
  {
    forall a: bv32, b: bv32, c: bv32
      ensures Sum(r, a, b, c) == r.add(a, r.add(b, c))
    {
      XorAssociative(a, b, c);
    }
  }

  lemma {:induction false} ShapedCancels(r: Register<bv32>)
    requires Shaped(r)
    ensures Cancels(r)
  {
    forall a: bv32, b: bv32, c: bv32, d: bv32 | SameSum(r, a, b, c, d)
      ensures a == c <==> b == d
    {
      XorCancels(a, b, c, d);
    }
  }

  lemma {:induction false} ShapedLinear(r: Register<bv32>)
    requires Shaped(r)
    ensures Linear(r)
  {
    forall a: bv32, b: bv32
      ensures ShiftedSum(r, a, b) == r.add(r.shift(a), r.shift(b))
    {
      ShiftLinear(a, b);
    }
    forall a: bv32, b: bv32 | SameShift(r, a, b)
      ensures a == b
    {
      ShiftInjective(a, b);
    }
  }

  lemma {:induction false} ShapedLawful(r: Register<bv32>, width: nat)
    requires Shaped(r) && Lifts(r, width)
    ensures Lawful(r, width)
  {
    ShapedAssociative(r);
    ShapedCancels(r);
    ShapedLinear(r);
  }

  function Half(w: bv32): bv32 {
    w >> 1
  }

  predicate Clear(w: bv32) {
    w & 1 == 0
  }

  function Halves(w: bv32): seq<bv32> {
    [w, w >> 1, w >> 2, w >> 3, w >> 4, w >> 5, w >> 6, w >> 7, w >> 8]
  }

  lemma {:induction false} RightChain(w: bv32)
    ensures (w >> 1) >> 1 == w >> 2 && (w >> 2) >> 1 == w >> 3 && (w >> 3) >> 1 == w >> 4
    ensures (w >> 4) >> 1 == w >> 5 && (w >> 5) >> 1 == w >> 6 && (w >> 6) >> 1 == w >> 7 && (w >> 7) >> 1 == w >> 8
  {
  }

  lemma {:induction false} ClearBits(w: bv32)
    requires w & 0xff == 0
    ensures w & 1 == 0 && (w >> 1) & 1 == 0 && (w >> 2) & 1 == 0 && (w >> 3) & 1 == 0
    ensures (w >> 4) & 1 == 0 && (w >> 5) & 1 == 0 && (w >> 6) & 1 == 0 && (w >> 7) & 1 == 0
  {
  }

  lemma {:induction false} HalvesChain(w: bv32)
    ensures forall i | 0 <= i < 8 :: Half(Halves(w)[i]) == Halves(w)[i + 1]
  {
    RightChain(w);
    ChainOf(Half, w, w >> 1, w >> 2, w >> 3, w >> 4, w >> 5, w >> 6, w >> 7, w >> 8);
  }

  lemma {:induction false} HalvesClear(w: bv32, i: nat)
    requires i < 8 && w & 0xff == 0
    ensures Clear(Halves(w)[i])
  {
    ClearBits(w);
  }

  /** Eight shifts of a word whose low byte is clear drop that byte. */
  lemma {:induction false} ShiftsClear(w: bv32)
    requires w & 0xff == 0
    ensures Shifts(REGISTER, w, REGISTER.bits) == w >> 8
  {
    forall v: bv32 | Clear(v)
      ensures Shift(v) == Half(v)
    {
      ShiftClear(v);
    }
    HalvesChain(w);
    forall i | 0 <= i < 8
      ensures Clear(Halves(w)[i])
    {
      HalvesClear(w, i);
    }
    ShiftsHalve(REGISTER, Half, Clear, Halves(w));
  }

  lemma {:induction false} LiftLowers(w: bv32, i: nat)
    requires w < 256 && 0 < i < 4
    ensures Lift(w, i) & 0xff == 0 && Lift(w, i) >> 8 == Lift(w, i - 1)
  {
  }

  lemma {:induction false} RegisterLifts()
    ensures Lifts(REGISTER, 4)
  {
    forall b: Byte, i | 0 < i < 4
      ensures Lowered(REGISTER, b, i) == REGISTER.lift(b, i - 1)
    {
      var w := WordOfByte(b);
      OctetOfWordOfOctet(OctetOf(b));
      LiftedShifts(w, i);
    }
  }

  lemma {:induction false} LiftedShifts(w: bv32, i: nat)
    requires w < 256 && 0 < i < 4
    ensures Shifts(REGISTER, Lift(w, i), REGISTER.bits) == Lift(w, i - 1)
  {
    LiftLowers(w, i);
    ShiftsClear(Lift(w, i));
  }

  function Addend(a0: bv32, a1: bv32, a2: bv32, a3: bv32): bv32 {
    Xor(Lift(a0, 0), Xor(Lift(a1, 1), Xor(Lift(a2, 2), Lift(a3, 3))))
  }

  /** The window addend of four bytes, whatever the embedding of one byte. */
  lemma {:induction false} WindowOfFour(r: Register<bv32>, embed: Byte -> bv32, data: Blob)
    requires r.add == Xor && (forall b, i :: r.lift(b, i) == Lift(embed(b), i))
    requires |data| == 4
    ensures Window(r, data, 0) == Addend(embed(data[0]), embed(data[1]), embed(data[2]), embed(data[3]))
  {
    assert data[2..][1..] == data[3..] && data[1..][1..] == data[2..];
    assert Window(r, data[3..], 3) == Lift(embed(data[3]), 3);
    assert Window(r, data[2..], 2) == Xor(Lift(embed(data[2]), 2), Lift(embed(data[3]), 3));
  }

  lemma {:induction false} RegisterLawful()
    ensures Lawful(REGISTER, 4)
  {
    RegisterLifts();
    ShapedLawful(REGISTER, 4);
  }

  lemma {:induction false} FinishDiffers(a: bv32, b: bv32)
    requires a != b
    ensures NatOfWord(a ^ ALL_ONES) != NatOfWord(b ^ ALL_ONES)
  {
    if NatOfWord(a ^ ALL_ONES) == NatOfWord(b ^ ALL_ONES) {
      NatOfWordInjective(a ^ ALL_ONES, b ^ ALL_ONES);
      XorCancels(a, ALL_ONES, b, ALL_ONES);
    }
  }

  // ------------------------------------------------------------------
  // The same register, fed bit by bit
  // ------------------------------------------------------------------

  function Small(j: nat): bv32 {
    if j == 0 then 1 else if j == 1 then 2 else if j == 2 then 4 else if j == 3 then 8
    else if j == 4 then 16 else if j == 5 then 32 else if j == 6 then 64 else 128
  }

  function BitAt(i: nat): bv32 {
    Lift(Small(i % 8), i / 8)
  }

  function BitLift(b: Byte, i: nat): bv32 {
    if b == 0 then 0 else BitAt(i)
  }

  /** Its symbols are the bits 0 and 1; a window holds 32 of them. */
  const BIT_REGISTER := Register(1, Shift, Xor, BitLift)

  predicate Lowers(w: bv32, v: bv32) {
    w & 1 == 0 && w >> 1 == v
  }

  lemma {:induction false} SmallLowers(j: nat, q: nat)
    requires 0 < j < 8 && q < 4
    ensures Lowers(Lift(Small(j), q), Lift(Small(j - 1), q))
  {
  }

  lemma {:induction false} ByteLowers(q: nat)
    requires 0 < q < 4
    ensures Lowers(Lift(Small(0), q), Lift(Small(7), q - 1))
  {
  }

  lemma {:induction false} LowerPlace(i: nat)
    requires 0 < i
    ensures i % 8 > 0 ==> (i - 1) % 8 == i % 8 - 1 && (i - 1) / 8 == i / 8
    ensures i % 8 == 0 ==> (i - 1) % 8 == 7 && (i - 1) / 8 == i / 8 - 1
  {
  }

  lemma {:induction false} BitLowers(i: nat)
    requires 0 < i < 32
    ensures Lowers(BitAt(i), BitAt(i - 1))
  {
    var j, q := i % 8, i / 8;
    LowerPlace(i);
    if j > 0 {
      SmallLowers(j, q);
    } else {
      ByteLowers(q);
    }
  }

  lemma {:induction false} BitLiftShifts(b: Byte, i: nat)
    requires 0 < i < 32
    ensures Shift(BitLift(b, i)) == BitLift(b, i - 1)
  {
    if b == 0 {
      ShiftsTo(0, 0);
    } else {
      BitLowers(i);
      ShiftsTo(BitAt(i), BitAt(i - 1));
    }
  }

  lemma {:induction false} ShiftsTo(w: bv32, v: bv32)
    requires w & 1 == 0 && w >> 1 == v
    ensures Shift(w) == v
  {
    ShiftClear(w);
  }

  lemma {:induction false} BitRegisterLawful()
    ensures Lawful(BIT_REGISTER, 32)
  {
    forall b: Byte, i | 0 < i < 32
      ensures Lowered(BIT_REGISTER, b, i) == BIT_REGISTER.lift(b, i - 1)
    {
      BitLiftShifts(b, i);
      OneShift(BIT_REGISTER, BIT_REGISTER.lift(b, i));
    }
    ShapedLawful(BIT_REGISTER, 32);
  }

  lemma {:induction false} OneShift(r: Register<bv32>, x: bv32)
    requires r.bits == 1
    ensures Shifts(r, x, r.bits) == r.shift(x)
  {
    assert Shifts(r, r.shift(x), 0) == r.shift(x);
  }

  function BitOf(on: bool): Byte {
    if on then 1 else 0
  }

  /** The bits of a byte, low bit first, as the register takes them in. */
  function ByteBits(b: Byte): (r: Blob)
    ensures |r| == 8
  {
    var o := OctetOf(b);
    [BitOf(o.b0), BitOf(o.b1), BitOf(o.b2), BitOf(o.b3), BitOf(o.b4), BitOf(o.b5), BitOf(o.b6), BitOf(o.b7)]
  }

  function BitsOf(data: Blob): (r: Blob)
    ensures |r| == 8 * |data|
    decreases |data|
  {
    if data == [] then [] else ByteBits(data[0]) + BitsOf(data[1..])
  }

  function XorBits(o: Octet): bv32 {
    Xor(BitIf(o.b0, 1), Xor(BitIf(o.b1, 2), Xor(BitIf(o.b2, 4), Xor(BitIf(o.b3, 8),
    Xor(BitIf(o.b4, 16), Xor(BitIf(o.b5, 32), Xor(BitIf(o.b6, 64), BitIf(o.b7, 128))))))))
  }

  lemma {:induction false} XorBitsIsWord(o: Octet)
    ensures XorBits(o) == WordOfOctet(o)
  {
  }

  lemma {:induction false} SmallLift(on: bool, j: nat)
    requires j < 8
    ensures BitLift(BitOf(on), j) == BitIf(on, Small(j))
  {
  }

  lemma {:induction false} WindowOfEight(r: Register<bv32>, s: Blob)
    requires r.add == Xor && |s| == 8
    ensures Window(r, s, 0)
            == Xor(r.lift(s[0], 0), Xor(r.lift(s[1], 1), Xor(r.lift(s[2], 2), Xor(r.lift(s[3], 3),
               Xor(r.lift(s[4], 4), Xor(r.lift(s[5], 5), Xor(r.lift(s[6], 6), r.lift(s[7], 7))))))))
  {
    WindowOfHalf(r, s[4..], 4, r.lift(s[7], 7));
    assert s[1..][1..] == s[2..] && s[2..][1..] == s[3..] && s[3..][1..] == s[4..];
    assert Window(r, s[3..], 3) == Xor(r.lift(s[3], 3), Window(r, s[4..], 4));
    assert Window(r, s[2..], 2) == Xor(r.lift(s[2], 2), Window(r, s[3..], 3));
    assert Window(r, s[1..], 1) == Xor(r.lift(s[1], 1), Window(r, s[2..], 2));
  }

  lemma {:induction false} WindowOfHalf(r: Register<bv32>, s: Blob, k: nat, last: bv32)
    requires r.add == Xor && |s| == 4 && last == r.lift(s[3], k + 3)
    ensures Window(r, s, k) == Xor(r.lift(s[0], k), Xor(r.lift(s[1], k + 1), Xor(r.lift(s[2], k + 2), last)))
  {
    assert s[1..][1..] == s[2..] && s[2..][1..] == s[3..];
    assert Window(r, s[3..], k + 3) == last;
    assert Window(r, s[2..], k + 2) == Xor(r.lift(s[2], k + 2), last);
    assert Window(r, s[1..], k + 1) == Xor(r.lift(s[1], k + 1), Window(r, s[2..], k + 2));
  }

  lemma {:induction false} ByteWindow(r: Register<bv32>, b: Byte)
    requires r.add == Xor && r.lift == BitLift
    ensures Window(r, ByteBits(b), 0) == XorBits(OctetOf(b))
  {
    var o := OctetOf(b);
    WindowOfEight(r, ByteBits(b));
    SmallLift(o.b0, 0);
    SmallLift(o.b1, 1);
    SmallLift(o.b2, 2);
    SmallLift(o.b3, 3);
    SmallLift(o.b4, 4);
    SmallLift(o.b5, 5);
    SmallLift(o.b6, 6);
    SmallLift(o.b7, 7);
  }

  lemma {:induction false} ShiftsSame(r: Register<bv32>, r': Register<bv32>, x: bv32, k: nat)
    requires r.shift == r'.shift
    ensures Shifts(r, x, k) == Shifts(r', x, k)
    decreases k
  {
    if k > 0 {
      ShiftsSame(r, r', r.shift(x), k - 1);
    }
  }

  lemma {:induction false} BitsAre(r: Register<bv32>, n: nat)
    requires r.bits == 1
    ensures Bits(r, n) == n
    decreases n
  {
    if n > 0 {
      BitsAre(r, n - 1);
    }
  }

  /** Feeding a byte is feeding its bits. */
  lemma {:induction false} ByteFed(r: Register<bv32>, bits: Register<bv32>, x: bv32, b: Byte)
    requires r.add == Xor && r.shift == Shift && r.bits == 8 && r.lift(b, 0) == WordOfByte(b)
    requires Lawful(bits, 32) && bits.add == Xor && bits.shift == Shift && bits.bits == 1 && bits.lift == BitLift
    ensures Feed(r, x, b) == FeedAll(bits, x, ByteBits(b))
  {
    FeedWindow(bits, x, ByteBits(b), 32);
    ByteWindow(bits, b);
    XorBitsIsWord(OctetOf(b));
    BitsAre(bits, 8);
    ShiftsSame(r, bits, Xor(x, WordOfByte(b)), 8);
  }

  lemma {:induction false} BitsFed(r: Register<bv32>, bits: Register<bv32>, x: bv32, data: Blob)
    requires r.add == Xor && r.shift == Shift && r.bits == 8 && forall b :: r.lift(b, 0) == WordOfByte(b)
    requires Lawful(bits, 32) && bits.add == Xor && bits.shift == Shift && bits.bits == 1 && bits.lift == BitLift
    ensures FeedAll(r, x, data) == FeedAll(bits, x, BitsOf(data))
    decreases |data|
  {
    if data != [] {
      ByteFed(r, bits, x, data[0]);
      BitsFed(r, bits, Feed(r, x, data[0]), data[1..]);
      FeedAllConcat(bits, x, ByteBits(data[0]), BitsOf(data[1..]));
    }
  }

  // Windows of bits.

  predicate Binary(s: Blob) {
    forall i | 0 <= i < |s| :: s[i] == 0 || s[i] == 1
  }

  lemma {:induction false} BitsBinary(data: Blob)
    ensures Binary(BitsOf(data))
    decreases |data|
  {
    if data != [] {
      BitsBinary(data[1..]);
    }
  }

  lemma {:induction false} XorEven(a: bv32, b: bv32)
    requires a & 1 == 0 && b & 1 == 0
    ensures Xor(a, b) & 1 == 0
  {
  }

  lemma {:induction false} LiftEven(b: Byte, k: nat)
    requires 0 < k < 32
    ensures BitLift(b, k) & 1 == 0
  {
    if b == 0 {
      assert (0 as bv32) & 1 == 0;
    } else {
      BitLowers(k);
    }
  }

  /** A window that does not begin at position 0 has a clear low bit. */
  lemma {:induction false} WindowEven(r: Register<bv32>, s: Blob, k: nat)
    requires r.add == Xor && r.lift == BitLift && s != [] && 0 < k && k + |s| <= 32
    ensures Window(r, s, k) & 1 == 0
    decreases |s|
  {
    LiftEven(s[0], k);
    if |s| > 1 {
      WindowEven(r, s[1..], k + 1);
      XorEven(BitLift(s[0], k), Window(r, s[1..], k + 1));
    }
  }

  lemma {:induction false} LowBits(a: bv32, b: bv32, a': bv32, b': bv32)
    requires (a == 0 || a == 1) && (b == 0 || b == 1) && a' & 1 == 0 && b' & 1 == 0 && Xor(a, a') == Xor(b, b')
    ensures a == b && a' == b'
  {
  }

  lemma {:induction false} FirstBit(b: Byte)
    requires b == 0 || b == 1
    ensures BitLift(b, 0) == if b == 0 then 0 else 1
  {
  }

  /** Windows that add the same begin with the same bit, and what follows adds the same. */
  lemma {:induction false} WindowHeads(r: Register<bv32>, one: Blob, two: Blob)
    requires r.add == Xor && r.lift == BitLift && 1 < |one| == |two| <= 32 && Binary(one) && Binary(two)
    requires Window(r, one, 0) == Window(r, two, 0)
    ensures one[0] == two[0] && Window(r, one[1..], 1) == Window(r, two[1..], 1)
  {
    FirstBit(one[0]);
    FirstBit(two[0]);
    WindowEven(r, one[1..], 1);
    WindowEven(r, two[1..], 1);
    LowBits(BitLift(one[0], 0), BitLift(two[0], 0), Window(r, one[1..], 1), Window(r, two[1..], 1));
  }

  lemma {:induction false} WindowTails(r: Register<bv32>, one: Blob, two: Blob)
    requires Lawful(r, 32) && r.add == Xor && r.lift == BitLift
    requires 1 < |one| == |two| <= 32 && Binary(one) && Binary(two) && Window(r, one, 0) == Window(r, two, 0)
    ensures one[0] == two[0] && Window(r, one[1..], 0) == Window(r, two[1..], 0)
  {
    WindowHeads(r, one, two);
    WindowLowers(r, one[1..], 1, 32);
    WindowLowers(r, two[1..], 1, 32);
  }

  /** Windows of at most 32 bits that add the same are the same. */
  lemma {:induction false} WindowInjective(r: Register<bv32>, one: Blob, two: Blob)
    requires Lawful(r, 32) && r.add == Xor && r.lift == BitLift
    requires 0 < |one| == |two| <= 32 && Binary(one) && Binary(two)
    requires Window(r, one, 0) == Window(r, two, 0)
    ensures one == two
    decreases |one|
  {
    if |one| == 1 {
      FirstBit(one[0]);
      FirstBit(two[0]);
    } else {
      WindowTails(r, one, two);
      WindowInjective(r, one[1..], two[1..]);
      assert one == [one[0]] + one[1..] && two == [two[0]] + two[1..];
    }
  }

  // ------------------------------------------------------------------
  // Bursts of up to 32 bits
  // ------------------------------------------------------------------

  /** Two byte strings of one length that differ, and only within 32 consecutive bits from bit p on. */
  predicate Nearby(one: Blob, two: Blob, p: nat) {
    && |one| == |two| && one != two
    && forall k | 0 <= k < 8 * |one| && BitsOf(one)[k] != BitsOf(two)[k] :: p <= k < p + 32
  }

  lemma {:induction false} ByteBitsInjective(a: Byte, b: Byte)
    requires ByteBits(a) == ByteBits(b)
    ensures a == b
  {
    var x, y := ByteBits(a), ByteBits(b);
    assert x[0] == y[0] && x[1] == y[1] && x[2] == y[2] && x[3] == y[3] && x[4] == y[4] && x[5] == y[5] && x[6] == y[6] && x[7] == y[7];
    assert OctetOf(a) == OctetOf(b);
  }

  lemma {:induction false} BitsInjective(one: Blob, two: Blob)
    requires |one| == |two| && BitsOf(one) == BitsOf(two)
    ensures one == two
    decreases |one|
  {
    if one != [] {
      ConcatParts(ByteBits(one[0]), BitsOf(one[1..]));
      ConcatParts(ByteBits(two[0]), BitsOf(two[1..]));
      ByteBitsInjective(one[0], two[0]);
      BitsInjective(one[1..], two[1..]);
      assert one == [one[0]] + one[1..] && two == [two[0]] + two[1..];
    }
  }

  lemma {:induction false} BitsConcat(a: Blob, b: Blob)
    ensures BitsOf(a + b) == BitsOf(a) + BitsOf(b)
    decreases |a|
  {
    if a == [] {
      assert a + b == b;
    } else {
      assert (a + b)[0] == a[0] && (a + b)[1..] == a[1..] + b;
      BitsConcat(a[1..], b);
      ConcatAssoc(ByteBits(a[0]), BitsOf(a[1..]), BitsOf(b));
    }
  }

  lemma {:induction false} DifferentBit(one: Blob, two: Blob) returns (k: nat)
    requires |one| == |two| && one != two
    ensures k < 8 * |one| && BitsOf(one)[k] != BitsOf(two)[k]
  {
    if forall j | 0 <= j < 8 * |one| :: BitsOf(one)[j] == BitsOf(two)[j] {
      BitsInjective(one, two);
    }
    k :| 0 <= k < 8 * |one| && BitsOf(one)[k] != BitsOf(two)[k];
  }

  /** The front parts of such strings, if they differ, differ in the same way. */
  lemma {:induction false} NearbyFront(a: Blob, b: Blob, a': Blob, b': Blob, p: nat)
    requires Nearby(a + b, a' + b', p) && |a| == |a'|
    ensures a != a' ==> Nearby(a, a', p)
    ensures 8 * |a| <= p ==> a == a'
  {
    BitsConcat(a, b);
    BitsConcat(a', b');
    assert forall k | 0 <= k < 8 * |a| :: BitsOf(a + b)[k] == BitsOf(a)[k] && BitsOf(a' + b')[k] == BitsOf(a')[k];
    if a != a' {
      var k := DifferentBit(a, a');
    }
  }

  lemma {:induction false} ConcatAt(a: Blob, b: Blob, k: nat)
    requires k < |b|
    ensures (a + b)[k + |a|] == b[k]
  {
  }

  function Later(p: nat, distance: nat): nat {
    if distance <= p then p - distance else 0
  }

  /** So do the parts behind. */
  lemma {:induction false} NearbyBack(a: Blob, b: Blob, a': Blob, b': Blob, p: nat)
    requires Nearby(a + b, a' + b', p) && |a| == |a'|
    ensures b != b' ==> Nearby(b, b', Later(p, 8 * |a|))
  {
    BitsConcat(a, b);
    BitsConcat(a', b');
    forall k | 0 <= k < 8 * |b| && BitsOf(b)[k] != BitsOf(b')[k]
      ensures p <= k + 8 * |a| < p + 32
    {
      ConcatAt(BitsOf(a), BitsOf(b), k);
      ConcatAt(BitsOf(a'), BitsOf(b'), k);
    }
  }

  /** Strings that differ only within a window, split around it. */
  lemma {:induction false} BurstSplits(one: Blob, two: Blob, p: nat, size: nat) returns (q: nat)
    requires |one| == |two| && one != two
    requires forall k | 0 <= k < |one| && one[k] != two[k] :: p <= k < p + size
    ensures p < q <= |one| && q <= p + size && one[p..q] != two[p..q]
    ensures one == one[..p] + one[p..q] + one[q..] && two == one[..p] + two[p..q] + one[q..]
  {
    var k :| 0 <= k < |one| && one[k] != two[k];
    q := if p + size <= |one| then p + size else |one|;
    Parts(one, p, q);
    Parts(two, p, q);
    DifferInside(one, two, p, q, k);
    SameOutside(one, two, p, q);
  }

  lemma {:induction false} DifferInside(one: Blob, two: Blob, i: nat, j: nat, k: nat)
    requires |one| == |two| && i <= k < j <= |one| && one[k] != two[k]
    ensures one[i..j] != two[i..j]
  {
    assert one[i..j][k - i] != two[i..j][k - i];
  }

  lemma {:induction false} Parts(s: Blob, i: nat, j: nat)
    requires i <= j <= |s|
    ensures s == s[..i] + s[i..j] + s[j..]
  {
  }

  lemma {:induction false} SameOutside(one: Blob, two: Blob, i: nat, j: nat)
    requires |one| == |two| && i <= j <= |one|
    requires forall k | 0 <= k < |one| && one[k] != two[k] :: i <= k < j
    ensures one[..i] == two[..i] && one[j..] == two[j..]
  {
  }

  /** They leave the bit register in different states. */
  lemma {:induction false} BurstRegisters(r: Register<bv32>, x: bv32, one: Blob, two: Blob, p: nat)
    requires Lawful(r, 32) && r.add == Xor && r.lift == BitLift
    requires |one| == |two| && one != two && Binary(one) && Binary(two)
    requires forall k | 0 <= k < |one| && one[k] != two[k] :: p <= k < p + 32
    ensures FeedAll(r, x, one) != FeedAll(r, x, two)
  {
    var q := BurstSplits(one, two, p, 32);
    if Window(r, one[p..q], 0) == Window(r, two[p..q], 0) {
      WindowInjective(r, one[p..q], two[p..q]);
    }
    BurstDetected(r, x, one[..p], one[p..q], two[p..q], one[q..], 32);
  }

  lemma {:induction false} NearbyRegisters(one: Blob, two: Blob, p: nat)
    requires Nearby(one, two, p)
    ensures FeedAll(REGISTER, ALL_ONES, one) != FeedAll(REGISTER, ALL_ONES, two)
  {
    BitRegisterLawful();
    BitsFed(REGISTER, BIT_REGISTER, ALL_ONES, one);
    BitsFed(REGISTER, BIT_REGISTER, ALL_ONES, two);
    BitsBinary(one);
    BitsBinary(two);
    if BitsOf(one) == BitsOf(two) {
      BitsInjective(one, two);
    }
    BurstRegisters(BIT_REGISTER, ALL_ONES, BitsOf(one), BitsOf(two), p);
  }

  /** Messages that differ only within 32 consecutive bits have different checksums. */
  lemma {:induction false} BurstChangesChecksum(one: Blob, two: Blob, p: nat)
    requires Nearby(one, two, p)
    ensures Checksum(one) != Checksum(two)
  {
    NearbyRegisters(one, two, p);
    RegistersDecide(one, two);
  }

  lemma {:induction false} RegistersDecide(one: Blob, two: Blob)
    requires FeedAll(REGISTER, ALL_ONES, one) != FeedAll(REGISTER, ALL_ONES, two)
    ensures Checksum(one) != Checksum(two)
  {
    FinishDiffers(FeedAll(REGISTER, ALL_ONES, one), FeedAll(REGISTER, ALL_ONES, two));
  }

  lemma {:induction false} LessEight(k: nat)
    requires k >= 8
    ensures (k - 8) / 8 == k / 8 - 1 && (k - 8) % 8 == k % 8
  {
  }

  lemma {:induction false} BitIn(data: Blob, k: nat)
    requires k < 8 * |data|
    ensures BitsOf(data)[k] == ByteBits(data[k / 8])[k % 8]
    decreases |data|
  {
    if k >= 8 {
      BitIn(data[1..], k - 8);
      LessEight(k);
    }
  }

  /** Any change within four consecutive bytes is such a burst. */
  lemma {:induction false} BytesNearby(one: Blob, two: Blob, i: nat)
    requires |one| == |two| && one != two && forall j | 0 <= j < |one| && one[j] != two[j] :: i <= j < i + 4
    ensures Nearby(one, two, 8 * i)
  {
    forall k | 0 <= k < 8 * |one| && BitsOf(one)[k] != BitsOf(two)[k]
      ensures 8 * i <= k < 8 * i + 32
    {
      BitIn(one, k);
      BitIn(two, k);
      assert one[k / 8] != two[k / 8];
    }
  }

  /** In particular, changing one byte changes the checksum. */
  lemma {:induction false} ByteChangesChecksum(data: Blob, i: nat, b: Byte)
    requires i < |data| && data[i] != b
    ensures Checksum(data[i := b]) != Checksum(data)
  {
    assert data[i := b][i] != data[i];
    BytesNearby(data[i := b], data, i);
    BurstChangesChecksum(data[i := b], data, 8 * i);
  }

  // ------------------------------------------------------------------
  // A message followed by its checksum
  // ------------------------------------------------------------------

  lemma {:induction false} FourBytes(a0: nat, a1: nat, a2: nat, a3: nat)
    requires a0 < 256 && a1 < 256 && a2 < 256 && a3 < 256
    ensures Le(a0 + 0x100 * a1 + 0x1_0000 * a2 + 0x100_0000 * a3, 4) == [a0 as Byte, a1 as Byte, a2 as Byte, a3 as Byte]
  {
    var n3, n2 := a3, a2 + 0x100 * a3;
    var n1 := a1 + 0x100 * n2;
    var n := a0 + 0x100 * n1;
    assert n % 256 == a0 && n / 256 == n1;
    assert n1 % 256 == a1 && n1 / 256 == n2;
    assert n2 % 256 == a2 && n2 / 256 == n3;
    LeStep(n, 3);
    LeStep(n1, 2);
    LeStep(n2, 1);
    LeStep(n3, 0);
  }

  lemma {:induction false} WordOfNat(o: Octet)
    ensures WordOfByte(NatOfOctet(o) as Byte) == WordOfOctet(o)
  {
    NatOfOctetInjective(OctetOf(NatOfOctet(o) as Byte), o);
  }

  lemma {:induction false} OctetIsLowByte(w: bv32)
    ensures WordOfOctet(OctetOfWord(w)) == w & 0xff
  {
  }

  lemma {:induction false} PartsLifted(w: bv32)
    ensures Lift(w & 0xff, 0) == w & 0xff && Lift((w >> 8) & 0xff, 1) == w & 0xff00
    ensures Lift((w >> 16) & 0xff, 2) == w & 0xff_0000 && Lift((w >> 24) & 0xff, 3) == w & 0xff00_0000
  {
  }

  lemma {:induction false} PartsTogether(w: bv32)
    ensures Xor(w & 0xff, Xor(w & 0xff00, Xor(w & 0xff_0000, w & 0xff00_0000))) == w
  {
  }

  lemma {:induction false} WordOfParts(w: bv32)
    ensures Addend(w & 0xff, (w >> 8) & 0xff, (w >> 16) & 0xff, (w >> 24) & 0xff) == w
  {
    PartsLifted(w);
    PartsTogether(w);
  }

  /** The bytes of a word, as they are stored. */
  lemma {:induction false} StoredBytes(w: bv32)
    ensures var stored := Le(NatOfWord(w), 4);
            && WordOfByte(stored[0]) == w & 0xff && WordOfByte(stored[1]) == (w >> 8) & 0xff
            && WordOfByte(stored[2]) == (w >> 16) & 0xff && WordOfByte(stored[3]) == (w >> 24) & 0xff
  {
    QuadStored(QuadOfWord(w));
    OctetIsLowByte(w);
    OctetIsLowByte(w >> 8);
    OctetIsLowByte(w >> 16);
    OctetIsLowByte(w >> 24);
  }

  function QuadBytes(q: Quad): (r: Blob)
    ensures |r| == 4
  {
    [NatOfOctet(q.o0) as Byte, NatOfOctet(q.o1) as Byte, NatOfOctet(q.o2) as Byte, NatOfOctet(q.o3) as Byte]
  }

  lemma {:induction false} QuadLe(q: Quad)
    ensures Le(NatOfQuad(q), 4) == QuadBytes(q)
  {
    FourBytes(NatOfOctet(q.o0), NatOfOctet(q.o1), NatOfOctet(q.o2), NatOfOctet(q.o3));
  }

  lemma {:induction false} QuadStored(q: Quad)
    ensures var stored := Le(NatOfQuad(q), 4);
            && WordOfByte(stored[0]) == WordOfOctet(q.o0) && WordOfByte(stored[1]) == WordOfOctet(q.o1)
            && WordOfByte(stored[2]) == WordOfOctet(q.o2) && WordOfByte(stored[3]) == WordOfOctet(q.o3)
  {
    QuadLe(q);
    WordOfNat(q.o0);
    WordOfNat(q.o1);
    WordOfNat(q.o2);
    WordOfNat(q.o3);
  }

  /** The stored bytes of a word are, as a window, the word. */
  lemma {:induction false} StoredWindow(w: bv32)
    ensures Window(REGISTER, Le(NatOfWord(w), 4), 0) == w
  {
    StoredBytes(w);
    WindowOfFour(REGISTER, WordOfByte, Le(NatOfWord(w), 4));
    WordOfParts(w);
  }

  /** What the register holds after any message and its own checksum. */
  function Residue(r: Register<bv32>, start: bv32): bv32 {
    Shifts(r, start, Bits(r, 4))
  }

  /** A register fed what brings it back to a given state, as a window. */
  lemma {:induction false} WindowReturns(r: Register<bv32>, x: bv32, stored: Blob, ones: bv32)
    requires Lawful(r, 4) && |stored| == 4 && r.add(x, Window(r, stored, 0)) == ones
    ensures FeedAll(r, x, stored) == Residue(r, ones)
  {
    FeedWindow(r, x, stored, 4);
  }

  lemma {:induction false} SealedFrom(x: bv32)
    ensures FeedAll(REGISTER, x, Le(NatOfWord(x ^ ALL_ONES), 4)) == Residue(REGISTER, ALL_ONES)
  {
    StoredWindow(x ^ ALL_ONES);
    RegisterLawful();
    XorTwice(x, ALL_ONES);
    WindowReturns(REGISTER, x, Le(NatOfWord(x ^ ALL_ONES), 4), ALL_ONES);
  }

  lemma {:induction false} SealedResidue(data: Blob)
    ensures FeedAll(REGISTER, ALL_ONES, data + Le(Checksum(data), 4)) == Residue(REGISTER, ALL_ONES)
  {
    FeedAllConcat(REGISTER, ALL_ONES, data, Le(Checksum(data), 4));
    SealedFrom(FeedAll(REGISTER, ALL_ONES, data));
  }

  lemma {:induction false} SealedAt(s: Blob, n: nat)
    requires n <= |s| && s[n..] == Le(Checksum(s[..n]), 4)
    ensures FeedAll(REGISTER, ALL_ONES, s) == Residue(REGISTER, ALL_ONES)
  {
    SealedResidue(s[..n]);
    assert s == s[..n] + s[n..];
  }

  /** A message and its checksum, changed within 32 consecutive bits that may lie in both, are
      not a message and its checksum any more. */
  lemma {:induction false} SealBreaks(data: Blob, changed: Blob, p: nat)
    requires Nearby(data + Le(Checksum(data), 4), changed, p)
    ensures changed[|data|..] != Le(Checksum(changed[..|data|]), 4)
  {
    NearbyRegisters(data + Le(Checksum(data), 4), changed, p);
    SealedResidue(data);
    if changed[|data|..] == Le(Checksum(changed[..|data|]), 4) {
      SealedAt(changed, |data|);
    }
  }
}
