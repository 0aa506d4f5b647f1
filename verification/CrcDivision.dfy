/** CRC32C as section 12.1 of RFC 3720 defines it: the remainder of a polynomial division.

Nothing in the definition mentions a register. A polynomial over the two-element field is the
sequence of its coefficients, highest power first.
 */
module CrcDivision {
  import opened Bytes
  import opened Registers
  import opened Crc

  type Polynomial = seq<bool>

  /** The powers of the generator, 0x11edc6f41. */
  const POWERS: set<int> := {32, 28, 27, 26, 25, 23, 22, 20, 19, 18, 14, 13, 11, 10, 9, 8, 6, 0}

  predicate HasPower(e: int) {
    e in POWERS
  }

  function Zeros(n: nat): (p: Polynomial)
    ensures |p| == n
  {
    seq(n, i requires 0 <= i < n => false)
  }

  function Ones(n: nat): (p: Polynomial)
    ensures |p| == n
  {
    seq(n, i requires 0 <= i < n => true)
  }

  function Plus(a: Polynomial, b: Polynomial): (p: Polynomial)
    requires |a| == |b|
    ensures |p| == |a|
  {
    seq(|a|, i requires 0 <= i < |a| => a[i] != b[i])
  }

  /** The generator below its highest power. */
  function Lower(): (p: Polynomial)
    ensures |p| == 32
  {
    seq(32, i requires 0 <= i < 32 => HasPower(31 - i))
  }

  function Generator(): (p: Polynomial)
    ensures |p| == 33
  {
    seq(33, i requires 0 <= i < 33 => HasPower(32 - i))
  }

  /** What the generator divides by one step: its highest coefficient is cleared and dropped. */
  function Divided(p: Polynomial): (r: Polynomial)
    requires |p| > 32
    ensures |r| == |p| - 1
  {
    if p[0] then Plus(p[1..], Lower() + Zeros(|p| - 33)) else p[1..]
  }

  /** The remainder of long division by the generator. */
  function Remainder(p: Polynomial): (r: Polynomial)
    requires |p| >= 32
    ensures |r| == 32
    decreases |p|
  {
    if |p| == 32 then p else Remainder(Divided(p))
  }

  /** The quotient: the coefficients that were cleared. */
  function Quotient(p: Polynomial): (q: Polynomial)
    requires |p| >= 32
    ensures |q| == |p| - 32
    decreases |p|
  {
    if |p| == 32 then [] else [p[0]] + Quotient(Divided(p))
  }

  /** A multiple of the generator. */
  function Multiple(q: Polynomial): (p: Polynomial)
    ensures |p| == |q| + 32
    decreases |q|
  {
    if q == [] then Zeros(32)
    else Plus([false] + Multiple(q[1..]), if q[0] then Generator() + Zeros(|q| - 1) else Zeros(|q| + 32))
  }

  /** It is a division: what is divided is a multiple of the generator and the remainder. */
  lemma {:induction false} DivisionHolds(p: Polynomial)
    requires |p| >= 32
    ensures p == Plus(Multiple(Quotient(p)), Zeros(|p| - 32) + Remainder(p))
    decreases |p|
  {
    if |p| > 32 {
      DivisionHolds(Divided(p));
      Undivided(p, Quotient(Divided(p)), Remainder(p));
    } else {
      assert Zeros(0) + p == p;
      assert forall i | 0 <= i < 32 :: Plus(Zeros(32), p)[i] == p[i];
    }
  }

  lemma {:induction false} Undivided(p: Polynomial, q: Polynomial, r: Polynomial)
    requires |p| > 32 && |q| == |p| - 33 && |r| == 32 && Divided(p) == Plus(Multiple(q), Zeros(|q|) + r)
    ensures forall i | 0 <= i < |p| :: p[i] == Plus(Multiple([p[0]] + q), Zeros(|p| - 32) + r)[i]
  {
    assert ([p[0]] + q)[1..] == q;
    forall i | 0 < i < |p|
      ensures p[i] == Plus(Multiple([p[0]] + q), Zeros(|p| - 32) + r)[i]
    {
      UndividedAt(p, q, i);
      assert Divided(p)[i - 1] == (Multiple(q)[i - 1] != (Zeros(|q|) + r)[i - 1]);
    }
    MultipleHead(p[0], q);
  }

  lemma {:induction false} MultipleHead(first: bool, q: Polynomial)
    ensures Multiple([first] + q)[0] == first
  {
    assert ([first] + q)[1..] == q;
  }

  lemma {:induction false} UndividedAt(p: Polynomial, q: Polynomial, i: nat)
    requires |p| > 32 && |q| == |p| - 33 && 0 < i < |p|
    ensures Multiple([p[0]] + q)[i] == (Multiple(q)[i - 1] != (p[0] && i < 33 && HasPower(32 - i)))
    ensures Divided(p)[i - 1] == (p[i] != (p[0] && i < 33 && HasPower(32 - i)))
  {
    assert ([p[0]] + q)[1..] == q;
  }

  // ------------------------------------------------------------------
  // The definition of the checksum
  // ------------------------------------------------------------------

  /** Bit i of a number. */
  predicate BitSet(n: nat, i: nat)
    decreases i
  {
    if i == 0 then n % 2 == 1 else BitSet(n / 2, i - 1)
  }

  /** The bits of a message, each byte's lowest bit first. */
  function MessageBits(data: Blob): (p: Polynomial)
    ensures |p| == 8 * |data|
  {
    seq(8 * |data|, k requires 0 <= k < 8 * |data| => BitSet(data[k / 8] as nat, k % 8))
  }

  /** The message times x^32, with its first 32 coefficients complemented. */
  function Dividend(data: Blob): (p: Polynomial)
    ensures |p| == 8 * |data| + 32
  {
    Plus(MessageBits(data) + Zeros(32), Ones(32) + Zeros(8 * |data|))
  }

  /** The number whose bits these are, lowest first. */
  function LowFirst(bits: seq<bool>): nat
    decreases |bits|
  {
    if bits == [] then 0 else Weight(bits[0], 1) + 2 * LowFirst(bits[1..])
  }

  /** The complement of the remainder, with the coefficient of x^31 as the lowest bit. */
  function Crc32cByDivision(data: Blob): nat {
    LowFirst(Plus(Remainder(Dividend(data)), Ones(32)))
  }

  // ------------------------------------------------------------------
  // The register divides
  // ------------------------------------------------------------------

  function OctetBit(o: Octet, j: nat): bool {
    if j == 0 then o.b0 else if j == 1 then o.b1 else if j == 2 then o.b2 else if j == 3 then o.b3
    else if j == 4 then o.b4 else if j == 5 then o.b5 else if j == 6 then o.b6 else o.b7
  }

  function QuadBit(q: Quad, i: nat): bool {
    if i < 8 then OctetBit(q.o0, i) else if i < 16 then OctetBit(q.o1, i - 8)
    else if i < 24 then OctetBit(q.o2, i - 16) else OctetBit(q.o3, i - 24)
  }

  function QuadBits(q: Quad): (p: Polynomial)
    ensures |p| == 32
  {
    seq(32, i requires 0 <= i < 32 => QuadBit(q, i))
  }

  /** The polynomial in the register: its lowest bit is the coefficient of x^31. */
  function Held(w: bv32): (p: Polynomial)
    ensures |p| == 32
  {
    QuadBits(QuadOfWord(w))
  }

  function StepOctet(o: Octet, next: bool, on: bool, k: nat): Octet
    requires k <= 24
  {
    Octet(next != (on && HasPower(24 - k)),
          o.b7 != (on && HasPower(25 - k)), o.b6 != (on && HasPower(26 - k)), o.b5 != (on && HasPower(27 - k)),
          o.b4 != (on && HasPower(28 - k)), o.b3 != (on && HasPower(29 - k)), o.b2 != (on && HasPower(30 - k)),
          o.b1 != (on && HasPower(31 - k)))
  }

  lemma {:induction false} ShiftLowest(w: bv32)
    ensures OctetOfWord(Shift(w)) == StepOctet(OctetOfWord(w), OctetOfWord(w >> 8).b0, OctetOfWord(w).b0, 0)
  {
  }

  lemma {:induction false} ShiftSecond(w: bv32)
    ensures OctetOfWord(Shift(w) >> 8) == StepOctet(OctetOfWord(w >> 8), OctetOfWord(w >> 16).b0, OctetOfWord(w).b0, 8)
  {
  }

  lemma {:induction false} ShiftThird(w: bv32)
    ensures OctetOfWord(Shift(w) >> 16) == StepOctet(OctetOfWord(w >> 16), OctetOfWord(w >> 24).b0, OctetOfWord(w).b0, 16)
  {
  }

  lemma {:induction false} ShiftHighest(w: bv32)
    ensures OctetOfWord(Shift(w) >> 24) == StepOctet(OctetOfWord(w >> 24), false, OctetOfWord(w).b0, 24)
  {
  }

  lemma {:induction false} StepAt(o: Octet, next: bool, on: bool, k: nat, j: nat)
    requires k <= 24 && j < 8
    ensures OctetBit(StepOctet(o, next, on, k), j) == ((if j == 7 then next else OctetBit(o, j + 1)) != (on && HasPower(31 - k - j)))
  {
  }

  predicate Stepped(o: Octet, v: Octet, next: bool, on: bool, k: nat) {
    forall j: nat {:trigger OctetBit(v, j)} | j < 8 ::
      OctetBit(v, j) == ((if j == 7 then next else OctetBit(o, j + 1)) != (on && HasPower(31 - k - j)))
  }

  lemma {:induction false} StepIs(o: Octet, next: bool, on: bool, k: nat)
    requires k <= 24
    ensures Stepped(o, StepOctet(o, next, on, k), next, on, k)
  {
    forall j: nat | j < 8
      ensures OctetBit(StepOctet(o, next, on, k), j) == ((if j == 7 then next else OctetBit(o, j + 1)) != (on && HasPower(31 - k - j)))
    {
      StepAt(o, next, on, k, j);
    }
  }

  predicate QuadStepped(q: Quad, v: Quad) {
    var on := q.o0.b0;
    && Stepped(q.o3, v.o3, false, on, 24) && Stepped(q.o2, v.o2, q.o3.b0, on, 16)
    && Stepped(q.o1, v.o1, q.o2.b0, on, 8) && Stepped(q.o0, v.o0, q.o1.b0, on, 0)
  }

  lemma {:induction false} QuadStepAt(q: Quad, v: Quad, i: nat)
    requires QuadStepped(q, v) && i < 32
    ensures QuadBit(v, i) == ((if i == 31 then false else QuadBit(q, i + 1)) != (q.o0.b0 && HasPower(31 - i)))
  {
  }

  lemma {:induction false} DividedAt(p: Polynomial, i: nat)
    requires |p| > 32 && i < |p| - 1
    ensures Divided(p)[i] == (p[i + 1] != (p[0] && i < 32 && HasPower(31 - i)))
  {
  }

  lemma {:induction false} QuadSteps(q: Quad, v: Quad)
    requires QuadStepped(q, v)
    ensures QuadBits(v) == Divided(QuadBits(q) + [false])
  {
    forall i | 0 <= i < 32
      ensures QuadBits(v)[i] == Divided(QuadBits(q) + [false])[i]
    {
      QuadStepAt(q, v, i);
      DividedAt(QuadBits(q) + [false], i);
    }
  }

  lemma {:induction false} OctetsStep(w: bv32, v: bv32)
    requires OctetOfWord(v >> 24) == StepOctet(OctetOfWord(w >> 24), false, OctetOfWord(w).b0, 24)
    requires OctetOfWord(v >> 16) == StepOctet(OctetOfWord(w >> 16), OctetOfWord(w >> 24).b0, OctetOfWord(w).b0, 16)
    requires OctetOfWord(v >> 8) == StepOctet(OctetOfWord(w >> 8), OctetOfWord(w >> 16).b0, OctetOfWord(w).b0, 8)
    requires OctetOfWord(v) == StepOctet(OctetOfWord(w), OctetOfWord(w >> 8).b0, OctetOfWord(w).b0, 0)
    ensures Held(v) == Divided(Held(w) + [false])
  {
    StepIs(OctetOfWord(w >> 24), false, OctetOfWord(w).b0, 24);
    StepIs(OctetOfWord(w >> 16), OctetOfWord(w >> 24).b0, OctetOfWord(w).b0, 16);
    StepIs(OctetOfWord(w >> 8), OctetOfWord(w >> 16).b0, OctetOfWord(w).b0, 8);
    StepIs(OctetOfWord(w), OctetOfWord(w >> 8).b0, OctetOfWord(w).b0, 0);
    QuadSteps(QuadOfWord(w), QuadOfWord(v));
  }

  /** One shift of the register is one step of long division by the generator. */
  lemma {:induction false} ShiftDivides(w: bv32)
    ensures Held(Shift(w)) == Divided(Held(w) + [false])
  {
    ShiftLowest(w);
    ShiftSecond(w);
    ShiftThird(w);
    ShiftHighest(w);
    OctetsStep(w, Shift(w));
  }

  // ------------------------------------------------------------------
  // Feeding bits is dividing what they spell
  // ------------------------------------------------------------------

  function Coefficients(bits: Blob): (p: Polynomial)
    ensures |p| == |bits|
  {
    seq(|bits|, i requires 0 <= i < |bits| => bits[i] == 1)
  }

  /** What is left to divide when the register holds h and the bits p are still to come. */
  function Left(h: Polynomial, p: Polynomial): (r: Polynomial)
    requires |h| == 32
    ensures |r| == 32 + |p|
  {
    Plus(h + Zeros(|p|), p + Zeros(32))
  }

  lemma {:induction false} LeftDivides(h: Polynomial, p: Polynomial)
    requires |h| == 32 && p != []
    ensures Divided(Left(h, p)) == Left(Divided(h[0 := h[0] != p[0]] + [false]), p[1..])
  {
    var whole, next := Left(h, p), Left(Divided(h[0 := h[0] != p[0]] + [false]), p[1..]);
    forall i | 0 <= i < |next|
      ensures Divided(whole)[i] == next[i]
    {
      DividedAt(whole, i);
      if i < 32 {
        DividedAt(h[0 := h[0] != p[0]] + [false], i);
      }
    }
  }

  lemma {:induction false} LowestFlips(w: bv32)
    ensures OctetOfWord(w ^ 1) == OctetOfWord(w).(b0 := !OctetOfWord(w).b0)
    ensures (w ^ 1) >> 8 == w >> 8 && (w ^ 1) >> 16 == w >> 16 && (w ^ 1) >> 24 == w >> 24
  {
  }

  lemma {:induction false} QuadFlips(q: Quad, v: Quad)
    requires v.o0 == q.o0.(b0 := !q.o0.b0) && v.o1 == q.o1 && v.o2 == q.o2 && v.o3 == q.o3
    ensures QuadBits(v) == QuadBits(q)[0 := !QuadBits(q)[0]]
  {
  }

  lemma {:induction false} HeldFlips(w: bv32)
    ensures Held(Xor(w, 1)) == Held(w)[0 := !Held(w)[0]]
  {
    LowestFlips(w);
    QuadFlips(QuadOfWord(w), QuadOfWord(w ^ 1));
  }

  lemma {:induction false} BitAdded(x: bv32, b: Byte)
    requires b == 0 || b == 1
    ensures Held(Xor(x, BitLift(b, 0))) == Held(x)[0 := Held(x)[0] != (b == 1)]
  {
    FirstBit(b);
    if b == 0 {
      XorZero(x);
      Unset(Held(x));
    } else {
      HeldFlips(x);
    }
  }

  lemma {:induction false} Unset(p: Polynomial)
    requires p != []
    ensures p[0 := p[0] != false] == p
  {
  }

  lemma {:induction false} XorZero(x: bv32)
    ensures Xor(x, 0) == x
  {
  }

  /** A register fed bits holds the remainder of what it held, carried on, together with them. */
  lemma {:induction false} FeedDivides(r: Register<bv32>, x: bv32, bits: Blob)
    requires r.add == Xor && r.shift == Shift && r.lift == BitLift && r.bits == 1 && Binary(bits)
    ensures Held(FeedAll(r, x, bits)) == Remainder(Left(Held(x), Coefficients(bits)))
    decreases |bits|
  {
    if bits == [] {
      assert Left(Held(x), []) == Held(x);
    } else {
      var y := r.add(x, r.lift(bits[0], 0));
      BitAdded(x, bits[0]);
      OneShift(r, y);
      ShiftDivides(y);
      LeftDivides(Held(x), Coefficients(bits));
      assert Coefficients(bits)[1..] == Coefficients(bits[1..]);
      FeedDivides(r, Shift(y), bits[1..]);
    }
  }

  // The bits of numbers.

  lemma {:induction false} BitOfLowFirst(p: Polynomial, i: nat)
    requires i < |p|
    ensures BitSet(LowFirst(p), i) == p[i]
    decreases i
  {
    if i > 0 {
      BitOfLowFirst(p[1..], i - 1);
      assert LowFirst(p) / 2 == LowFirst(p[1..]);
    }
  }

  lemma {:induction false} LowFirstFour(p: Polynomial)
    requires |p| >= 4
    ensures LowFirst(p) == Weight(p[0], 1) + Weight(p[1], 2) + Weight(p[2], 4) + Weight(p[3], 8) + 16 * LowFirst(p[4..])
  {
    assert p[1..][1..] == p[2..] && p[2..][1..] == p[3..] && p[3..][1..] == p[4..];
    assert LowFirst(p[2..]) == Weight(p[2], 1) + 2 * LowFirst(p[3..]);
  }

  function OctetNumber(o: Octet): nat {
    Weight(o.b0, 1) + Weight(o.b1, 2) + Weight(o.b2, 4) + Weight(o.b3, 8)
    + 16 * (Weight(o.b4, 1) + Weight(o.b5, 2) + Weight(o.b6, 4) + Weight(o.b7, 8))
  }

  lemma {:induction false} OctetNumbered(o: Octet)
    ensures OctetNumber(o) == NatOfOctet(o)
  {
  }

  predicate Begins(p: Polynomial, o: Octet) {
    |p| >= 8 && forall j: nat | j < 8 :: p[j] == OctetBit(o, j)
  }

  lemma {:induction false} LowFirstEight(p: Polynomial)
    requires |p| >= 8
    ensures LowFirst(p) == OctetNumber(Octet(p[7], p[6], p[5], p[4], p[3], p[2], p[1], p[0])) + 256 * LowFirst(p[8..])
  {
    LowFirstFour(p);
    LowFirstFour(p[4..]);
    assert p[4..][4..] == p[8..];
  }

  lemma {:induction false} BeginsWith(p: Polynomial, o: Octet)
    requires Begins(p, o)
    ensures Octet(p[7], p[6], p[5], p[4], p[3], p[2], p[1], p[0]) == o
  {
  }

  lemma {:induction false} LowFirstOctet(p: Polynomial, o: Octet)
    requires Begins(p, o)
    ensures LowFirst(p) == NatOfOctet(o) + 256 * LowFirst(p[8..])
  {
    LowFirstEight(p);
    BeginsWith(p, o);
    OctetNumbered(o);
  }

  lemma {:induction false} BitOfOctet(p: Polynomial, o: Octet, j: nat)
    requires Begins(p, o) && |p| == 8 && j < 8
    ensures BitSet(NatOfOctet(o), j) == p[j]
  {
    LowFirstOctet(p, o);
    assert p[8..] == [];
    BitOfLowFirst(p, j);
  }

  lemma {:induction false} BitOfByte(b: Byte, j: nat)
    requires j < 8
    ensures BitSet(b as nat, j) == OctetBit(OctetOf(b), j)
  {
    var o := OctetOf(b);
    var p := seq(8, i requires 0 <= i < 8 => OctetBit(o, i));
    assert Begins(p, o);
    BitOfOctet(p, o, j);
  }

  lemma {:induction false} ByteBitAt(b: Byte, j: nat)
    requires j < 8
    ensures (ByteBits(b)[j] == 1) == OctetBit(OctetOf(b), j)
  {
  }

  /** The register takes in exactly the bits of the message. */
  lemma {:induction false} MessageFed(data: Blob)
    ensures Coefficients(BitsOf(data)) == MessageBits(data)
  {
    forall k | 0 <= k < 8 * |data|
      ensures Coefficients(BitsOf(data))[k] == MessageBits(data)[k]
    {
      BitIn(data, k);
      BitOfByte(data[k / 8], k % 8);
      ByteBitAt(data[k / 8], k % 8);
    }
  }

  lemma {:induction false} QuadBegins(q: Quad, p: Polynomial)
    requires p == QuadBits(q)
    ensures Begins(p, q.o0) && Begins(p[8..], q.o1) && Begins(p[16..], q.o2) && Begins(p[24..], q.o3)
  {
  }

  lemma {:induction false} LowFirstParts(p: Polynomial, o0: Octet, o1: Octet, o2: Octet, o3: Octet)
    requires |p| == 32 && Begins(p, o0) && Begins(p[8..], o1) && Begins(p[16..], o2) && Begins(p[24..], o3)
    ensures LowFirst(p) == NatOfOctet(o0) + 256 * (NatOfOctet(o1) + 256 * (NatOfOctet(o2) + 256 * NatOfOctet(o3)))
  {
    assert p[8..][8..] == p[16..] && p[16..][8..] == p[24..] && p[24..][8..] == [];
    LowFirstOctet(p, o0);
    LowFirstOctet(p[8..], o1);
    LowFirstOctet(p[16..], o2);
    LowFirstOctet(p[24..], o3);
  }

  lemma {:induction false} LowFirstQuad(q: Quad)
    ensures LowFirst(QuadBits(q)) == NatOfQuad(q)
  {
    QuadBegins(q, QuadBits(q));
    LowFirstParts(QuadBits(q), q.o0, q.o1, q.o2, q.o3);
  }

  // ------------------------------------------------------------------
  // The checksum is the remainder's complement
  // ------------------------------------------------------------------

  lemma {:induction false} OctetComplements(w: bv32)
    ensures OctetOfWord(w ^ ALL_ONES) == Complement(OctetOfWord(w))
    ensures OctetOfWord((w ^ ALL_ONES) >> 8) == Complement(OctetOfWord(w >> 8))
    ensures OctetOfWord((w ^ ALL_ONES) >> 16) == Complement(OctetOfWord(w >> 16))
    ensures OctetOfWord((w ^ ALL_ONES) >> 24) == Complement(OctetOfWord(w >> 24))
  {
  }

  function Complement(o: Octet): Octet {
    Octet(!o.b7, !o.b6, !o.b5, !o.b4, !o.b3, !o.b2, !o.b1, !o.b0)
  }

  lemma {:induction false} ComplementAt(o: Octet, j: nat)
    ensures OctetBit(Complement(o), j) == !OctetBit(o, j)
  {
  }

  lemma {:induction false} QuadComplements(q: Quad)
    ensures QuadBits(Quad(Complement(q.o3), Complement(q.o2), Complement(q.o1), Complement(q.o0))) == Plus(QuadBits(q), Ones(32))
  {
    var v := Quad(Complement(q.o3), Complement(q.o2), Complement(q.o1), Complement(q.o0));
    forall i | 0 <= i < 32
      ensures QuadBit(v, i) == !QuadBit(q, i)
    {
      var j := if i < 8 then i else if i < 16 then i - 8 else if i < 24 then i - 16 else i - 24;
      ComplementAt(q.o0, j);
      ComplementAt(q.o1, j);
      ComplementAt(q.o2, j);
      ComplementAt(q.o3, j);
    }
  }

  lemma {:induction false} Complemented(w: bv32)
    ensures NatOfWord(w ^ ALL_ONES) == LowFirst(Plus(Held(w), Ones(32)))
  {
    OctetComplements(w);
    QuadComplements(QuadOfWord(w));
    LowFirstQuad(QuadOfWord(w ^ ALL_ONES));
  }

  lemma {:induction false} AllOnesHeld()
    ensures Held(ALL_ONES) == Ones(32)
  {
    assert QuadOfWord(ALL_ONES).o0 == Octet(true, true, true, true, true, true, true, true);
  }

  lemma {:induction false} PlusCommutes(a: Polynomial, b: Polynomial)
    requires |a| == |b|
    ensures Plus(a, b) == Plus(b, a)
  {
  }

  /** The checksum of every buffer is the CRC32C of the standard. */
  lemma {:induction false} ChecksumByDivision(data: Blob)
    ensures Checksum(data) == Crc32cByDivision(data)
  {
    var bits := BitsOf(data);
    BitRegisterLawful();
    BitsFed(REGISTER, BIT_REGISTER, ALL_ONES, data);
    BitsBinary(data);
    FeedDivides(BIT_REGISTER, ALL_ONES, bits);
    AllOnesHeld();
    MessageFed(data);
    PlusCommutes(Ones(32) + Zeros(|bits|), Coefficients(bits) + Zeros(32));
    Complemented(FeedAll(REGISTER, ALL_ONES, data));
  }
}
