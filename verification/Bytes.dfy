/** Bytes, little-endian scalars and the errors the engine reports.

The functions here are the specification of the byte-level reader and writer:
a reader is a function from the remaining bytes to a value and the bytes left.
 */
module Bytes {

  newtype Byte = x: int | 0 <= x < 256

  type Blob = seq<Byte>

  const TWO16: nat := 0x1_0000
  const TWO32: nat := 0x1_0000_0000
  const TWO64: nat := 0x1_0000_0000_0000_0000

  /** One constructor per kind of exception the engine throws. */
  datatype Error =
    | Corruption(reason: Reason)
    | StorageFault
    | SizeOverflow
    | Conflict(name: Blob)
    | NotActive
    | EmptyName
    | HeapClosed
    | HeapPoisoned
    | WrongType
    | Malformed

  datatype Reason =
    | TruncatedPayload
    | LengthExceedsPayload
    | BadMagic
    | BadLength
    | ChecksumMismatch
    | BadFormat
    | TrailingBytes
    | SequenceNotIncreasing
    | UpdateWithoutBegin
    | CommitWithoutBegin
    | CountMismatch
    | VersionChainMismatch
    | UnknownRecordType
    | SnapshotTruncated
    | ImplausibleCount
    | IndexExceedsFile
    | LocatorExceedsFile
    | DuplicateRoot
    | UnknownTag

  type Sum32 = n: nat | n < TWO32

  /** A checksum function. The engine's is CRC32C (module Crc); only the error-detection
      results depend on which function it is. */
  type Digest = Blob -> Sum32

  /** Whether checksums are verified, and which function computes them. */
  datatype Checks = Checks(on: bool, digest: Digest)

  datatype Option<+T> = None | Some(value: T)

  datatype Result<+T> = Ok(value: T) | Err(error: Error) {
    predicate IsFailure() {
      Err?
    }

    function PropagateFailure<U>(): (r: Result<U>)
      requires Err?
    {
      Err(error)
    }

    function Extract(): T
      requires Ok?
    {
      value
    }
  }

  /** Whether a set of laws is kept. A proof that only passes the laws on treats this as one fact. */
  datatype Law = Kept | Broken

  /** Names the moment at which a proof looks into an invariant that is stated under it;
      elsewhere the solver leaves the invariant closed. */
  predicate Opened(k: nat) {
    k >= 0
  }

  // ------------------------------------------------------------------
  // Sequences
  // ------------------------------------------------------------------

  lemma {:induction false} ConcatAssoc<T>(a: seq<T>, b: seq<T>, c: seq<T>)
    ensures (a + b) + c == a + (b + c)
  {
  }

  lemma {:induction false} ConcatParts<T>(a: seq<T>, b: seq<T>)
    ensures (a + b)[..|a|] == a && (a + b)[|a|..] == b
  {
  }

  lemma {:induction false} DropDrop<T>(s: seq<T>, a: nat, b: nat)
    requires a + b <= |s|
    ensures s[a..][b..] == s[a + b..]
  {
  }

  lemma {:induction false} ConcatTake<T>(a: seq<T>, b: seq<T>, k: nat)
    requires k <= |a| + |b|
    ensures (a + b)[..k] == if k <= |a| then a[..k] else a + b[..k - |a|]
  {
  }

  lemma {:induction false} ConcatDrop<T>(a: seq<T>, b: seq<T>, k: nat)
    requires k <= |a|
    ensures (a + b)[k..] == a[k..] + b
  {
  }

  // ------------------------------------------------------------------
  // Little-endian scalars
  // ------------------------------------------------------------------

  function Pow256(k: nat): (p: nat)
    ensures p > 0
  {
    if k == 0 then 1 else 256 * Pow256(k - 1)
  }

  /** The k little-endian bytes of n, higher bytes dropped. */
  function Le(n: nat, k: nat): (s: Blob)
    ensures |s| == k
  {
    seq(k, i requires 0 <= i < k => Digit(n, i))
  }

  /** Byte i of n. */
  function Digit(n: nat, i: nat): Byte
    decreases i
  {
    if i == 0 then (n % 256) as Byte else Digit(n / 256, i - 1)
  }

  lemma {:induction false} LeStep(n: nat, k: nat)
    ensures Le(n, k + 1) == [(n % 256) as Byte] + Le(n / 256, k)
  {
  }

  function FromLe(s: Blob): (n: nat)
    ensures n < Pow256(|s|)
  {
    if s == [] then 0 else s[0] as nat + 256 * FromLe(s[1..])
  }

  lemma {:induction false} Widths()
    ensures Pow256(1) == 256 && Pow256(2) == TWO16 && Pow256(4) == TWO32 && Pow256(8) == TWO64
  {
    assert Pow256(3) == 256 * TWO16;
    assert Pow256(4) == TWO32;
    assert Pow256(6) == TWO16 * TWO32;
  }

  lemma {:induction false} FromLeOfLe(n: nat, k: nat)
    requires n < Pow256(k)
    ensures FromLe(Le(n, k)) == n
  {
    if k > 0 {
      LeStep(n, k - 1);
      FromLeOfLe(n / 256, k - 1);
      assert Le(n, k)[1..] == Le(n / 256, k - 1);
    }
  }

  /** A further high byte adds its weight. */
  lemma {:induction false} FromLeSnoc(s: Blob, b: Byte)
    ensures FromLe(s + [b]) == FromLe(s) + b as nat * Pow256(|s|)
  {
    if s == [] {
      assert [b][1..] == [];
    } else {
      assert (s + [b])[1..] == s[1..] + [b];
      FromLeSnoc(s[1..], b);
      assert 256 * (b as nat * Pow256(|s| - 1)) == b as nat * Pow256(|s|);
    }
  }

  lemma {:induction false} LeOfFromLe(s: Blob)
    ensures Le(FromLe(s), |s|) == s
  {
    if s != [] {
      var rest := FromLe(s[1..]);
      assert (s[0] as nat + 256 * rest) % 256 == s[0] as nat;
      assert (s[0] as nat + 256 * rest) / 256 == rest;
      LeOfFromLe(s[1..]);
      LeStep(FromLe(s), |s| - 1);
      assert s == [s[0]] + s[1..];
    }
  }

  // ------------------------------------------------------------------
  // Reading from the front of a byte string
  // ------------------------------------------------------------------

  function ReadScalar(s: Blob, k: nat): (r: Result<(nat, Blob)>)
    ensures r.Ok? <==> k <= |s|
    ensures r.Ok? ==> |r.value.1| == |s| - k && r.value.0 < Pow256(k)
  {
    if k > |s| then Err(Corruption(TruncatedPayload)) else Ok((FromLe(s[..k]), s[k..]))
  }

  /** A length-prefixed string as the writer produces it. */
  function StringBytes(s: Blob): (r: Blob)
    ensures |r| == 8 + |s|
  {
    Le(|s|, 8) + s
  }

  function ReadString(s: Blob): (r: Result<(Blob, Blob)>)
    ensures r.Ok? ==> |r.value.1| + |r.value.0| + 8 == |s|
  {
    var (count, rest) :- ReadScalar(s, 8);
    if count > |rest| then Err(Corruption(LengthExceedsPayload)) else Ok((rest[..count], rest[count..]))
  }

  lemma {:induction false} ReadScalarLe(n: nat, k: nat, rest: Blob)
    requires n < Pow256(k)
    ensures ReadScalar(Le(n, k) + rest, k) == Ok((n, rest))
  {
    FromLeOfLe(n, k);
    assert (Le(n, k) + rest)[..k] == Le(n, k);
    assert (Le(n, k) + rest)[k..] == rest;
  }

  lemma {:induction false} ReadStringBytes(s: Blob, rest: Blob)
    requires |s| < TWO64
    ensures ReadString(StringBytes(s) + rest) == Ok((s, rest))
  {
    Widths();
    assert StringBytes(s) + rest == Le(|s|, 8) + (s + rest);
    ReadScalarLe(|s|, 8, s + rest);
    assert (s + rest)[..|s|] == s;
    assert (s + rest)[|s|..] == rest;
  }

  // ------------------------------------------------------------------
  // Byte-string order and slices
  // ------------------------------------------------------------------

  /** std::string order: bytewise, unsigned, shorter first. */
  predicate Less(a: Blob, b: Blob) {
    if b == [] then false
    else if a == [] then true
    else if a[0] != b[0] then a[0] < b[0]
    else Less(a[1..], b[1..])
  }

  /** The strings agree before place k, and there the first one ends or has the smaller byte. */
  predicate FirstDiffers(a: Blob, b: Blob, k: nat) {
    && k <= |a| && k < |b| && a[..k] == b[..k]
    && (k < |a| ==> a[k] < b[k])
  }

  lemma {:induction false} LessAtPlace(a: Blob, b: Blob, k: nat)
    requires FirstDiffers(a, b, k)
    ensures Less(a, b)
    decreases k
  {
    if k > 0 {
      assert a[..k][0] == b[..k][0];
      assert a[1..][..k - 1] == a[..k][1..] && b[1..][..k - 1] == b[..k][1..];
      LessAtPlace(a[1..], b[1..], k - 1);
    }
  }

  lemma {:induction false} PlaceNext(c: Byte, a: Blob, b: Blob, k: nat)
    requires FirstDiffers(a, b, k)
    ensures FirstDiffers([c] + a, [c] + b, k + 1)
  {
    assert ([c] + a)[..k + 1] == [c] + a[..k] && ([c] + b)[..k + 1] == [c] + b[..k];
  }

  lemma {:induction false} PlaceOfLess(a: Blob, b: Blob) returns (k: nat)
    requires Less(a, b)
    ensures FirstDiffers(a, b, k)
    decreases |a|
  {
    k := 0;
    if a != [] && a[0] == b[0] {
      var j := PlaceOfLess(a[1..], b[1..]);
      PlaceNext(a[0], a[1..], b[1..], j);
      assert a == [a[0]] + a[1..] && b == [b[0]] + b[1..];
      k := j + 1;
    }
  }

  /** Byte strings are ordered by the first place where they differ. */
  lemma {:induction false} LessIff(a: Blob, b: Blob)
    ensures Less(a, b) <==> exists k: nat :: FirstDiffers(a, b, k)
  {
    if Less(a, b) {
      var k := PlaceOfLess(a, b);
    }
    if k: nat :| FirstDiffers(a, b, k) {
      LessAtPlace(a, b, k);
    }
  }

  lemma {:induction false} LessTransitive(a: Blob, b: Blob, c: Blob)
    requires Less(a, b) && Less(b, c)
    ensures Less(a, c)
  {
    if a != [] && a[0] == b[0] == c[0] {
      LessTransitive(a[1..], b[1..], c[1..]);
    }
  }

  lemma {:induction false} LessTotal(a: Blob, b: Blob)
    ensures Less(a, b) || a == b || Less(b, a)
    ensures !(Less(a, b) && Less(b, a))
    ensures !Less(a, a)
  {
    if a != [] {
      LessTotal(a[1..], a[1..]);
      if b != [] && a[0] == b[0] {
        LessTotal(a[1..], b[1..]);
        assert a == [a[0]] + a[1..] && b == [b[0]] + b[1..];
      }
    }
  }

  predicate InBounds(s: Blob, offset: nat, size: nat) {
    offset + size <= |s|
  }

  function Slice(s: Blob, offset: nat, size: nat): (r: Blob)
    requires InBounds(s, offset, size)
    ensures |r| == size
  {
    s[offset..offset + size]
  }

  lemma {:induction false} SliceExtend(s: Blob, more: Blob, offset: nat, size: nat)
    requires InBounds(s, offset, size)
    ensures InBounds(s + more, offset, size)
    ensures Slice(s + more, offset, size) == Slice(s, offset, size)
  {
  }

  lemma {:induction false} SliceFront(a: Blob, b: Blob)
    ensures InBounds(a + b, 0, |a|) && Slice(a + b, 0, |a|) == a
  {
  }

  lemma {:induction false} SliceSkip(a: Blob, b: Blob, offset: nat, size: nat)
    requires InBounds(b, offset, size)
    ensures InBounds(a + b, |a| + offset, size)
    ensures Slice(a + b, |a| + offset, size) == Slice(b, offset, size)
  {
  }

  lemma {:induction false} SliceSlice(s: Blob, offset: nat, size: nat, from: nat, count: nat)
    requires InBounds(s, offset, size) && from + count <= size
    ensures Slice(s, offset, size)[from..from + count] == Slice(s, offset + from, count)
  {
    var part := Slice(s, offset, size)[from..from + count];
    assert forall i | 0 <= i < count :: part[i] == s[offset + from + i];
  }
}
