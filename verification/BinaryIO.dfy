/** The byte writer and reader, objects that append to a buffer and advance a position. */
module BinaryIO {
  import opened Bytes

  class Writer {
    var bytes: Blob

    constructor ()
      ensures bytes == []
    {
      bytes := [];
    }

    /** Appends the little-endian bytes of a scalar, low byte first. */
    method Scalar(value: nat, width: nat)
      modifies this
      ensures bytes == old(bytes) + Le(value, width)
    {
      var bits := value;
      for i := 0 to width
        invariant bytes + Le(bits, width - i) == old(bytes) + Le(value, width)
      {
        LeStep(bits, width - i - 1);
        ConcatAssoc(bytes, [(bits % 256) as Byte], Le(bits / 256, width - i - 1));
        bytes := bytes + [(bits % 256) as Byte];
        bits := bits / 256;
      }
    }

    method Bytes(value: Blob)
      modifies this
      ensures bytes == old(bytes) + value
    {
      bytes := bytes + value;
    }

    /** Appends a length-prefixed string. */
    method String(value: Blob)
      modifies this
      ensures bytes == old(bytes) + StringBytes(value)
    {
      Scalar(|value|, 8);
      Bytes(value);
    }
  }

  class Reader {
    const data: Blob
    var position: nat

    ghost predicate Valid()
      reads this
    {
      position <= |data|
    }

    /** The bytes not yet read. */
    ghost function Rest(): Blob
      requires Valid()
      reads this
    {
      data[position..]
    }

    constructor (data: Blob)
      ensures Valid() && this.data == data && position == 0
    {
      this.data := data;
      position := 0;
    }

    function Remaining(): (n: nat)
      requires Valid()
      reads this
      ensures n == |Rest()|
    {
      |data| - position
    }

    predicate Eof()
      reads this
      ensures Eof() && Valid() ==> Rest() == []
    {
      position == |data|
    }

    /** Assembles a scalar from its bytes; the position moves only on success. */
    method Scalar(width: nat) returns (r: Result<nat>)
      requires Valid()
      modifies this
      ensures Valid()
      ensures match ReadScalar(old(Rest()), width)
              case Ok((n, rest)) => r == Ok(n) && Rest() == rest
              case Err(e) => r == Err(e) && position == old(position)
    {
      if width > Remaining() {
        return Err(Corruption(TruncatedPayload));
      }
      ghost var field := data[position..position + width];
      assert Rest()[..width] == field;
      var bits, weight := 0, 1;
      for i := 0 to width
        invariant position == old(position)
        invariant bits == FromLe(field[..i]) && weight == Pow256(i)
      {
        FromLeSnoc(field[..i], field[i]);
        assert field[..i + 1] == field[..i] + [field[i]];
        bits := bits + data[position + i] as nat * weight;
        weight := 256 * weight;
      }
      assert field[..width] == field;
      position := position + width;
      r := Ok(bits);
    }

    method Bytes(count: nat) returns (r: Result<Blob>)
      requires Valid()
      modifies this
      ensures Valid()
      ensures count <= |old(Rest())| ==> r == Ok(old(Rest())[..count]) && Rest() == old(Rest())[count..]
      ensures count > |old(Rest())| ==> r == Err(Corruption(TruncatedPayload)) && position == old(position)
    {
      if count > Remaining() {
        return Err(Corruption(TruncatedPayload));
      }
      assert Rest()[..count] == data[position..position + count];
      r := Ok(data[position..position + count]);
      position := position + count;
    }

    method String() returns (r: Result<Blob>)
      requires Valid()
      modifies this
      ensures Valid()
      ensures match ReadString(old(Rest()))
              case Ok((s, rest)) => r == Ok(s) && Rest() == rest
              case Err(e) => r == Err(e)
    {
      var count := Scalar(8);
      if count.Err? {
        return Err(count.error);
      }
      if count.value > Remaining() {
        return Err(Corruption(LengthExceedsPayload));
      }
      r := Bytes(count.value);
    }
  }
}
