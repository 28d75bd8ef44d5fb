/** Go's bytes.Reader with little-endian binary.Read, as the EtherNet/IP decoders use it. */
module ByteReader {
  import opened Bytes
  import opened Wrappers

  /** The next n bytes, zero-filled where the input is shorter. */
  function Filled(b: seq<u8>, n: nat): (r: seq<u8>)
    ensures |r| == n
  {
    seq(n, i requires 0 <= i < n => if i < |b| then b[i] else 0)
  }

  function Min(a: nat, b: nat): nat { if a < b then a else b }

  class Reader {
    const data: seq<u8>
    var pos: nat

    ghost predicate Valid()
      reads this
    {
      pos <= |data|
    }

    constructor (data: seq<u8>)
      ensures this.data == data && pos == 0
    {
      this.data, pos := data, 0;
    }

    method ReadU8() returns (r: Option<u8>)
      requires Valid()
      modifies this
      ensures Valid()
      ensures old(pos) + 1 <= |data| ==> r == Some(data[old(pos)]) && pos == old(pos) + 1
      ensures old(pos) + 1 > |data| ==> r == None
    {
      if pos + 1 > |data| {
        return None;
      }
      r := Some(data[pos]);
      pos := pos + 1;
    }

    method ReadU16() returns (r: Option<u16>)
      requires Valid()
      modifies this
      ensures Valid()
      ensures old(pos) + 2 <= |data| ==> r == Some(GetLE16(data, old(pos))) && pos == old(pos) + 2
      ensures old(pos) + 2 > |data| ==> r == None
    {
      if pos + 2 > |data| {
        pos := |data|;
        return None;
      }
      r := Some(GetLE16(data, pos));
      pos := pos + 2;
    }

    method ReadU32() returns (r: Option<u32>)
      requires Valid()
      modifies this
      ensures Valid()
      ensures old(pos) + 4 <= |data| ==> r == Some(GetLE32(data, old(pos))) && pos == old(pos) + 4
      ensures old(pos) + 4 > |data| ==> r == None
    {
      if pos + 4 > |data| {
        pos := |data|;
        return None;
      }
      r := Some(GetLE32(data, pos));
      pos := pos + 4;
    }

    /** io.ReadFull: n bytes or an error. */
    method ReadFull(n: nat) returns (r: Option<seq<u8>>)
      requires Valid()
      modifies this
      ensures Valid()
      ensures old(pos) + n <= |data| ==> r == Some(data[old(pos)..old(pos) + n]) && pos == old(pos) + n
      ensures old(pos) + n > |data| ==> r == None
    {
      if pos + n > |data| {
        pos := |data|;
        return None;
      }
      r := Some(data[pos..pos + n]);
      pos := pos + n;
    }

    /** Reader.Read into a zeroed buffer of n bytes: an error at the end of the input, even
        for n == 0; otherwise whatever is there, the rest of the buffer staying zero. */
    method ReadSome(n: nat) returns (r: Option<seq<u8>>)
      requires Valid()
      modifies this
      ensures Valid()
      ensures old(pos) < |data| ==> r == Some(Filled(data[old(pos)..], n)) && pos == Min(old(pos) + n, |data|)
      ensures old(pos) == |data| ==> r == None
    {
      if pos >= |data| {
        return None;
      }
      var buf := new u8[n](_ => 0);
      var i := 0;
      while i < n && pos + i < |data|
        invariant i <= n && pos + i <= |data| && pos == old(pos)
        invariant forall j | 0 <= j < i :: buf[j] == data[pos + j]
        invariant forall j | i <= j < n :: buf[j] == 0
      {
        buf[i] := data[pos + i];
        i := i + 1;
      }
      assert buf[..] == Filled(data[pos..], n);
      pos := pos + i;
      return Some(buf[..]);
    }
  }
}
