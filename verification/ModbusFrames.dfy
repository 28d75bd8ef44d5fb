/** Modbus TCP framing (protocol/modbus/mbap.go, request.go, response.go): the 7-byte
    MBAP header, then function code and data. Requests and responses share the layout. */
module ModbusFrames {
  import opened Bytes

  datatype Adu = Adu(tid: u16, proto: u16, unit: u8, fc: u8, data: seq<u8>)

  /** The longest data part whose length field does not wrap. */
  const MAX_DATA: nat := 0xFFFD

  function Wire(a: Adu): seq<u8> {
    PutBE16(a.tid) + PutBE16(a.proto) + PutBE16((2 + |a.data|) % 0x1_0000) + [a.unit, a.fc] + a.data
  }

  /** A complete frame stands at the head of b. */
  predicate Framed(b: seq<u8>) {
    |b| >= 8 && GetBE16(b, 4) >= 2 && 6 + GetBE16(b, 4) <= |b|
  }

  function Unwire(b: seq<u8>): Adu
    requires Framed(b)
  {
    Adu(GetBE16(b, 0), GetBE16(b, 2), b[6], b[7], b[8..6 + GetBE16(b, 4)])
  }

  lemma WireFields(a: Adu, rest: seq<u8>)
    ensures var b := Wire(a) + rest;
      |b| >= 8 && GetBE16(b, 0) == a.tid && GetBE16(b, 2) == a.proto && GetBE16(b, 4) == (2 + |a.data|) % 0x1_0000
      && b[6] == a.unit && b[7] == a.fc && b[8..8 + |a.data|] == a.data
  {
  }

  /** Framing is lossless exactly up to 65533 data bytes, whatever follows on the wire. */
  lemma FrameRoundTrip(a: Adu, rest: seq<u8>)
    ensures Framed(Wire(a) + rest) && Unwire(Wire(a) + rest) == a <==> |a.data| <= MAX_DATA
  {
  }

  /** What is decoded is what stands on the wire: the frame re-encodes to its own bytes. */
  lemma DecodedIsPrefix(b: seq<u8>)
    requires Framed(b)
    ensures |Unwire(b).data| <= MAX_DATA
    ensures Wire(Unwire(b)) == b[..6 + GetBE16(b, 4)]
  {
    var w, c := Wire(Unwire(b)), b[..6 + GetBE16(b, 4)];
    assert |w| == |c|;
    forall i | 0 <= i < |w| ensures w[i] == c[i] {
      if i < 8 { HeaderByte(b, i); }
    }
  }

  lemma HeaderByte(b: seq<u8>, i: nat)
    requires Framed(b) && i < 8
    ensures Wire(Unwire(b))[i] == b[i]
  {
  }

  datatype Status = Decoded | TooShort | Eof | BadLength

  /** A Request or Response object. */
  class Message {
    var transactionID: u16
    var protocolID: u16
    var unitID: u8
    var functionCode: u8
    var data: seq<u8>

    function Value(): Adu
      reads this
    {
      Adu(transactionID, protocolID, unitID, functionCode, data)
    }

    /** NewRequest and NewResponse: protocol identifier 0. */
    constructor (tid: u16, unit: u8, fc: u8, data: seq<u8>)
      ensures Value() == Adu(tid, 0, unit, fc, data)
    {
      transactionID, protocolID, unitID, functionCode, this.data := tid, 0, unit, fc, data;
    }

    method EncodeHeader(pduLength: nat) returns (buf: seq<u8>)
      ensures buf == PutBE16(transactionID) + PutBE16(protocolID) + PutBE16((1 + pduLength) % 0x1_0000) + [unitID]
    {
      var length: u16 := (1 + pduLength) % 0x1_0000;
      buf := PutBE16(transactionID);
      buf := buf + PutBE16(protocolID);
      buf := buf + PutBE16(length);
      buf := buf + [unitID];
    }

    method Encode() returns (buf: seq<u8>)
      ensures buf == Wire(Value())
    {
      buf := EncodeHeader(1 + |data|);
      buf := buf + [functionCode];
      buf := buf + data;
    }

    /** Decode succeeds exactly on a framed input and then holds that frame. On failure
        the header fields may already be overwritten; the PDU never is. */
    method Decode(b: seq<u8>) returns (st: Status)
      modifies this
      ensures st.Decoded? <==> Framed(b)
      ensures st.Decoded? ==> Value() == Unwire(b)
      ensures st.TooShort? <==> |b| < 7
      ensures st.BadLength? <==> |b| >= 8 && GetBE16(b, 4) < 2
      ensures !st.Decoded? ==> functionCode == old(functionCode) && data == old(data)
      ensures |b| < 7 ==> Value() == old(Value())
    {
      if |b| < 7 {
        return TooShort;
      }
      transactionID := GetBE16(b, 0);
      protocolID := GetBE16(b, 2);
      var length := GetBE16(b, 4);
      unitID := b[6];
      if |b| == 7 {
        return Eof;
      }
      if length < 2 {
        return BadLength;
      }
      if 8 + (length - 2) > |b| {
        return Eof;
      }
      functionCode, data := b[7], b[8..8 + (length - 2)];
      return Decoded;
    }
  }

  /** Frames laid end to end. */
  function WireAll(frames: seq<Adu>): seq<u8> {
    if frames == [] then [] else Wire(frames[0]) + WireAll(frames[1..])
  }

  /** Cuts leading frames off a byte stream until none is complete. */
  function SplitFrames(b: seq<u8>): seq<Adu>
    decreases |b|
  {
    if Framed(b) then [Unwire(b)] + SplitFrames(b[6 + GetBE16(b, 4)..]) else []
  }

  /** A frame at the head of a stream is cut off exactly. */
  lemma CutFirst(a: Adu, rest: seq<u8>)
    requires |a.data| <= MAX_DATA
    ensures var b := Wire(a) + rest; Framed(b) && Unwire(b) == a && b[6 + GetBE16(b, 4)..] == rest
    ensures GetBE16(Wire(a) + rest, 2) == a.proto
  {
    FrameRoundTrip(a, rest);
    WireFields(a, rest);
    assert (Wire(a) + rest)[8 + |a.data|..] == rest;
  }

  /** A stream of whole frames splits into exactly those frames. */
  lemma {:induction false} StreamRoundTrip(frames: seq<Adu>)
    requires forall i | 0 <= i < |frames| :: |frames[i].data| <= MAX_DATA
    ensures SplitFrames(WireAll(frames)) == frames
    decreases |frames|
  {
    if frames != [] {
      CutFirst(frames[0], WireAll(frames[1..]));
      StreamRoundTrip(frames[1..]);
      assert [frames[0]] + frames[1..] == frames;
    }
  }
}
