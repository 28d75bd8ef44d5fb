/** CIP Message Router requests and responses (protocol/ethernetip/cip/message.go). */
module CipMessage {
  import opened Bytes
  import opened ByteReader
  import opened Wrappers

  datatype Request = Request(service: u8, path: seq<u8>, data: seq<u8>)

  /** The path length in 16-bit words, rounded up and cut to a byte. */
  function LenWords(path: seq<u8>): u8 { (|path| + 1) / 2 % 0x100 }

  function RequestBytes(r: Request): seq<u8> {
    [r.service, LenWords(r.path)] + r.path + r.data
  }

  function ParseRequest(b: seq<u8>): Option<Request> {
    if |b| < 3 then None
    else
      var n := 2 * (b[1] as int);
      Some(Request(b[0], Filled(b[2..], n), b[Min(2 + n, |b|)..]))
  }

  method EncodeRequest(r: Request) returns (buf: seq<u8>)
    ensures buf == RequestBytes(r)
  {
    buf := [r.service];
    buf := buf + [LenWords(r.path)];
    buf := buf + r.path;
    if |r.data| > 0 {
      buf := buf + r.data;
    }
  }

  method DecodeRequest(b: seq<u8>) returns (r: Option<Request>)
    ensures r == ParseRequest(b)
  {
    var rd := new Reader(b);
    var service := rd.ReadU8();
    if service.None? {
      return None;
    }
    var words := rd.ReadU8();
    if words.None? {
      return None;
    }
    var path := rd.ReadSome(2 * (words.value as int));
    if path.None? {
      return None;
    }
    return Some(Request(service.value, path.value, b[rd.pos..]));
  }

  /** A request survives exactly when its path is a whole number of words, at most 255 of
      them, and path and data are not both empty. */
  ghost predicate Sendable(r: Request) {
    |r.path| % 2 == 0 && |r.path| <= 510 && (r.path != [] || r.data != [])
  }

  lemma RequestRoundTrip(r: Request)
    ensures ParseRequest(RequestBytes(r)) == Some(r) <==> Sendable(r)
  {
    var b := RequestBytes(r);
    var n := 2 * (b[1] as int);
    assert b[2..] == r.path + r.data;
    if Sendable(r) {
      WordCount(|r.path|);
      assert n == |r.path|;
      assert Filled(b[2..], n) == r.path;
      assert b[2 + n..] == r.data;
    } else if |b| >= 3 {
      assert |Filled(b[2..], n)| == n;
      if |r.path| == n { WordCountInverse(|r.path|); }
    }
  }

  lemma WordCount(n: nat)
    requires n % 2 == 0 && n <= 510
    ensures 2 * ((n + 1) / 2 % 0x100) == n
  {
  }

  lemma WordCountInverse(n: nat)
    requires 2 * ((n + 1) / 2 % 0x100) == n
    ensures n % 2 == 0 && n <= 510
  {
  }

  /** Whatever is decoded is no longer than its bytes and a full path. */
  lemma ParsedSize(b: seq<u8>)
    requires ParseRequest(b).Some?
    ensures var r := ParseRequest(b).value; 2 + |r.path| + |r.data| <= |b| + 510
  {
  }

  /** extSize is a field of its own in the source, not derived from ext. */
  datatype Response = Response(service: u8, reserved: u8, status: u8, extSize: u8, ext: seq<u16>, data: seq<u8>)

  function Words(ext: seq<u16>): seq<u8> {
    if ext == [] then [] else PutLE16(ext[0]) + Words(ext[1..])
  }

  function WordsAt(b: seq<u8>, n: nat): seq<u16>
    requires 2 * n <= |b|
  {
    if n == 0 then [] else [GetLE16(b, 0)] + WordsAt(b[2..], n - 1)
  }

  function ResponseBytes(r: Response): seq<u8> {
    [r.service, r.reserved, r.status, r.extSize] + Words(r.ext) + r.data
  }

  function ParseResponse(b: seq<u8>): Option<Response> {
    if |b| < 4 then None
    else
      var n: int := b[3];
      if |b| < 4 + 2 * n then None
      else Some(Response(b[0], b[1], b[2], b[3], WordsAt(b[4..], n), b[4 + 2 * n..]))
  }

  method EncodeResponse(r: Response) returns (buf: seq<u8>)
    ensures buf == ResponseBytes(r)
  {
    buf := [r.service, r.reserved, r.status, r.extSize];
    ghost var head := buf;
    for i := 0 to |r.ext|
      invariant buf == head + Words(r.ext[..i])
    {
      WordsSnoc(r.ext[..i], r.ext[i]);
      assert r.ext[..i] + [r.ext[i]] == r.ext[..i + 1];
      buf := buf + PutLE16(r.ext[i]);
    }
    assert r.ext[..|r.ext|] == r.ext;
    buf := buf + r.data;
  }

  method DecodeResponse(b: seq<u8>) returns (r: Option<Response>)
    ensures r == ParseResponse(b)
  {
    if |b| < 4 {
      return None;
    }
    var rd := new Reader(b[4..]);
    var ext: seq<u16> := [];
    var n: int := b[3];
    for i := 0 to n
      invariant rd.pos == 2 * i <= |b| - 4
      invariant ext == WordsAt(b[4..], i)
    {
      var w := rd.ReadU16();
      if w.None? {
        return None;
      }
      WordsAtSnoc(b[4..], i);
      ext := ext + [w.value];
    }
    assert b[4..][2 * n..] == b[4 + 2 * n..];
    return Some(Response(b[0], b[1], b[2], b[3], ext, rd.data[rd.pos..]));
  }

  lemma {:induction false} WordsSnoc(ext: seq<u16>, w: u16)
    ensures Words(ext + [w]) == Words(ext) + PutLE16(w)
  {
    if ext == [] {
      assert Words([w]) == PutLE16(w) + Words([]);
    } else {
      WordsSnoc(ext[1..], w);
      assert (ext + [w])[1..] == ext[1..] + [w];
    }
  }

  lemma {:induction false} WordsAtSnoc(b: seq<u8>, n: nat)
    requires 2 * n + 2 <= |b|
    ensures WordsAt(b, n + 1) == WordsAt(b, n) + [GetLE16(b, 2 * n)]
    decreases n
  {
    if n > 0 {
      WordsAtSnoc(b[2..], n - 1);
    }
  }

  lemma {:induction false} WordsSize(ext: seq<u16>)
    ensures |Words(ext)| == 2 * |ext|
  {
    if ext != [] { WordsSize(ext[1..]); }
  }

  lemma {:induction false} WordsRoundTrip(ext: seq<u16>, rest: seq<u8>)
    ensures |Words(ext)| == 2 * |ext|
    ensures WordsAt(Words(ext) + rest, |ext|) == ext
    decreases |ext|
  {
    if ext != [] {
      WordsRoundTrip(ext[1..], rest);
      assert (Words(ext) + rest)[2..] == Words(ext[1..]) + rest;
    }
  }

  lemma {:induction false} WordsAtSize(b: seq<u8>, n: nat)
    requires 2 * n <= |b|
    ensures |WordsAt(b, n)| == n
    decreases n
  {
    if n > 0 { WordsAtSize(b[2..], n - 1); }
  }

  /** A response survives exactly when its size field counts its extended status words. */
  lemma ResponseRoundTrip(r: Response)
    ensures ParseResponse(ResponseBytes(r)) == Some(r) <==> r.extSize == |r.ext|
  {
    var b := ResponseBytes(r);
    WordsRoundTrip(r.ext, r.data);
    assert b[4..] == Words(r.ext) + r.data;
    if r.extSize == |r.ext| {
      assert b[4 + 2 * |r.ext|..] == r.data;
    } else if ParseResponse(b).Some? {
      WordsAtSize(b[4..], b[3]);
    }
  }

  lemma ParsedResponseSize(b: seq<u8>)
    requires ParseResponse(b).Some?
    ensures |ResponseBytes(ParseResponse(b).value)| == |b|
  {
    WordsAtSize(b[4..], b[3]);
    WordsSize(ParseResponse(b).value.ext);
  }
}
