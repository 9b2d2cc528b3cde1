/**
 The hello exchange on the wire: frames, and reading them from a stream that
 arrives in any chunks and ends in any way.
 */
module Wire {
  import opened Prelude

  const FRAME_VERSION: byte := 1
  const MAX_NAME_LEN := 63

  predicate NameStart(c: char) {
    'a' <= c <= 'z' || '0' <= c <= '9'
  }

  predicate NameRest(c: char) {
    NameStart(c) || c == '-'
  }

  predicate ValidServiceName(name: string) {
    1 <= |name| <= MAX_NAME_LEN && NameStart(name[0]) && forall i :: 1 <= i < |name| ==> NameRest(name[i])
  }

  // --------------------------------------------------------------------
  // Streams
  // --------------------------------------------------------------------

  datatype End = EOF | Failed

  function Flatten(chunks: seq<seq<byte>>): seq<byte> {
    if chunks == [] then [] else chunks[0] + Flatten(chunks[1..])
  }

  /** A connection's input: chunks still to come, empty ones included, then `end`. */
  class Reader {
    var chunks: seq<seq<byte>>
    const end: End

    constructor (chunks: seq<seq<byte>>, end: End)
      ensures this.chunks == chunks && this.end == end
    {
      this.chunks, this.end := chunks, end;
    }

    function Rest(): seq<byte>
      reads this
    {
      Flatten(chunks)
    }

    /** One read: at most `max` bytes of the next chunk; `eager` reports the end with the last bytes. */
    method Read(max: nat, eager: bool) returns (data: seq<byte>, err: Option<End>)
      requires max > 0
      modifies this
      ensures |data| <= max && old(Rest()) == data + Rest()
      ensures err.Some? ==> err.value == end && Rest() == []
      ensures err.None? ==> data != [] || |chunks| < old(|chunks|)
    {
      if chunks == [] {
        return [], Some(end);
      }
      var c := chunks[0];
      if |c| <= max {
        chunks := chunks[1..];
        if eager && chunks == [] {
          assert Flatten([c]) == c + Flatten([]);
          return c, Some(end);
        }
        return c, None;
      }
      chunks := [c[max..]] + chunks[1..];
      assert c == c[..max] + c[max..];
      return c[..max], None;
    }
  }

  datatype FullRead = Full(data: seq<byte>) | Short(data: seq<byte>, end: End)

  function TakeFull(stream: seq<byte>, end: End, n: nat): FullRead {
    if |stream| >= n then Full(stream[..n]) else Short(stream, end)
  }

  /** Reads until `n` bytes have arrived or the stream ends; never reads past them. */
  method ReadFull(r: Reader, n: nat, eager: bool) returns (res: FullRead)
    modifies r
    ensures res == TakeFull(old(r.Rest()), r.end, n)
    ensures r.Rest() == if |old(r.Rest())| >= n then old(r.Rest())[n..] else []
  {
    var buf: seq<byte> := [];
    var err: Option<End> := None;
    ghost var stream := r.Rest();
    while |buf| < n && err.None?
      invariant |buf| <= n && stream == buf + r.Rest()
      invariant err.Some? ==> r.Rest() == []
      decreases err.None?, n - |buf|, |r.chunks|
    {
      var data, e := r.Read(n - |buf|, eager);
      buf, err := buf + data, e;
    }
    return if |buf| >= n then Full(buf) else Short(buf, r.end);
  }

  /** A connection's output, and how many more bytes it accepts before failing. */
  class Writer {
    var out: seq<byte>
    var budget: Option<nat>

    constructor (budget: Option<nat>)
      ensures out == [] && this.budget == budget
    {
      out, this.budget := [], budget;
    }

    method Write(data: seq<byte>) returns (ok: bool)
      modifies this
      ensures ok <==> old(budget).None? || |data| <= old(budget).value
      ensures out == old(out) + if ok then data else data[..old(budget).value]
    {
      match budget
      case None =>
        out := out + data;
        return true;
      case Some(n) =>
        if |data| <= n {
          out, budget := out + data, Some(n - |data|);
          return true;
        }
        out, budget := out + data[..n], Some(0);
        return false;
    }
  }

  // --------------------------------------------------------------------
  // Requests
  // --------------------------------------------------------------------

  datatype Parsed<+T> = Got(value: T) | Malformed | IOError

  /** A byte string and the text it spells, one character per byte. */
  function Text(bs: seq<byte>): string {
    seq(|bs|, i requires 0 <= i < |bs| => bs[i] as char)
  }

  function Bytes(name: string): (bs: seq<byte>)
    requires ValidServiceName(name)
    ensures |bs| == |name| && Text(bs) == name
  {
    seq(|name|, i requires 0 <= i < |name| => (assert i > 0 ==> NameRest(name[i]); name[i] as int))
  }

  function EncodeRequest(name: string): seq<byte>
    requires ValidServiceName(name)
  {
    [FRAME_VERSION, |name|] + Bytes(name)
  }

  /** What the reader makes of a stream, and what it leaves unread. */
  function ParseRequest(stream: seq<byte>): (Parsed<string>, seq<byte>) {
    if |stream| < 2 then (IOError, [])
    else if stream[0] != FRAME_VERSION then (Malformed, stream[2..])
    else if stream[1] == 0 || stream[1] > MAX_NAME_LEN then (Malformed, stream[2..])
    else if |stream| < 2 + stream[1] then (Malformed, [])
    else
      var name := Text(stream[2..2 + stream[1]]);
      (if ValidServiceName(name) then Got(name) else Malformed, stream[2 + stream[1]..])
  }

  method WriteHelloRequest(w: Writer, name: string) returns (ok: bool)
    modifies w
    ensures !ValidServiceName(name) ==> !ok && w.out == old(w.out)
    ensures ValidServiceName(name) ==> (ok <==> old(w.budget).None? || |EncodeRequest(name)| <= old(w.budget).value)
    ensures ValidServiceName(name) ==>
              w.out == old(w.out) + if ok then EncodeRequest(name) else EncodeRequest(name)[..old(w.budget).value]
  {
    if !ValidServiceName(name) {
      return false;
    }
    var frame: seq<byte> := [FRAME_VERSION, |name|];
    frame := frame + Bytes(name);
    ok := w.Write(frame);
  }

  method ReadHelloRequest(r: Reader, eager: bool) returns (res: Parsed<string>)
    modifies r
    ensures (res, r.Rest()) == ParseRequest(old(r.Rest()))
  {
    hide ValidServiceName, Text, Flatten;
    ghost var stream := r.Rest();
    var head := ReadFull(r, 2, eager);
    if head.Short? {
      return IOError;
    }
    if head.data[0] != FRAME_VERSION {
      return Malformed;
    }
    var n := head.data[1];
    if n == 0 || n > MAX_NAME_LEN {
      return Malformed;
    }
    var body := ReadFull(r, n, eager);
    if body.Short? {
      return Malformed;
    }
    assert stream[2..][..n] == stream[2..2 + n] && stream[2..][n..] == stream[2 + n..];
    var name := Text(body.data);
    if !ValidServiceName(name) {
      return Malformed;
    }
    return Got(name);
  }

  lemma TextInjective(a: seq<byte>, b: seq<byte>)
    requires Text(a) == Text(b)
    ensures a == b
  {
    assert |a| == |Text(a)| && |b| == |Text(b)|;
    forall i | 0 <= i < |a| ensures a[i] == b[i] {
      assert Text(a)[i] == Text(b)[i];
    }
  }

  /** A name is read, leaving `rest`, exactly when the stream is its encoding followed by `rest`. */
  lemma RequestExact(stream: seq<byte>, name: string, rest: seq<byte>)
    ensures ParseRequest(stream) == (Got(name), rest) <==>
              ValidServiceName(name) && stream == EncodeRequest(name) + rest
  {
    if ValidServiceName(name) && stream == EncodeRequest(name) + rest {
      assert stream[2..2 + |name|] == Bytes(name) && stream[2 + |name|..] == rest;
    }
    if ParseRequest(stream) == (Got(name), rest) {
      var n := stream[1];
      TextInjective(Bytes(name), stream[2..2 + n]);
      assert stream == stream[..2] + stream[2..2 + n] + stream[2 + n..];
      assert stream[..2] == [FRAME_VERSION, |name|];
    }
  }

  /** With a full header every failure is malformed, and only then. */
  lemma HeaderDecides(stream: seq<byte>)
    ensures ParseRequest(stream).0.IOError? <==> |stream| < 2
    ensures ParseRequest(stream).0.Malformed? <==>
              |stream| >= 2 && forall name, rest :: ValidServiceName(name) ==> stream != EncodeRequest(name) + rest
  {
    var (res, left) := ParseRequest(stream);
    if res.Got? {
      RequestExact(stream, res.value, left);
    }
    forall name, rest | ValidServiceName(name) && stream == EncodeRequest(name) + rest ensures res.Got? {
      RequestExact(stream, name, rest);
    }
  }

  // --------------------------------------------------------------------
  // Responses
  // --------------------------------------------------------------------

  const STATUS_OK: byte := 0
  const STATUS_DENIED: byte := 1
  const STATUS_BACKEND_UNAVAILABLE: byte := 2
  const STATUS_RATE_LIMITED: byte := 3
  const STATUS_MALFORMED: byte := 4

  predicate ValidStatus(s: byte) {
    s in {STATUS_OK, STATUS_DENIED, STATUS_BACKEND_UNAVAILABLE, STATUS_RATE_LIMITED, STATUS_MALFORMED}
  }

  function ParseResponse(stream: seq<byte>): (Parsed<byte>, seq<byte>) {
    if |stream| < 2 then (IOError, [])
    else (if stream[0] == FRAME_VERSION && ValidStatus(stream[1]) then Got(stream[1]) else Malformed, stream[2..])
  }

  method WriteHelloResponse(w: Writer, status: byte) returns (ok: bool)
    modifies w
    ensures !ValidStatus(status) ==> !ok && w.out == old(w.out)
    ensures ValidStatus(status) ==> (ok <==> old(w.budget).None? || 2 <= old(w.budget).value)
    ensures ValidStatus(status) ==>
              w.out == old(w.out) + if ok then [FRAME_VERSION, status]
                else [FRAME_VERSION, status][..old(w.budget).value]
  {
    if !ValidStatus(status) {
      return false;
    }
    ok := w.Write([FRAME_VERSION, status]);
  }

  method ReadHelloResponse(r: Reader, eager: bool) returns (res: Parsed<byte>)
    modifies r
    ensures (res, r.Rest()) == ParseResponse(old(r.Rest()))
  {
    var frame := ReadFull(r, 2, eager);
    if frame.Short? {
      return IOError;
    }
    if frame.data[0] != FRAME_VERSION {
      return Malformed;
    }
    if !ValidStatus(frame.data[1]) {
      return Malformed;
    }
    return Got(frame.data[1]);
  }

  /** A status is read back exactly when it is one of the five and was written in a frame. */
  lemma ResponseExact(stream: seq<byte>, status: byte, rest: seq<byte>)
    ensures ParseResponse(stream) == (Got(status), rest) <==> status < 5 && stream == [FRAME_VERSION, status] + rest
  {
    if ParseResponse(stream) == (Got(status), rest) {
      assert stream == [stream[0], stream[1]] + stream[2..];
    }
  }
}
