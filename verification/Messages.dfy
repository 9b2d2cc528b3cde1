/** The newline-delimited message protocol of the example sink and sender. */
module Messages {
  import opened Prelude
  import Wire

  const NEWLINE: byte := 10
  const MAX_MESSAGE_LEN: nat := 65536

  datatype ReadResult = Message(bytes: seq<byte>) | CleanEOF | Incomplete | TooLong | ReadFailed

  /** A buffered connection: the bytes still to come, then `end`. */
  class ByteReader {
    var data: seq<byte>
    const end: Wire.End

    constructor (data: seq<byte>, end: Wire.End)
      ensures this.data == data && this.end == end
    {
      this.data, this.end := data, end;
    }

    method ReadByte() returns (b: Option<byte>)
      modifies this
      ensures old(data) == [] ==> b == None && data == []
      ensures old(data) != [] ==> b == Some(old(data)[0]) && data == old(data)[1..]
    {
      if data == [] {
        return None;
      }
      b := Some(data[0]);
      data := data[1..];
    }
  }

  /** Position of the first newline, or the length when there is none. */
  function LineEnd(s: seq<byte>): (n: nat)
    ensures n <= |s| && (forall i :: 0 <= i < n ==> s[i] != NEWLINE) && (n < |s| ==> s[n] == NEWLINE)
  {
    if s == [] || s[0] == NEWLINE then 0 else 1 + LineEnd(s[1..])
  }

  predicate HasLine(s: seq<byte>) {
    LineEnd(s) < |s| && LineEnd(s) <= MAX_MESSAGE_LEN
  }

  /** What reading one message from a stream must yield, and leave. */
  function ReadOne(s: seq<byte>, end: Wire.End): (ReadResult, seq<byte>) {
    var n := LineEnd(s);
    if HasLine(s) then (Message(s[..n]), s[n + 1..])
    else if |s| > MAX_MESSAGE_LEN then (TooLong, s[MAX_MESSAGE_LEN + 1..])
    else (if s != [] then Incomplete else if end.EOF? then CleanEOF else ReadFailed, [])
  }

  /**
   What a reader may report of a stream `s`, leaving `rest`. A message ends at the first
   newline and fits; a line is too long once one byte more than fits was read without one.
   */
  predicate Reports(s: seq<byte>, end: Wire.End, res: ReadResult, rest: seq<byte>) {
    match res
    case Message(m) => s == m + [NEWLINE] + rest && NEWLINE !in m && |m| <= MAX_MESSAGE_LEN
    case TooLong => |s| > MAX_MESSAGE_LEN && NEWLINE !in s[..MAX_MESSAGE_LEN + 1] && rest == s[MAX_MESSAGE_LEN + 1..]
    case Incomplete => 0 < |s| <= MAX_MESSAGE_LEN && NEWLINE !in s && rest == []
    case CleanEOF => s == [] && end.EOF? && rest == []
    case ReadFailed => s == [] && !end.EOF? && rest == []
  }

  lemma ReadOneReports(s: seq<byte>, end: Wire.End)
    ensures Reports(s, end, ReadOne(s, end).0, ReadOne(s, end).1)
  {
    var n := LineEnd(s);
    if HasLine(s) {
      assert s == s[..n] + [NEWLINE] + s[n + 1..];
    } else if |s| > MAX_MESSAGE_LEN {
      assert n > MAX_MESSAGE_LEN;
    }
  }

  /** Nothing else can be reported. */
  lemma ReportsOne(s: seq<byte>, end: Wire.End, res: ReadResult, rest: seq<byte>)
    requires Reports(s, end, res, rest)
    ensures (res, rest) == ReadOne(s, end)
  {
    var n := LineEnd(s);
    if res.Message? {
      var m := res.bytes;
      assert s == m + [NEWLINE] + rest && s[|m|] == NEWLINE;
      assert forall i :: 0 <= i < |m| ==> s[i] == m[i] && s[i] in m;
      assert n == |m| && s[..n] == m && s[n + 1..] == rest;
    } else if res.TooLong? {
      var read := s[..MAX_MESSAGE_LEN + 1];
      assert forall i :: 0 <= i <= MAX_MESSAGE_LEN ==> read[i] in read && s[i] == read[i] && s[i] != NEWLINE;
    } else {
      assert forall i :: 0 <= i < |s| ==> s[i] in s && s[i] != NEWLINE;
    }
  }

  /** `buffered` is the largest the buffer ever was. */
  method ReadMessage(r: ByteReader) returns (res: ReadResult, buffered: nat)
    modifies r
    ensures Reports(old(r.data), r.end, res, r.data)
    ensures (res, r.data) == ReadOne(old(r.data), r.end)
    ensures buffered <= MAX_MESSAGE_LEN
  {
    var buf: seq<byte> := [];
    ghost var s := r.data;
    ReadOneReports(s, r.end);
    buffered := 0;
    while true
      invariant |buf| <= |s| && buf == s[..|buf|] && r.data == s[|buf|..]
      invariant |buf| <= LineEnd(s) && |buf| <= MAX_MESSAGE_LEN && buffered == |buf|
      decreases |r.data|
    {
      var b := r.ReadByte();
      if b.None? {
        if r.end.EOF? {
          return if buf == [] then CleanEOF else Incomplete, buffered;
        }
        return if buf == [] then ReadFailed else Incomplete, buffered;
      }
      assert b.value == s[|buf|];
      if b.value == NEWLINE {
        return Message(buf), buffered;
      }
      if |buf| >= MAX_MESSAGE_LEN {
        return TooLong, buffered;
      }
      buf := buf + [b.value];
      buffered := |buf|;
    }
  }

  // --------------------------------------------------------------------
  // Serving a connection
  // --------------------------------------------------------------------

  /** Every message read before the first failure. */
  function Lines(s: seq<byte>): seq<seq<byte>>
    decreases |s|
  {
    if HasLine(s) then [s[..LineEnd(s)]] + Lines(s[LineEnd(s) + 1..]) else []
  }

  function Residue(s: seq<byte>): seq<byte>
    decreases |s|
  {
    if HasLine(s) then Residue(s[LineEnd(s) + 1..]) else s
  }

  function Lengths(ms: seq<seq<byte>>): seq<nat> {
    seq(|ms|, i requires 0 <= i < |ms| => |ms[i]|)
  }

  /** Reading one message takes the first of the stream's messages, if there is one. */
  lemma LinesRead(s: seq<byte>, end: Wire.End)
    ensures var (res, rest) := ReadOne(s, end);
            if res.Message? then Lines(s) == [res.bytes] + Lines(rest) && |rest| < |s| else Lines(s) == []
  {
  }

  /** `acksAccepted` bounds how many acknowledgements the peer takes before a write fails. */
  method ServeConn(r: ByteReader, acksAccepted: Option<nat>)
    returns (handed: seq<seq<byte>>, acked: seq<nat>, buffered: nat)
    modifies r
    ensures acksAccepted.None? ==> handed == Lines(old(r.data)) && acked == Lengths(handed)
    ensures handed <= Lines(old(r.data)) && acked <= Lengths(handed) && |handed| - 1 <= |acked|
    ensures acksAccepted.Some? && |Lines(old(r.data))| <= acksAccepted.value ==>
              handed == Lines(old(r.data)) && acked == Lengths(handed)
    ensures acksAccepted.Some? && |Lines(old(r.data))| > acksAccepted.value ==>
              |acked| == acksAccepted.value && |handed| == acksAccepted.value + 1
    ensures buffered <= MAX_MESSAGE_LEN
  {
    hide Reports, ReadOne, Lines, LineEnd;
    handed, acked, buffered := [], [], 0;
    ghost var all := Lines(r.data);
    while true
      invariant all == handed + Lines(r.data) && acked == Lengths(handed)
      invariant acksAccepted.Some? ==> |handed| <= acksAccepted.value
      invariant buffered <= MAX_MESSAGE_LEN
      decreases |r.data|
    {
      LinesRead(r.data, r.end);
      var res, n := ReadMessage(r);
      buffered := if n > buffered then n else buffered;
      if !res.Message? {
        assert handed + [] == handed;
        return;
      }
      handed := handed + [res.bytes];
      if acksAccepted.Some? && |acked| >= acksAccepted.value {
        assert acked == Lengths(handed)[..|acked|];
        return;
      }
      acked := acked + [|res.bytes|];
    }
  }

  // --------------------------------------------------------------------
  // Sending
  // --------------------------------------------------------------------

  function Encode(m: seq<byte>): seq<byte> {
    m + [NEWLINE]
  }

  function EncodeAll(ms: seq<seq<byte>>): seq<byte> {
    if ms == [] then [] else Encode(ms[0]) + EncodeAll(ms[1..])
  }

  datatype SendResult = Acked(line: seq<byte>) | Oversized | WriteFailed | AckFailed(why: ReadResult)

  /** Too long a message is refused before anything is written. */
  method Send(w: Wire.Writer, r: ByteReader, message: seq<byte>) returns (res: SendResult)
    modifies w, r
    ensures |message| > MAX_MESSAGE_LEN ==> res == Oversized && w.out == old(w.out) && r.data == old(r.data)
    ensures |message| <= MAX_MESSAGE_LEN && !res.WriteFailed? ==> w.out == old(w.out) + Encode(message)
    ensures |message| <= MAX_MESSAGE_LEN ==>
              (res.WriteFailed? <==> old(w.budget).Some? && old(w.budget).value <= |message|)
    ensures |message| <= MAX_MESSAGE_LEN && res.WriteFailed? ==>
              w.out == old(w.out) + Encode(message)[..old(w.budget).value]
    ensures |message| <= MAX_MESSAGE_LEN && !res.WriteFailed? ==>
              var (got, rest) := ReadOne(old(r.data), r.end);
              r.data == rest && res == match got case Message(line) => Acked(line) case _ => AckFailed(got)
  {
    if |message| > MAX_MESSAGE_LEN {
      return Oversized;
    }
    hide Reports;
    var ok := w.Write(message + [NEWLINE]);
    if !ok {
      return WriteFailed;
    }
    var line, _ := ReadMessage(r);
    match line
    case Message(bytes) => return Acked(bytes);
    case _ => return AckFailed(line);
  }

  predicate Fits(m: seq<byte>) {
    NEWLINE !in m && |m| <= MAX_MESSAGE_LEN
  }

  lemma {:induction false} LineEndOf(m: seq<byte>, rest: seq<byte>)
    requires NEWLINE !in m
    ensures LineEnd(Encode(m) + rest) == |m|
  {
    var s := Encode(m) + rest;
    assert s[|m|] == NEWLINE;
    assert forall i :: 0 <= i < |m| ==> s[i] == m[i] && s[i] in m;
    var n := LineEnd(s);
  }

  lemma LinesStep(m: seq<byte>, rest: seq<byte>)
    requires Fits(m)
    ensures Lines(Encode(m) + rest) == [m] + Lines(rest) && Residue(Encode(m) + rest) == Residue(rest)
  {
    var s := Encode(m) + rest;
    LineEndOf(m, rest);
    hide LineEnd;
    assert s[..|m|] == m && s[|m| + 1..] == rest;
  }

  /** What a stream hands over is determined by any split into fitting messages and a rest with no line. */
  lemma {:induction false} SplitIsUnique(ms: seq<seq<byte>>, residue: seq<byte>)
    requires (forall m :: m in ms ==> Fits(m)) && !HasLine(residue)
    ensures Lines(EncodeAll(ms) + residue) == ms && Residue(EncodeAll(ms) + residue) == residue
    decreases ms
  {
    hide LineEnd;
    if ms == [] {
      assert EncodeAll(ms) + residue == residue;
    } else {
      var rest := EncodeAll(ms[1..]) + residue;
      assert EncodeAll(ms) + residue == Encode(ms[0]) + rest && ms[0] in ms;
      SplitIsUnique(ms[1..], residue);
      hide *;
      LinesStep(ms[0], rest);
      assert [ms[0]] + ms[1..] == ms;
    }
  }

  lemma EncodeCons(m: seq<byte>, ms: seq<seq<byte>>)
    ensures EncodeAll([m] + ms) == Encode(m) + EncodeAll(ms)
  {
    assert ([m] + ms)[1..] == ms;
  }

  lemma Reassemble(m: seq<byte>, ms: seq<seq<byte>>, residue: seq<byte>)
    ensures EncodeAll([m] + ms) + residue == Encode(m) + (EncodeAll(ms) + residue)
  {
    EncodeCons(m, ms);
  }

  /** And every stream has such a split: nothing is lost, reordered or invented. */
  lemma {:induction false} EveryStreamSplits(s: seq<byte>)
    ensures s == EncodeAll(Lines(s)) + Residue(s)
    ensures (forall m :: m in Lines(s) ==> Fits(m)) && !HasLine(Residue(s))
    decreases |s|
  {
    hide LineEnd;
    if HasLine(s) {
      var n := LineEnd(s);
      var m, tail := s[..n], s[n + 1..];
      assert Fits(m) && s == Encode(m) + tail;
      assert Lines(s) == [m] + Lines(tail) && Residue(s) == Residue(tail);
      hide *;
      EveryStreamSplits(tail);
      Reassemble(m, Lines(tail), Residue(tail));
    } else {
      assert EncodeAll([]) + s == s;
    }
  }

  /** Messages sent one after another are handed over as that list. */
  lemma SendThenServe(ms: seq<seq<byte>>)
    requires forall m :: m in ms ==> Fits(m)
    ensures Lines(EncodeAll(ms)) == ms
  {
    assert EncodeAll(ms) + [] == EncodeAll(ms);
    SplitIsUnique(ms, []);
  }
}
