/**
 One proxied connection, byte by byte: the application, its client, the
 handler, the two copies and the backend, over four byte streams.

 A stream delivers in order, in chunks of any size. A write may be accepted
 only in part and then fails; a read may fail at any time. That is all that a
 close from any side can do to the bytes (watchdog, reload, shutdown, either
 end), so closes are not steps of their own here.
 */
module EndToEnd {
  import opened Prelude
  import opened Wire

  /** Everything written so far, and how much of it has been read. */
  datatype Stream = Stream(sent: seq<byte>, taken: nat)

  datatype Client =
    | Sending                     // about to write the request
    | AwaitingReply(got: seq<byte>)
    | Connected                   // Dial returned the connection
    | Refused                     // Dial returned an error

  datatype Handler =
    | Admitting
    | ReadingHead(got: seq<byte>)
    | ReadingName(head: seq<byte>, got: seq<byte>)
    | Resolving
    | Dialing
    | Rechecking
    | Responding
    | Clearing                    // deadlines to be cleared
    | Piping
    | Gone

  /** One io.Copy: `count` is what it returns, the bytes its destination accepted. */
  datatype Copy = Reading | Writing(chunk: seq<byte>) | Ended

  datatype Transfer = Transfer(copy: Copy, count: nat)

  datatype Log = Log(bytesSent: nat, bytesReceived: nat)

  /**
   `asked` is the name the handler read. `appSent` and `appGot` are what the
   application wrote to and read from the returned connection, `backendSent`
   and `backendGot` the same at the backend.
   */
  datatype State = State(client: Client, handler: Handler,
                         up: Stream, down: Stream, toBackend: Stream, fromBackend: Stream,
                         fromPeer: Transfer, toPeer: Transfer,
                         asked: Option<string>, passed: bool, wroteOK: bool, logged: Option<Log>,
                         appSent: seq<byte>, appGot: seq<byte>, backendSent: seq<byte>, backendGot: seq<byte>)

  /** `n` is how many bytes a read returns or a write gets accepted. */
  datatype Step =
    // Client and application.
    | RejectName | SendRequest(n: nat, ok: bool) | ReadReply(n: nat) | ReplyFails | JudgeReply
    | AppWrites(data: seq<byte>, n: nat) | AppReads(n: nat)
    // Handler.
    | Vanish | Refuse(status: byte, n: nat) | Admit
    | ReadHead(n: nat) | JudgeHead(n: nat) | ReadName(n: nat) | JudgeName(n: nat)
    | Grant | BackendUp | RecheckPasses | Respond(n: nat, ok: bool) | StartPipe | EndPipe
    // Copies.
    | UpReads(n: nat) | UpWrites(n: nat, ok: bool) | UpEnds
    | DownReads(n: nat) | DownWrites(n: nat, ok: bool) | DownEnds
    // Backend.
    | BackendWrites(data: seq<byte>) | BackendReads(n: nat)

  const IDLE := Transfer(Reading, 0)
  const EMPTY := Stream([], 0)
  const OK_FRAME: seq<byte> := [FRAME_VERSION, STATUS_OK]
  const START := State(Sending, Admitting, EMPTY, EMPTY, EMPTY, EMPTY, IDLE, IDLE,
                       None, false, false, None, [], [], [], [])

  predicate Has(s: Stream, n: nat) {
    s.taken + n <= |s.sent|
  }

  function Ahead(s: Stream, n: nat): seq<byte>
    requires Has(s, n)
  {
    s.sent[s.taken..s.taken + n]
  }

  function Take(s: Stream, n: nat): Stream {
    s.(taken := s.taken + n)
  }

  function Put(s: Stream, data: seq<byte>): Stream {
    s.(sent := s.sent + data)
  }

  /** A write of `data` that got `n` bytes accepted; a success took them all. */
  predicate Accepts(data: seq<byte>, n: nat, ok: bool) {
    n <= |data| && (ok ==> n == |data|)
  }

  /** Where the handler answers with which refusal: over its limits, malformed, denied, backend down. */
  predicate Refuses(h: Handler, status: byte) {
    match h
    case Admitting => status == STATUS_RATE_LIMITED
    case ReadingName(_, _) => status == STATUS_MALFORMED
    case Resolving => status == STATUS_DENIED
    case Dialing => status == STATUS_BACKEND_UNAVAILABLE
    case _ => false
  }

  predicate BackendDialled(h: Handler) {
    h.Rechecking? || h.Responding? || h.Clearing? || h.Piping? || h.Gone?
  }

  predicate Enabled(s: State, name: string, a: Step) {
    match a
    case RejectName => s.client.Sending? && !ValidServiceName(name)
    case SendRequest(n, ok) => s.client.Sending? && ValidServiceName(name) && Accepts(EncodeRequest(name), n, ok)
    case ReadReply(n) => s.client.AwaitingReply? && |s.client.got| + n <= 2 && Has(s.down, n)
    case ReplyFails => s.client.AwaitingReply?
    case JudgeReply => s.client.AwaitingReply? && |s.client.got| == 2
    case AppWrites(data, n) => s.client.Connected? && n <= |data|
    case AppReads(n) => s.client.Connected? && Has(s.down, n)
    // No limiter, a deadline that cannot be set, a header that never came, a failed re-check: silence.
    case Vanish => s.handler.Admitting? || s.handler.ReadingHead? || s.handler.Rechecking? || s.handler.Clearing?
    case Refuse(status, n) => Refuses(s.handler, status) && n <= 2
    case Admit => s.handler.Admitting?
    case ReadHead(n) => s.handler.ReadingHead? && |s.handler.got| + n <= 2 && Has(s.up, n)
    case JudgeHead(n) => s.handler.ReadingHead? && |s.handler.got| == 2 && n <= 2
    case ReadName(n) =>
      s.handler.ReadingName? && |s.handler.head| == 2 && |s.handler.got| + n <= s.handler.head[1] && Has(s.up, n)
    case JudgeName(n) =>
      s.handler.ReadingName? && |s.handler.head| == 2 && |s.handler.got| == s.handler.head[1] && n <= 2
    case Grant => s.handler.Resolving?
    case BackendUp => s.handler.Dialing?
    case RecheckPasses => s.handler.Rechecking?
    case Respond(n, ok) => s.handler.Responding? && Accepts(OK_FRAME, n, ok)
    case StartPipe => s.handler.Clearing?
    case EndPipe => s.handler.Piping? && s.fromPeer.copy.Ended? && s.toPeer.copy.Ended?
    case UpReads(n) => s.handler.Piping? && s.fromPeer.copy.Reading? && Has(s.up, n)
    case UpWrites(n, ok) => s.handler.Piping? && s.fromPeer.copy.Writing? && Accepts(s.fromPeer.copy.chunk, n, ok)
    case UpEnds => s.handler.Piping? && s.fromPeer.copy.Reading?
    case DownReads(n) => s.handler.Piping? && s.toPeer.copy.Reading? && Has(s.fromBackend, n)
    case DownWrites(n, ok) => s.handler.Piping? && s.toPeer.copy.Writing? && Accepts(s.toPeer.copy.chunk, n, ok)
    case DownEnds => s.handler.Piping? && s.toPeer.copy.Reading?
    // The backend may speak as soon as it is dialled, and after the handler has gone.
    case BackendWrites(_) => BackendDialled(s.handler)
    case BackendReads(n) => Has(s.toBackend, n)
  }

  /** Answers with a refusal, perhaps cut short, and returns. */
  function Answer(s: State, status: byte, n: nat): State
    requires n <= 2
  {
    s.(down := Put(s.down, [FRAME_VERSION, status][..n]), handler := Gone)
  }

  predicate HeadFits(head: seq<byte>)
    requires |head| == 2
  {
    head[0] == FRAME_VERSION && 1 <= head[1] <= MAX_NAME_LEN
  }

  function Next(s: State, name: string, a: Step): State
    requires Enabled(s, name, a)
  {
    match a
    case RejectName => s.(client := Refused)
    case SendRequest(n, ok) =>
      s.(up := Put(s.up, EncodeRequest(name)[..n]), client := if ok then AwaitingReply([]) else Refused)
    case ReadReply(n) => s.(client := AwaitingReply(s.client.got + Ahead(s.down, n)), down := Take(s.down, n))
    case ReplyFails => s.(client := Refused)
    case JudgeReply => s.(client := if ParseResponse(s.client.got).0 == Got(STATUS_OK) then Connected else Refused)
    case AppWrites(data, n) => s.(up := Put(s.up, data[..n]), appSent := s.appSent + data[..n])
    case AppReads(n) => s.(appGot := s.appGot + Ahead(s.down, n), down := Take(s.down, n))
    case Vanish => s.(handler := Gone)
    case Refuse(status, n) => Answer(s, status, n)
    case Admit => s.(handler := ReadingHead([]))
    case ReadHead(n) => s.(handler := ReadingHead(s.handler.got + Ahead(s.up, n)), up := Take(s.up, n))
    case JudgeHead(n) =>
      if HeadFits(s.handler.got) then s.(handler := ReadingName(s.handler.got, [])) else Answer(s, STATUS_MALFORMED, n)
    case ReadName(n) => s.(handler := ReadingName(s.handler.head, s.handler.got + Ahead(s.up, n)), up := Take(s.up, n))
    case JudgeName(n) =>
      if ValidServiceName(Text(s.handler.got)) then s.(handler := Resolving, asked := Some(Text(s.handler.got)))
      else Answer(s, STATUS_MALFORMED, n)
    case Grant => s.(handler := Dialing)
    case BackendUp => s.(handler := Rechecking)
    case RecheckPasses => s.(handler := Responding, passed := true)
    case Respond(n, ok) =>
      s.(down := Put(s.down, OK_FRAME[..n]), wroteOK := n == 2, handler := if ok then Clearing else Gone)
    case StartPipe => s.(handler := Piping)
    case EndPipe => s.(handler := Gone, logged := Some(Log(s.toPeer.count, s.fromPeer.count)))
    case UpReads(n) => s.(fromPeer := Transfer(Writing(Ahead(s.up, n)), s.fromPeer.count), up := Take(s.up, n))
    case UpWrites(n, ok) =>
      s.(toBackend := Put(s.toBackend, s.fromPeer.copy.chunk[..n]),
        fromPeer := Transfer(if ok then Reading else Ended, s.fromPeer.count + n))
    case UpEnds => s.(fromPeer := s.fromPeer.(copy := Ended))
    case DownReads(n) =>
      s.(toPeer := Transfer(Writing(Ahead(s.fromBackend, n)), s.toPeer.count), fromBackend := Take(s.fromBackend, n))
    case DownWrites(n, ok) =>
      s.(down := Put(s.down, s.toPeer.copy.chunk[..n]),
        toPeer := Transfer(if ok then Reading else Ended, s.toPeer.count + n))
    case DownEnds => s.(toPeer := s.toPeer.(copy := Ended))
    case BackendWrites(data) => s.(fromBackend := Put(s.fromBackend, data), backendSent := s.backendSent + data)
    case BackendReads(n) => s.(backendGot := s.backendGot + Ahead(s.toBackend, n), toBackend := Take(s.toBackend, n))
  }

  predicate Legal(s: State, name: string, run: seq<Step>)
    decreases run
  {
    run == [] || (Enabled(s, name, run[0]) && Legal(Next(s, name, run[0]), name, run[1..]))
  }

  function After(s: State, name: string, run: seq<Step>): State
    requires Legal(s, name, run)
    decreases run
  {
    if run == [] then s else After(Next(s, name, run[0]), name, run[1..])
  }

  // --------------------------------------------------------------------
  // Invariant
  // --------------------------------------------------------------------

  function Frame(name: string): seq<byte> {
    if ValidServiceName(name) then EncodeRequest(name) else []
  }

  /** Bytes read but not yet written on. */
  predicate Carried(read: seq<byte>, written: seq<byte>, t: Transfer) {
    && t.count == |written|
    && match t.copy
       case Reading => read == written
       case Writing(chunk) => read == written + chunk
       case Ended => written <= read
  }

  predicate InBounds(s: State) {
    && s.up.taken <= |s.up.sent| && s.down.taken <= |s.down.sent|
    && s.toBackend.taken <= |s.toBackend.sent| && s.fromBackend.taken <= |s.fromBackend.sent|
  }

  /** What the client has put on the stream. */
  predicate Sent(s: State, name: string) {
    match s.client
    case Sending => s.up.sent == [] && s.appSent == []
    case AwaitingReply(_) => s.up.sent == Frame(name) && s.appSent == [] && ValidServiceName(name)
    case Connected => s.up.sent == Frame(name) + s.appSent && ValidServiceName(name)
    case Refused => s.up.sent <= Frame(name) && s.appSent == []
  }

  /** What the handler has made of it. */
  predicate Read(s: State)
    requires InBounds(s)
  {
    match s.handler
    case Admitting => s.up.taken == 0
    case ReadingHead(got) => got == s.up.sent[..s.up.taken]
    case ReadingName(head, got) => |head| == 2 && HeadFits(head) && head + got == s.up.sent[..s.up.taken]
    case _ => true
  }

  predicate Upward(s: State)
    requires InBounds(s)
  {
    match s.asked
    case None => s.fromPeer == IDLE && s.toBackend.sent == []
    case Some(name) =>
      && ValidServiceName(name) && |EncodeRequest(name)| <= s.up.taken && EncodeRequest(name) <= s.up.sent
      && Carried(s.up.sent[|EncodeRequest(name)|..s.up.taken], s.toBackend.sent, s.fromPeer)
  }

  predicate Downward(s: State)
    requires InBounds(s)
  {
    if s.wroteOK then
      s.passed && OK_FRAME <= s.down.sent
        && Carried(s.fromBackend.sent[..s.fromBackend.taken], s.down.sent[2..], s.toPeer)
    else
      && s.toPeer == IDLE && s.fromBackend.taken == 0
      && (|s.down.sent| < 2 || (|s.down.sent| == 2 && s.down.sent[1] != STATUS_OK))
  }

  predicate Progress(s: State) {
    && (s.handler.Piping? || s.handler.Clearing? ==> s.wroteOK)
    && (!s.handler.Gone? && !s.handler.Piping? && !s.handler.Clearing? ==> s.down.sent == [] && !s.wroteOK)
    && (s.handler.Admitting? || s.handler.ReadingHead? || s.handler.ReadingName? ==> s.asked.None?)
    && (s.handler.Resolving? || s.handler.Dialing? || s.handler.Rechecking? ==> s.asked.Some?)
    && (s.handler.Responding? ==> s.passed)
    && (s.passed ==> s.asked.Some?)
  }

  predicate Received(s: State)
    requires InBounds(s)
  {
    && s.backendGot == s.toBackend.sent[..s.toBackend.taken] && s.backendSent == s.fromBackend.sent
    && match s.client
       case AwaitingReply(got) => got == s.down.sent[..s.down.taken] && s.appGot == []
       case Connected => 2 <= s.down.taken && s.appGot == s.down.sent[2..s.down.taken] && s.wroteOK
       case Sending => s.down.taken == 0 && s.appGot == []
       case Refused => s.appGot == []
  }

  predicate Counted(s: State) {
    s.logged.Some? ==> s.handler.Gone? && s.wroteOK && s.logged.value == Log(s.toPeer.count, s.fromPeer.count)
  }

  predicate Inv(s: State, name: string) {
    InBounds(s) && Sent(s, name) && Read(s) && Upward(s) && Downward(s) && Progress(s) && Received(s) && Counted(s)
  }

  lemma StartInv(name: string)
    ensures Inv(START, name)
  {}

  lemma ReadOn(s: Stream, from: nat, n: nat)
    requires from <= s.taken && Has(s, n)
    ensures s.sent[from..s.taken + n] == s.sent[from..s.taken] + Ahead(s, n)
  {}

  /** One write of a copy, whole or cut short. */
  lemma CarryWrite(read: seq<byte>, written: seq<byte>, t: Transfer, n: nat, ok: bool)
    requires Carried(read, written, t) && t.copy.Writing? && Accepts(t.copy.chunk, n, ok)
    ensures Carried(read, written + t.copy.chunk[..n], Transfer(if ok then Reading else Ended, t.count + n))
  {
    if ok {
      assert t.copy.chunk[..n] == t.copy.chunk;
    } else {
      assert read == written + t.copy.chunk[..n] + t.copy.chunk[n..];
    }
  }

  // Whose step it is, and what the others' steps leave alone.

  predicate ByClient(a: Step) {
    a.RejectName? || a.SendRequest? || a.ReadReply? || a.ReplyFails? || a.JudgeReply? || a.AppWrites? || a.AppReads?
  }

  predicate ByUpCopy(a: Step) {
    a.UpReads? || a.UpWrites? || a.UpEnds?
  }

  predicate ByDownCopy(a: Step) {
    a.DownReads? || a.DownWrites? || a.DownEnds?
  }

  predicate ByBackend(a: Step) {
    a.BackendWrites? || a.BackendReads?
  }

  predicate ByHandler(a: Step) {
    !ByClient(a) && !ByUpCopy(a) && !ByDownCopy(a) && !ByBackend(a)
  }

  lemma ClientFrame(s: State, name: string, a: Step)
    requires InBounds(s) && Enabled(s, name, a) && ByClient(a)
    ensures var t := Next(s, name, a);
            && t == s.(client := t.client, up := t.up, down := t.down, appSent := t.appSent, appGot := t.appGot)
            && s.up.sent <= t.up.sent && t.up.taken == s.up.taken && t.down.sent == s.down.sent && InBounds(t)
  {
    hide EncodeRequest, ParseResponse;
  }

  lemma HandlerFrame(s: State, name: string, a: Step)
    requires InBounds(s) && Enabled(s, name, a) && ByHandler(a)
    ensures var t := Next(s, name, a);
            && t == s.(handler := t.handler, up := t.up, down := t.down, asked := t.asked, passed := t.passed,
                 wroteOK := t.wroteOK, logged := t.logged)
            && t.up.sent == s.up.sent && s.down.sent <= t.down.sent && t.down.taken == s.down.taken && InBounds(t)
  {
    hide EncodeRequest, ParseResponse;
  }

  lemma UpFrame(s: State, name: string, a: Step)
    requires InBounds(s) && Enabled(s, name, a) && ByUpCopy(a)
    ensures var t := Next(s, name, a);
            && t == s.(up := Stream(s.up.sent, t.up.taken), toBackend := Stream(t.toBackend.sent, s.toBackend.taken),
                 fromPeer := t.fromPeer)
            && s.toBackend.sent <= t.toBackend.sent && InBounds(t)
  {
    hide EncodeRequest, ParseResponse;
  }

  lemma DownFrame(s: State, name: string, a: Step)
    requires InBounds(s) && Enabled(s, name, a) && ByDownCopy(a)
    ensures var t := Next(s, name, a);
            && t == s.(fromBackend := Stream(s.fromBackend.sent, t.fromBackend.taken),
                 down := Stream(t.down.sent, s.down.taken), toPeer := t.toPeer)
            && s.down.sent <= t.down.sent && InBounds(t)
  {
    hide EncodeRequest, ParseResponse;
  }

  lemma BackendFrame(s: State, name: string, a: Step)
    requires InBounds(s) && Enabled(s, name, a) && ByBackend(a)
    ensures var t := Next(s, name, a);
            && t == s.(fromBackend := Stream(t.fromBackend.sent, s.fromBackend.taken),
                 toBackend := Stream(s.toBackend.sent, t.toBackend.taken),
                       backendSent := t.backendSent, backendGot := t.backendGot)
            && s.fromBackend.sent <= t.fromBackend.sent && InBounds(t)
  {
    hide EncodeRequest, ParseResponse;
  }

  lemma ClientKeeps(s: State, name: string, a: Step)
    requires Inv(s, name) && Enabled(s, name, a) && ByClient(a)
    ensures var t := Next(s, name, a); InBounds(t) && Read(t) && Upward(t) && Downward(t) && Progress(t) && Counted(t)
  {
    ClientFrame(s, name, a);
    hide Next, Enabled, Sent, Received, EncodeRequest, ParseResponse;
    var t := Next(s, name, a);
    assert t.up.sent[..s.up.taken] == s.up.sent[..s.up.taken];
    if s.asked.Some? {
      var n := |EncodeRequest(s.asked.value)|;
      assert t.up.sent[n..s.up.taken] == s.up.sent[n..s.up.taken];
    }
  }

  lemma ClientSends(s: State, name: string, a: Step)
    requires Inv(s, name) && Enabled(s, name, a) && ByClient(a)
    ensures Sent(Next(s, name, a), name)
  {
    hide InBounds, Read, Upward, Downward, Progress, Received, Counted, EncodeRequest, ParseResponse;
    match a
    case SendRequest(n, ok) =>
      if ok {
        assert EncodeRequest(name)[..n] == EncodeRequest(name);
      }
    case AppWrites(data, n) =>
      assert s.up.sent + data[..n] == Frame(name) + (s.appSent + data[..n]);
    case _ =>
  }

  lemma ReplyCarries(s: State, n: nat)
    requires InBounds(s) && Received(s) && s.client.AwaitingReply? && Has(s.down, n)
    ensures var t := s.(client := AwaitingReply(s.client.got + Ahead(s.down, n)), down := Take(s.down, n));
              InBounds(t) && Received(t)
  {
    ReadOn(s.down, 0, n);
  }

  lemma AppCarries(s: State, n: nat)
    requires InBounds(s) && Received(s) && s.client.Connected? && Has(s.down, n)
    ensures var t := s.(appGot := s.appGot + Ahead(s.down, n), down := Take(s.down, n)); InBounds(t) && Received(t)
  {
    ReadOn(s.down, 2, n);
  }

  lemma JudgeCarries(s: State)
    requires InBounds(s) && Received(s) && Downward(s) && s.client.AwaitingReply? && |s.client.got| == 2
    ensures var t := s.(client := if ParseResponse(s.client.got).0 == Got(STATUS_OK) then Connected else Refused);
              Received(t)
  {
    assert s.down.taken == 2 && s.down.sent[..2][1] == s.down.sent[1] && s.down.sent[2..2] == [];
  }

  lemma ClientReceives(s: State, name: string, a: Step)
    requires Inv(s, name) && Enabled(s, name, a) && ByClient(a)
    ensures var t := Next(s, name, a); InBounds(t) && Received(t)
  {
    ClientFrame(s, name, a);
    assert InBounds(s) && Received(s) && Downward(s);
    hide Inv, Read, Upward, Downward, Progress, Sent, Counted, EncodeRequest, ParseResponse;
    match a
    case ReadReply(n) =>
      hide Received, InBounds;
      ReplyCarries(s, n);
    case AppReads(n) =>
      hide Received, InBounds;
      AppCarries(s, n);
    case JudgeReply =>
      hide Received, InBounds;
      JudgeCarries(s);
    case _ =>
  }

  lemma HandlerKeeps(s: State, name: string, a: Step)
    requires Inv(s, name) && Enabled(s, name, a) && ByHandler(a)
    ensures var t := Next(s, name, a); InBounds(t) && Sent(t, name) && Received(t)
  {
    HandlerFrame(s, name, a);
    assert s.wroteOK ==> Next(s, name, a).wroteOK;
    hide Next, Enabled, Read, Upward, Downward, Progress, Counted, EncodeRequest, ParseResponse;
    var t := Next(s, name, a);
    assert t.down.sent[..s.down.taken] == s.down.sent[..s.down.taken];
    assert s.down.taken >= 2 ==> t.down.sent[2..s.down.taken] == s.down.sent[2..s.down.taken];
  }

  /** The bytes the handler accepted as a request are the encoding of the name it read. */
  lemma NameRead(stream: seq<byte>, taken: nat, head: seq<byte>, got: seq<byte>)
    requires taken <= |stream| && |head| == 2 && HeadFits(head) && |got| == head[1]
    requires head + got == stream[..taken] && ValidServiceName(Text(got))
    ensures EncodeRequest(Text(got)) == stream[..taken]
  {
    TextInjective(Bytes(Text(got)), got);
    assert head == [FRAME_VERSION, |got|];
  }

  lemma HeadCarries(s: State, n: nat)
    requires InBounds(s) && Read(s) && s.handler.ReadingHead? && Has(s.up, n)
    ensures var t := s.(handler := ReadingHead(s.handler.got + Ahead(s.up, n)), up := Take(s.up, n));
              InBounds(t) && Read(t)
  {
    ReadOn(s.up, 0, n);
  }

  lemma NameCarries(s: State, n: nat)
    requires InBounds(s) && Read(s) && s.handler.ReadingName? && Has(s.up, n)
    ensures var t := s.(handler := ReadingName(s.handler.head, s.handler.got + Ahead(s.up, n)), up := Take(s.up, n));
              InBounds(t) && Read(t)
  {
    ReadOn(s.up, 0, n);
    assert s.handler.head + (s.handler.got + Ahead(s.up, n)) == (s.handler.head + s.handler.got) + Ahead(s.up, n);
  }

  /** A reading handler keeps exactly what it has taken off the stream. */
  lemma HandlerReads(s: State, name: string, a: Step)
    requires Inv(s, name) && Enabled(s, name, a) && ByHandler(a)
    ensures var t := Next(s, name, a); InBounds(t) && Read(t)
  {
    HandlerFrame(s, name, a);
    assert Read(s);
    hide Sent, Received, Upward, Downward, Progress, Counted, EncodeRequest, ParseResponse, Inv;
    match a
    case ReadHead(n) =>
      hide Read, InBounds;
      HeadCarries(s, n);
    case ReadName(n) =>
      hide Read, InBounds;
      NameCarries(s, n);
    case JudgeHead(_) => assert s.handler.got + [] == s.handler.got;
    case Admit => assert s.up.sent[..0] == [];
    case _ =>
  }

  lemma HandlerAsks(s: State, name: string, a: Step)
    requires Inv(s, name) && Enabled(s, name, a) && ByHandler(a)
    ensures var t := Next(s, name, a); InBounds(t) && Upward(t)
  {
    HandlerFrame(s, name, a);
    var t := Next(s, name, a);
    if a.JudgeName? && ValidServiceName(Text(s.handler.got)) {
      hide Sent, Received, Downward, Counted, EncodeRequest, ParseResponse;
      NameRead(s.up.sent, s.up.taken, s.handler.head, s.handler.got);
      assert t.up.sent[s.up.taken..s.up.taken] == [];
    } else if s.asked.Some? {
      hide Sent, Received, Read, Downward, Counted, EncodeRequest, ParseResponse, Carried;
      assert t.asked == s.asked && t.up == s.up;
    } else {
      hide Sent, Received, Read, Downward, Counted, EncodeRequest, ParseResponse, Carried;
    }
  }

  lemma HandlerAnswers(s: State, name: string, a: Step)
    requires Inv(s, name) && Enabled(s, name, a) && ByHandler(a)
    ensures var t := Next(s, name, a); InBounds(t) && Downward(t)
  {
    HandlerFrame(s, name, a);
    var t := Next(s, name, a);
    hide Sent, Received, Read, Upward, Counted, EncodeRequest, ParseResponse, ValidServiceName;
    if a.Respond? && a.n == 2 {
      assert t.down.sent == OK_FRAME && t.down.sent[2..] == [] && t.fromBackend.sent[..0] == [];
    } else {
      hide Carried;
    }
  }

  lemma HandlerProgresses(s: State, name: string, a: Step)
    requires Inv(s, name) && Enabled(s, name, a) && ByHandler(a)
    ensures Progress(Next(s, name, a)) && Counted(Next(s, name, a))
  {
    hide Sent, Received, Read, Upward, Downward, InBounds, EncodeRequest, ParseResponse, ValidServiceName;
  }

  lemma UpReadCarries(s: State, k: nat)
    requires InBounds(s) && Upward(s) && s.asked.Some? && s.fromPeer.copy.Reading? && Has(s.up, k)
    ensures var t := s.(fromPeer := Transfer(Writing(Ahead(s.up, k)), s.fromPeer.count), up := Take(s.up, k));
            InBounds(t) && Upward(t)
  {
    ReadOn(s.up, |EncodeRequest(s.asked.value)|, k);
    hide EncodeRequest;
  }

  lemma UpWriteCarries(s: State, k: nat, ok: bool)
    requires InBounds(s) && Upward(s) && s.asked.Some? && s.fromPeer.copy.Writing?
               && Accepts(s.fromPeer.copy.chunk, k, ok)
    ensures var t := s.(toBackend := Put(s.toBackend, s.fromPeer.copy.chunk[..k]),
                        fromPeer := Transfer(if ok then Reading else Ended, s.fromPeer.count + k));
            InBounds(t) && Upward(t)
  {
    CarryWrite(s.up.sent[|EncodeRequest(s.asked.value)|..s.up.taken], s.toBackend.sent, s.fromPeer, k, ok);
    hide Carried, EncodeRequest;
  }

  lemma UpCopyCarries(s: State, name: string, a: Step)
    requires Inv(s, name) && Enabled(s, name, a) && ByUpCopy(a)
    ensures var t := Next(s, name, a); InBounds(t) && Upward(t)
  {
    assert s.asked.Some? && Upward(s) && InBounds(s);
    hide Inv, EncodeRequest, ParseResponse;
    match a
    case UpReads(k) =>
      hide Upward, InBounds;
      UpReadCarries(s, k);
    case UpWrites(k, ok) =>
      hide Upward, InBounds;
      UpWriteCarries(s, k, ok);
    case _ =>
  }

  /** Bytes more on the way to the backend leave every other part of the invariant alone. */
  lemma UpOthers(s: State, t: State, name: string)
    requires Inv(s, name) && s.handler.Piping? && InBounds(t)
    requires t == s.(up := Stream(s.up.sent, t.up.taken), toBackend := Stream(t.toBackend.sent, s.toBackend.taken),
               fromPeer := t.fromPeer)
    requires s.toBackend.sent <= t.toBackend.sent
    ensures Sent(t, name) && Read(t) && Downward(t) && Progress(t) && Received(t) && Counted(t)
  {
    hide Upward, Carried, EncodeRequest;
    assert t.toBackend.sent[..s.toBackend.taken] == s.toBackend.sent[..s.toBackend.taken];
  }

  lemma UpCopyStep(s: State, name: string, a: Step)
    requires Inv(s, name) && Enabled(s, name, a) && ByUpCopy(a)
    ensures Inv(Next(s, name, a), name)
  {
    UpFrame(s, name, a);
    UpCopyCarries(s, name, a);
    assert s.handler.Piping?;
    hide Next, Enabled, Upward, Downward, Sent, Read, Received, Progress, Counted, InBounds, EncodeRequest,
        ParseResponse;
    UpOthers(s, Next(s, name, a), name);
  }

  lemma DownReadCarries(s: State, k: nat)
    requires InBounds(s) && Downward(s) && s.wroteOK && s.toPeer.copy.Reading? && Has(s.fromBackend, k)
    ensures var t := s.(toPeer := Transfer(Writing(Ahead(s.fromBackend, k)), s.toPeer.count),
              fromBackend := Take(s.fromBackend, k));
            InBounds(t) && Downward(t)
  {
    ReadOn(s.fromBackend, 0, k);
    assert s.fromBackend.sent[..s.fromBackend.taken + k] ==
        s.fromBackend.sent[..s.fromBackend.taken] + Ahead(s.fromBackend, k);
  }

  lemma DownWriteCarries(s: State, k: nat, ok: bool)
    requires InBounds(s) && Downward(s) && s.wroteOK && s.toPeer.copy.Writing? && Accepts(s.toPeer.copy.chunk, k, ok)
    ensures var t := s.(down := Put(s.down, s.toPeer.copy.chunk[..k]),
              toPeer := Transfer(if ok then Reading else Ended, s.toPeer.count + k));
            InBounds(t) && Downward(t)
  {
    CarryWrite(s.fromBackend.sent[..s.fromBackend.taken], s.down.sent[2..], s.toPeer, k, ok);
    hide Carried;
    assert (s.down.sent + s.toPeer.copy.chunk[..k])[2..] == s.down.sent[2..] + s.toPeer.copy.chunk[..k];
  }

  lemma DownCopyCarries(s: State, name: string, a: Step)
    requires Inv(s, name) && Enabled(s, name, a) && ByDownCopy(a)
    ensures var t := Next(s, name, a); InBounds(t) && Downward(t)
  {
    assert s.handler.Piping? && s.wroteOK && Downward(s);
    hide Inv, EncodeRequest, ParseResponse;
    match a
    case DownReads(k) =>
      hide Downward;
      DownReadCarries(s, k);
    case DownWrites(k, ok) =>
      hide Downward;
      DownWriteCarries(s, k, ok);
    case _ =>
  }

  /** Bytes more on the way to the peer leave every other part of the invariant alone. */
  lemma DownOthers(s: State, t: State, name: string)
    requires Inv(s, name) && s.handler.Piping? && InBounds(t)
    requires t == s.(fromBackend := Stream(s.fromBackend.sent, t.fromBackend.taken),
               down := Stream(t.down.sent, s.down.taken), toPeer := t.toPeer)
    requires s.down.sent <= t.down.sent
    ensures Sent(t, name) && Read(t) && Upward(t) && Progress(t) && Received(t) && Counted(t)
  {
    hide Downward, Carried, EncodeRequest;
    assert t.down.sent[..s.down.taken] == s.down.sent[..s.down.taken];
    assert s.down.taken >= 2 ==> t.down.sent[2..s.down.taken] == s.down.sent[2..s.down.taken];
  }

  lemma DownCopyStep(s: State, name: string, a: Step)
    requires Inv(s, name) && Enabled(s, name, a) && ByDownCopy(a)
    ensures Inv(Next(s, name, a), name)
  {
    DownFrame(s, name, a);
    DownCopyCarries(s, name, a);
    assert s.handler.Piping?;
    hide Next, Enabled, Upward, Downward, Sent, Read, Received, Progress, Counted, InBounds, EncodeRequest,
        ParseResponse;
    DownOthers(s, Next(s, name, a), name);
  }

  lemma BackendStep(s: State, name: string, a: Step)
    requires Inv(s, name) && Enabled(s, name, a) && ByBackend(a)
    ensures Inv(Next(s, name, a), name)
  {
    BackendFrame(s, name, a);
    var t := Next(s, name, a);
    assert t.fromBackend.sent[..s.fromBackend.taken] == s.fromBackend.sent[..s.fromBackend.taken];
    if a.BackendReads? {
      ReadOn(s.toBackend, 0, a.n);
    }
    assert Received(t);
    hide Next, Carried, EncodeRequest, ParseResponse;
  }

  lemma StepInv(s: State, name: string, a: Step)
    requires Inv(s, name) && Enabled(s, name, a)
    ensures Inv(Next(s, name, a), name)
  {
    if ByClient(a) {
      ClientKeeps(s, name, a);
      ClientSends(s, name, a);
      ClientReceives(s, name, a);
    } else if ByUpCopy(a) {
      UpCopyStep(s, name, a);
    } else if ByDownCopy(a) {
      DownCopyStep(s, name, a);
    } else if ByBackend(a) {
      BackendStep(s, name, a);
    } else {
      HandlerKeeps(s, name, a);
      HandlerReads(s, name, a);
      HandlerAsks(s, name, a);
      HandlerAnswers(s, name, a);
      HandlerProgresses(s, name, a);
    }
    hide Next, Enabled, Sent, Read, Upward, Downward, Progress, Received, Counted;
  }

  lemma {:induction false} RunInv(s: State, name: string, run: seq<Step>)
    requires Inv(s, name) && Legal(s, name, run)
    ensures Inv(After(s, name, run), name)
    decreases run
  {
    hide Inv, Enabled, Next;
    if run != [] {
      StepInv(s, name, run[0]);
      RunInv(Next(s, name, run[0]), name, run[1..]);
    }
  }

  // --------------------------------------------------------------------
  // Theorems: any interleaving, any chunking, any failures
  // --------------------------------------------------------------------

  /** No encoding is the beginning of another's stream. */
  lemma SameName(stream: seq<byte>, asked: string, name: string, app: seq<byte>)
    requires ValidServiceName(asked) && ValidServiceName(name)
    requires EncodeRequest(asked) <= stream && stream == EncodeRequest(name) + app
    ensures asked == name
  {
    var n := |EncodeRequest(asked)|;
    assert stream == EncodeRequest(asked) + stream[n..];
    RequestExact(stream, asked, stream[n..]);
    RequestExact(stream, name, app);
  }

  /** The handler serves the name the client asked for, and nothing but the request precedes the data. */
  lemma SameNameCut(sent: seq<byte>, asked: string, name: string)
    requires ValidServiceName(asked) && EncodeRequest(asked) <= sent <= Frame(name)
    ensures ValidServiceName(name) && asked == name && sent == EncodeRequest(name)
  {
    assert |EncodeRequest(asked)| >= 2;
    var rest := EncodeRequest(name)[|sent|..];
    assert EncodeRequest(name) == sent + rest && EncodeRequest(asked) <= EncodeRequest(name) + [];
    SameName(EncodeRequest(name) + [], asked, name, []);
  }

  lemma AskedIsName(s: State, name: string)
    requires Inv(s, name) && s.asked.Some?
    ensures ValidServiceName(name) && s.asked == Some(name) && s.up.sent == EncodeRequest(name) + s.appSent
  {
    var asked := s.asked.value;
    assert Sent(s, name) && ValidServiceName(asked) && EncodeRequest(asked) <= s.up.sent;
    assert |EncodeRequest(asked)| >= 2;
    hide Inv, Read, Upward, Downward, Progress, Received, Counted, EncodeRequest, ValidServiceName;
    if s.client.Refused? {
      SameNameCut(s.up.sent, asked, name);
      assert EncodeRequest(name) + [] == EncodeRequest(name);
    } else if s.client.AwaitingReply? {
      assert s.up.sent == EncodeRequest(name) + s.appSent;
      SameName(s.up.sent, asked, name, s.appSent);
    } else {
      SameName(s.up.sent, asked, name, s.appSent);
    }
  }

  /** The backend reads a prefix of exactly what the application wrote after Dial: no request byte, no gap. */
  lemma BackendGetsPrefix(name: string, run: seq<Step>)
    requires Legal(START, name, run)
    ensures var s := After(START, name, run); s.backendGot <= s.toBackend.sent <= s.appSent
  {
    StartInv(name);
    RunInv(START, name, run);
    var s := After(START, name, run);
    if s.asked.Some? {
      AskedIsName(s, name);
      var n := |EncodeRequest(name)|;
      hide Sent, Received, Read, Downward, Progress, Counted, EncodeRequest;
      assert s.up.sent[n..s.up.taken] == s.appSent[..s.up.taken - n];
      assert s.toBackend.sent <= s.up.sent[n..s.up.taken];
    }
  }

  /** The application reads a prefix of exactly what the backend wrote: no status byte, no gap. */
  lemma AppGetsPrefix(name: string, run: seq<Step>)
    requires Legal(START, name, run)
    ensures var s := After(START, name, run); s.appGot <= s.backendSent
  {
    StartInv(name);
    RunInv(START, name, run);
    var s := After(START, name, run);
    if s.client.Connected? {
      assert s.appGot <= s.down.sent[2..];
      assert s.down.sent[2..] <= s.fromBackend.sent[..s.fromBackend.taken];
    }
  }

  /** Dial succeeds only if the handler read this very name, passed its re-check and wrote OK. */
  lemma ConnectedMeansAdmitted(name: string, run: seq<Step>)
    requires Legal(START, name, run) && After(START, name, run).client.Connected?
    ensures var s := After(START, name, run); s.asked == Some(name) && s.passed && s.wroteOK && OK_FRAME <= s.down.sent
  {
    StartInv(name);
    RunInv(START, name, run);
    AskedIsName(After(START, name, run), name);
  }

  /** The logged counts are the lengths of what was put through to each side. */
  lemma LoggedCountsAreDelivered(name: string, run: seq<Step>)
    requires Legal(START, name, run) && After(START, name, run).logged.Some?
    ensures var s := After(START, name, run);
            && s.logged.value.bytesReceived == |s.toBackend.sent| && s.toBackend.sent <= s.appSent
            && OK_FRAME <= s.down.sent && s.logged.value.bytesSent == |s.down.sent[2..]|
                 && s.down.sent[2..] <= s.backendSent
  {
    StartInv(name);
    RunInv(START, name, run);
    BackendGetsPrefix(name, run);
    var s := After(START, name, run);
    assert s.down.sent[2..] <= s.fromBackend.sent[..s.fromBackend.taken];
  }

  /** A copy that has not ended has lost nothing: what it read it has written, or still holds. */
  lemma NothingLostInFlight(name: string, run: seq<Step>)
    requires Legal(START, name, run) && After(START, name, run).handler.Piping?
    ensures var s := After(START, name, run);
            && ValidServiceName(name) && InBounds(s) && |EncodeRequest(name)| <= s.up.taken && OK_FRAME <= s.down.sent
            && (!s.fromPeer.copy.Ended? ==>
                  s.up.sent[|EncodeRequest(name)|..s.up.taken] == s.toBackend.sent + if s.fromPeer.copy.Writing? then
                    s.fromPeer.copy.chunk else [])
            && (!s.toPeer.copy.Ended? ==>
                  s.fromBackend.sent[..s.fromBackend.taken] == s.down.sent[2..] + if s.toPeer.copy.Writing? then
                    s.toPeer.copy.chunk else [])
  {
    StartInv(name);
    RunInv(START, name, run);
    AskedIsName(After(START, name, run), name);
  }
}
