/**
 Which status a refused connection is answered with, and that a connection can
 carry everything both ways.
 */
module ConnectionOutcomes {
  import opened Prelude
  import opened Wire
  import opened EndToEnd

  lemma {:induction false} Unsnoc(s: State, name: string, run: seq<Step>, a: Step)
    requires Legal(s, name, run + [a])
    ensures Legal(s, name, run) && Enabled(After(s, name, run), name, a)
    ensures After(s, name, run + [a]) == Next(After(s, name, run), name, a)
    decreases run
  {
    hide Enabled, Next;
    if run == [] {
      assert (run + [a])[0] == a && (run + [a])[1..] == [];
    } else {
      assert (run + [a])[0] == run[0] && (run + [a])[1..] == run[1..] + [a];
      Unsnoc(Next(s, name, run[0]), name, run[1..], a);
    }
  }

  lemma {:induction false} Snoc(s: State, name: string, run: seq<Step>, a: Step)
    requires Legal(s, name, run) && Enabled(After(s, name, run), name, a)
    ensures Legal(s, name, run + [a]) && After(s, name, run + [a]) == Next(After(s, name, run), name, a)
    decreases run
  {
    hide Enabled, Next;
    if run == [] {
      assert (run + [a])[0] == a && (run + [a])[1..] == [];
    } else {
      assert (run + [a])[0] == run[0] && (run + [a])[1..] == run[1..] + [a];
      Snoc(Next(s, name, run[0]), name, run[1..], a);
    }
  }

  // --------------------------------------------------------------------
  // A valid request is never malformed
  // --------------------------------------------------------------------

  /** Whatever was sent begins as the request does. */
  lemma SentBegins(s: State, name: string, n: nat)
    requires Sent(s, name) && n <= |s.up.sent| && 0 < n
    ensures ValidServiceName(name)
    ensures n <= |EncodeRequest(name)| ==> s.up.sent[..n] == EncodeRequest(name)[..n]
  {
    hide EncodeRequest, ValidServiceName;
  }

  lemma HeadIsFit(s: State, name: string)
    requires Inv(s, name) && s.handler.ReadingHead? && |s.handler.got| == 2
    ensures HeadFits(s.handler.got)
  {
    assert s.handler.got == s.up.sent[..s.up.taken] && s.up.taken == 2;
    SentBegins(s, name, 2);
    assert s.handler.got == EncodeRequest(name)[..2];
    hide Inv, Sent, Upward, Downward, Received, Progress;
  }

  lemma NameIsValid(s: State, name: string)
    requires Inv(s, name) && s.handler.ReadingName? && |s.handler.head| == 2 && |s.handler.got| == s.handler.head[1]
    ensures ValidServiceName(Text(s.handler.got))
  {
    var n := s.up.taken;
    assert s.handler.head + s.handler.got == s.up.sent[..n] && n == 2 + s.handler.head[1];
    assert s.handler.head[1] == s.up.sent[1];
    SentBegins(s, name, 2);
    assert s.up.sent[..2][1] == EncodeRequest(name)[..2][1] == |name|;
    SentBegins(s, name, n);
    hide Inv, Sent, Upward, Downward, Received, Progress;
    assert EncodeRequest(name)[..n] == EncodeRequest(name);
    assert s.handler.got == (s.handler.head + s.handler.got)[2..] == EncodeRequest(name)[2..] == Bytes(name);
  }

  // --------------------------------------------------------------------
  // What each status means
  // --------------------------------------------------------------------

  /** The name could not be read to its end. */
  predicate CutShort(run: seq<Step>) {
    exists k :: 0 <= k < |run| && run[k].Refuse? && run[k].status == STATUS_MALFORMED
  }

  /** What a status answers, in terms of how far the handler had come. */
  predicate Answers(s: State, name: string, run: seq<Step>, status: byte) {
    if status == STATUS_OK then s.wroteOK && s.passed
    else if status == STATUS_RATE_LIMITED then Admit !in run && s.up.taken == 0
    else if status == STATUS_MALFORMED then Admit in run && s.asked == None && CutShort(run)
    else if status == STATUS_DENIED then s.asked == Some(name) && Grant !in run
    else status == STATUS_BACKEND_UNAVAILABLE && s.asked == Some(name) && Grant in run && BackendUp !in run
  }

  predicate Told(s: State, name: string, run: seq<Step>) {
    && (|s.down.sent| >= 2 ==> s.down.sent[0] == FRAME_VERSION && Answers(s, name, run, s.down.sent[1]))
    && (s.handler.Admitting? ==> Admit !in run && s.up.taken == 0)
    && (s.handler.Admitting? || s.handler.ReadingHead? || s.handler.ReadingName? || s.handler.Resolving? ==>
         Grant !in run)
    && (s.handler.ReadingHead? || s.handler.ReadingName? ==> Admit in run && s.asked == None)
    && (s.handler.Resolving? || s.handler.Dialing? ==> s.asked == Some(name) && BackendUp !in run)
    && (s.handler.Admitting? || s.handler.ReadingHead? || s.handler.ReadingName? ==> BackendUp !in run)
    && (s.handler.Dialing? ==> Grant in run)
  }

  lemma Later(run: seq<Step>, a: Step)
    ensures forall b :: b in run + [a] <==> b in run || b == a
    ensures CutShort(run + [a]) <==> CutShort(run) || (a.Refuse? && a.status == STATUS_MALFORMED)
  {
    var all := run + [a];
    assert forall k :: 0 <= k < |run| ==> all[k] == run[k];
    assert all[|run|] == a;
  }

  /** A step of client, copies or backend neither answers nor moves the handler. */
  predicate LeavesAnswer(s: State, t: State) {
    && t.handler == s.handler && t.asked == s.asked && t.wroteOK == s.wroteOK && t.passed == s.passed
    && (t.up.taken == s.up.taken || s.handler.Piping?)
    && (t.down.sent == s.down.sent || (s.handler.Piping? && s.down.sent <= t.down.sent))
  }

  lemma OthersLeave(s: State, name: string, a: Step)
    requires InBounds(s) && Enabled(s, name, a) && !ByHandler(a)
    ensures LeavesAnswer(s, Next(s, name, a))
  {
    if ByClient(a) {
      ClientFrame(s, name, a);
    } else if ByUpCopy(a) {
      UpFrame(s, name, a);
      assert s.handler.Piping?;
    } else if ByDownCopy(a) {
      DownFrame(s, name, a);
      assert s.handler.Piping?;
    } else {
      BackendFrame(s, name, a);
    }
    hide Next, Enabled, InBounds;
  }

  lemma OthersTold(s: State, name: string, run: seq<Step>, a: Step)
    requires Inv(s, name) && Told(s, name, run) && Enabled(s, name, a) && !ByHandler(a)
    ensures Told(Next(s, name, a), name, run + [a])
  {
    Later(run, a);
    OthersLeave(s, name, a);
    assert s.handler.Piping? ==> s.wroteOK && OK_FRAME <= s.down.sent;
    hide Inv, CutShort, Next, Enabled;
  }

  lemma JudgesTold(s: State, name: string, run: seq<Step>, a: Step)
    requires Inv(s, name) && Told(s, name, run) && Enabled(s, name, a) && (a.JudgeHead? || a.JudgeName?)
    ensures Told(Next(s, name, a), name, run + [a])
  {
    StepInv(s, name, a);
    Later(run, a);
    assert s.down.sent == [];
    var t := Next(s, name, a);
    if a.JudgeHead? {
      HeadIsFit(s, name);
    } else {
      NameIsValid(s, name);
      AskedIsName(t, name);
    }
    hide Inv, Sent, Read, Upward, Downward, Received, EncodeRequest, ParseResponse, ValidServiceName, CutShort;
  }

  /** The handler writes a status: a refusal in its place, or OK. */
  lemma StatusTold(s: State, name: string, run: seq<Step>, a: Step)
    requires Inv(s, name) && Told(s, name, run) && Enabled(s, name, a) && (a.Refuse? || a.Respond?)
    ensures Told(Next(s, name, a), name, run + [a])
  {
    Later(run, a);
    assert Progress(s) && s.down.sent == [];
    hide Inv, CutShort;
  }

  /** What the handler's other steps do to what `Told` looks at. */
  lemma MoveLeaves(s: State, name: string, a: Step)
    requires Progress(s) && Enabled(s, name, a) && ByHandler(a)
    requires !a.JudgeHead? && !a.JudgeName? && !a.Refuse? && !a.Respond?
    ensures var t := Next(s, name, a);
            && t.down == s.down && t.asked == s.asked && t.wroteOK == s.wroteOK && (s.passed ==> t.passed)
            && (s.handler.Piping? || s.handler.Clearing? || s.down.sent == [])
            && match a
               case Vanish | EndPipe => t.handler.Gone? && t.up == s.up
               case Admit => s.handler.Admitting? && t.handler.ReadingHead? && t.up == s.up
               case ReadHead(_) => s.handler.ReadingHead? && t.handler.ReadingHead?
               case ReadName(_) => s.handler.ReadingName? && t.handler.ReadingName?
               case Grant => s.handler.Resolving? && t.handler.Dialing? && t.up == s.up
               case BackendUp => s.handler.Dialing? && t.handler.Rechecking? && t.up == s.up
               case _ => t.up == s.up && (t.handler.Responding? || t.handler.Piping?)
  {
    hide EncodeRequest, ValidServiceName;
  }

  lemma MovesTold(s: State, name: string, run: seq<Step>, a: Step)
    requires Inv(s, name) && Told(s, name, run) && Enabled(s, name, a) && ByHandler(a)
    requires !a.JudgeHead? && !a.JudgeName? && !a.Refuse? && !a.Respond?
    ensures Told(Next(s, name, a), name, run + [a])
  {
    Later(run, a);
    assert Progress(s);
    assert s.handler.Clearing? || s.handler.Piping? ==> s.wroteOK && s.passed && OK_FRAME <= s.down.sent;
    MoveLeaves(s, name, a);
    hide Inv, CutShort, Next, Enabled, Progress;
  }

  lemma HandlerTold(s: State, name: string, run: seq<Step>, a: Step)
    requires Inv(s, name) && Told(s, name, run) && Enabled(s, name, a) && ByHandler(a)
    ensures Told(Next(s, name, a), name, run + [a])
  {
    hide Inv, Told, Next, Enabled;
    if a.JudgeHead? || a.JudgeName? {
      JudgesTold(s, name, run, a);
    } else if a.Refuse? || a.Respond? {
      StatusTold(s, name, run, a);
    } else {
      MovesTold(s, name, run, a);
    }
  }

  lemma {:induction false} AllTold(name: string, run: seq<Step>)
    requires Legal(START, name, run)
    ensures Inv(After(START, name, run), name) && Told(After(START, name, run), name, run)
    decreases |run|
  {
    StartInv(name);
    RunInv(START, name, run);
    if run != [] {
      var before, a := run[..|run| - 1], run[|run| - 1];
      assert run == before + [a];
      Unsnoc(START, name, before, a);
      AllTold(name, before);
      hide *;
      if !ByHandler(a) {
        OthersTold(After(START, name, before), name, before, a);
      } else {
        HandlerTold(After(START, name, before), name, before, a);
      }
    }
  }

  /**
   A status that reached the stream says exactly how far the handler came: refused before
   a byte was read, cut short in the name, read but not granted, granted but not
   dialled, or admitted. A request that arrives whole is never malformed.
   */
  lemma StatusTellsWhy(name: string, run: seq<Step>)
    requires Legal(START, name, run) && |After(START, name, run).down.sent| >= 2
    ensures var s := After(START, name, run);
            s.down.sent[0] == FRAME_VERSION && Answers(s, name, run, s.down.sent[1])
  {
    AllTold(name, run);
  }

  // --------------------------------------------------------------------
  // Everything can be delivered
  // --------------------------------------------------------------------

  /** The whole handshake done, nothing else sent. */
  function Established(name: string): State
    requires ValidServiceName(name)
  {
    var request := EncodeRequest(name);
    State.State(Connected, Piping, Stream(request, |request|), Stream(OK_FRAME, 2), EMPTY, EMPTY, IDLE, IDLE,
      Some(name), true, true, None, [], [], [], [])
  }

  lemma Asks(name: string) returns (run: seq<Step>)
    requires ValidServiceName(name)
    ensures Legal(START, name, run)
    ensures var request := EncodeRequest(name);
            After(START, name, run) ==
              START.(client := AwaitingReply([]), handler := ReadingHead([]), up := Stream(request, 0))
  {
    var request := EncodeRequest(name);
    assert request[..|request|] == request && [] + request == request;
    Snoc(START, name, [], SendRequest(|request|, true));
    run := [] + [SendRequest(|request|, true)];
    Snoc(START, name, run, Admit);
    run := run + [Admit];
  }

  lemma ReadsHead(name: string) returns (run: seq<Step>)
    requires ValidServiceName(name)
    ensures Legal(START, name, run)
    ensures var request := EncodeRequest(name);
            After(START, name, run) == START.(client := AwaitingReply([]),
              handler := ReadingName([FRAME_VERSION, |name|], []), up := Stream(request, 2))
  {
    var request := EncodeRequest(name);
    run := Asks(name);
    hide Legal, After;
    var head := request[..2];
    assert request[0..0 + 2] == head && [] + head == head && head == [FRAME_VERSION, |name|] && HeadFits(head);
    hide EncodeRequest;
    Snoc(START, name, run, ReadHead(2));
    run := run + [ReadHead(2)];
    Snoc(START, name, run, JudgeHead(0));
    run := run + [JudgeHead(0)];
  }

  /** The request read to its end, name still to be judged. */
  function HasName(name: string): State
    requires ValidServiceName(name)
  {
    var request := EncodeRequest(name);
    START.(client := AwaitingReply([]), handler := ReadingName([FRAME_VERSION, |name|], Bytes(name)),
      up := Stream(request, |request|))
  }

  lemma NameStep(name: string)
    requires ValidServiceName(name)
    ensures var request := EncodeRequest(name);
            var s := START.(client := AwaitingReply([]), handler := ReadingName([FRAME_VERSION, |name|], []),
              up := Stream(request, 2));
            Enabled(s, name, ReadName(|name|)) && Next(s, name, ReadName(|name|)) == HasName(name)
  {
    var request := EncodeRequest(name);
    assert request[2..2 + |name|] == Bytes(name) && |request| == 2 + |name|;
    assert [] + Bytes(name) == Bytes(name);
    hide EncodeRequest, ValidServiceName;
  }

  lemma JudgeStep(name: string)
    requires ValidServiceName(name)
    ensures var s := HasName(name);
            Enabled(s, name, JudgeName(0))
              && Next(s, name, JudgeName(0)) == s.(handler := Handler.Resolving, asked := Some(name))
  {
    assert |Bytes(name)| == |name| && Text(Bytes(name)) == name;
    hide EncodeRequest, ValidServiceName;
  }

  lemma ReadsName(name: string) returns (run: seq<Step>)
    requires ValidServiceName(name)
    ensures Legal(START, name, run)
    ensures After(START, name, run) == HasName(name).(handler := Handler.Resolving, asked := Some(name))
  {
    run := ReadsHead(name);
    hide *;
    NameStep(name);
    Snoc(START, name, run, ReadName(|name|));
    run := run + [ReadName(|name|)];
    JudgeStep(name);
    Snoc(START, name, run, JudgeName(0));
    run := run + [JudgeName(0)];
  }

  lemma Admits(name: string) returns (run: seq<Step>)
    requires ValidServiceName(name)
    ensures Legal(START, name, run)
    ensures var request := EncodeRequest(name);
            After(START, name, run) == START.(client := AwaitingReply([]), handler := Responding,
              up := Stream(request, |request|), asked := Some(name), passed := true)
  {
    run := ReadsName(name);
    hide Legal, After, EncodeRequest, ValidServiceName;
    Snoc(START, name, run, Grant);
    run := run + [Grant];
    Snoc(START, name, run, BackendUp);
    run := run + [BackendUp];
    Snoc(START, name, run, RecheckPasses);
    run := run + [RecheckPasses];
  }

  lemma Answered(name: string) returns (run: seq<Step>)
    requires ValidServiceName(name)
    ensures Legal(START, name, run)
    ensures After(START, name, run) ==
              Established(name).(client := AwaitingReply([]), down := Stream(OK_FRAME, 0))
  {
    run := Admits(name);
    hide Legal, After, EncodeRequest, ValidServiceName;
    assert OK_FRAME[..2] == OK_FRAME && [] + OK_FRAME == OK_FRAME;
    Snoc(START, name, run, Respond(2, true));
    run := run + [Respond(2, true)];
    Snoc(START, name, run, StartPipe);
    run := run + [StartPipe];
  }

  lemma Establishes(name: string) returns (run: seq<Step>)
    requires ValidServiceName(name)
    ensures Legal(START, name, run) && After(START, name, run) == Established(name)
  {
    run := Answered(name);
    hide Legal, After, EncodeRequest, ValidServiceName;
    assert OK_FRAME[0..0 + 2] == OK_FRAME && [] + OK_FRAME == OK_FRAME;
    Snoc(START, name, run, ReadReply(2));
    run := run + [ReadReply(2)];
    Snoc(START, name, run, JudgeReply);
    run := run + [JudgeReply];
  }

  /** What a connection looks like once both sides have all the other wrote. */
  predicate Delivered(s: State, up: seq<byte>, down: seq<byte>) {
    && s.client.Connected? && s.appSent == up && s.backendGot == up && s.backendSent == down && s.appGot == down
  }

  /** The application's bytes taken up by the copy. */
  function TakenUp(e: State, up: seq<byte>): State {
    var n := |up|;
    e.(up := Stream(e.up.sent + up, |e.up.sent| + n), fromPeer := Transfer(Writing(up), 0), appSent := up)
  }

  /** And delivered to the backend. */
  function SentUp(e: State, up: seq<byte>): State {
    TakenUp(e, up).(toBackend := Stream(up, |up|), fromPeer := Transfer(Reading, |up|), backendGot := up)
  }

  function TakenDown(s: State, down: seq<byte>): State {
    s.(fromBackend := Stream(down, |down|), toPeer := Transfer(Writing(down), 0), backendSent := down)
  }

  lemma WriteUpStep(s: State, name: string, up: seq<byte>)
    requires s.client.Connected? && s.appSent == []
    ensures Enabled(s, name, AppWrites(up, |up|))
    ensures Next(s, name, AppWrites(up, |up|)) == s.(up := Put(s.up, up), appSent := up)
  {
    assert up[..|up|] == up && [] + up == up;
  }

  lemma TakeUpStep(s: State, name: string, up: seq<byte>)
    requires s.handler.Piping? && s.fromPeer == IDLE && |s.up.sent| == s.up.taken
    ensures var s1 := s.(up := Put(s.up, up));
            && Enabled(s1, name, UpReads(|up|))
            && Next(s1, name, UpReads(|up|)) == s1.(up := Take(s1.up, |up|), fromPeer := Transfer(Writing(up), 0))
  {
    assert (s.up.sent + up)[s.up.taken..s.up.taken + |up|] == up;
  }

  lemma PutUpStep(s: State, name: string, up: seq<byte>)
    requires s.handler.Piping? && s.fromPeer == Transfer(Writing(up), 0) && s.toBackend == EMPTY
    ensures var n := |up|;
            && Enabled(s, name, UpWrites(n, true))
            && Next(s, name, UpWrites(n, true)) == s.(toBackend := Stream(up, 0), fromPeer := Transfer(Reading, n))
  {
    assert up[..|up|] == up && [] + up == up;
  }

  lemma GetUpStep(s: State, name: string, up: seq<byte>)
    requires s.toBackend == Stream(up, 0) && s.backendGot == []
    ensures var n := |up|;
            && Enabled(s, name, BackendReads(n))
            && Next(s, name, BackendReads(n)) == s.(toBackend := Stream(up, n), backendGot := up)
  {
    assert up[0..0 + |up|] == up && [] + up == up;
  }

  lemma WriteDownStep(s: State, name: string, down: seq<byte>)
    requires s.handler.Piping? && s.fromBackend == EMPTY && s.backendSent == []
    ensures Enabled(s, name, BackendWrites(down))
    ensures Next(s, name, BackendWrites(down)) == s.(fromBackend := Stream(down, 0), backendSent := down)
  {
    assert [] + down == down;
  }

  lemma TakeDownStep(s: State, name: string, down: seq<byte>)
    requires s.handler.Piping? && s.toPeer == IDLE && s.fromBackend == Stream(down, 0)
    ensures var n := |down|;
            && Enabled(s, name, DownReads(n))
            && Next(s, name, DownReads(n)) ==
               s.(fromBackend := Stream(down, n), toPeer := Transfer(Writing(down), 0))
  {
    assert down[0..0 + |down|] == down;
  }

  lemma PutDownStep(s: State, name: string, down: seq<byte>)
    requires s.handler.Piping? && s.toPeer == Transfer(Writing(down), 0)
    ensures var n := |down|;
            && Enabled(s, name, DownWrites(n, true))
            && Next(s, name, DownWrites(n, true)) == s.(down := Put(s.down, down), toPeer := Transfer(Reading, n))
  {
    assert down[..|down|] == down;
  }

  lemma GetDownStep(s: State, name: string, down: seq<byte>)
    requires s.client.Connected? && s.down == Stream(OK_FRAME + down, 2) && s.appGot == []
    ensures var n := |down|;
            Enabled(s, name, AppReads(n)) && Next(s, name, AppReads(n)) == s.(down := Take(s.down, n), appGot := down)
  {
    assert (OK_FRAME + down)[2..2 + |down|] == down && [] + down == down;
  }

  lemma SendsUp(name: string, up: seq<byte>) returns (run: seq<Step>)
    requires ValidServiceName(name)
    ensures Legal(START, name, run) && After(START, name, run) == SentUp(Established(name), up)
  {
    var e, n := Established(name), |up|;
    run := Establishes(name);
    hide Legal, After, EncodeRequest, ValidServiceName, Enabled, Next;
    WriteUpStep(e, name, up);
    Snoc(START, name, run, AppWrites(up, n));
    run := run + [AppWrites(up, n)];
    TakeUpStep(e.(appSent := up), name, up);
    Snoc(START, name, run, UpReads(n));
    run := run + [UpReads(n)];
    PutUpStep(TakenUp(e, up), name, up);
    Snoc(START, name, run, UpWrites(n, true));
    run := run + [UpWrites(n, true)];
    GetUpStep(TakenUp(e, up).(toBackend := Stream(up, 0), fromPeer := Transfer(Reading, n)), name, up);
    Snoc(START, name, run, BackendReads(n));
    run := run + [BackendReads(n)];
  }

  /** For every valid name and all data in both directions there is a run that delivers everything. */
  lemma EverythingCanArrive(name: string, up: seq<byte>, down: seq<byte>) returns (run: seq<Step>)
    requires ValidServiceName(name)
    ensures Legal(START, name, run) && Delivered(After(START, name, run), up, down)
  {
    var s, n := SentUp(Established(name), up), |down|;
    run := SendsUp(name, up);
    hide Legal, After, EncodeRequest, ValidServiceName, Enabled, Next;
    WriteDownStep(s, name, down);
    Snoc(START, name, run, BackendWrites(down));
    run := run + [BackendWrites(down)];
    TakeDownStep(s.(fromBackend := Stream(down, 0), backendSent := down), name, down);
    Snoc(START, name, run, DownReads(n));
    run := run + [DownReads(n)];
    PutDownStep(TakenDown(s, down), name, down);
    Snoc(START, name, run, DownWrites(n, true));
    run := run + [DownWrites(n, true)];
    GetDownStep(TakenDown(s, down).(down := Put(s.down, down), toPeer := Transfer(Reading, n)), name, down);
    Snoc(START, name, run, AppReads(n));
    run := run + [AppReads(n)];
  }
}
