/**
 The per-peer limiter: a lazy token bucket whose burst equals its rate, a
 concurrency counter, and the set of connections a revocation reaps.

 `Bucket` and the functions over it say what each call does; the class below
 is proved against them, and the theorems are about runs of calls.
 */
module Limiter {
  import opened Prelude

  datatype Limits = Limits(maxConcurrent: int, dialsPerSecond: int)

  datatype Bucket = Bucket(maxConcurrent: int, rate: real, burst: real, tokens: real, last: real, active: int)

  datatype Verdict = Admitted | OverRate | OverConcurrency

  function WithLimits(b: Bucket, l: Limits): Bucket {
    var cap := l.dialsPerSecond as real;
    b.(maxConcurrent := l.maxConcurrent, rate := cap, burst := cap,
       tokens := if b.tokens > cap then cap else b.tokens)
  }

  function New(l: Limits, now: real): Bucket {
    var b := WithLimits(Bucket(0, 0.0, 0.0, 0.0, now, 0), l);
    b.(tokens := b.burst)
  }

  function Refill(b: Bucket, now: real): Bucket {
    if now > b.last then
      var grown := b.tokens + (now - b.last) * b.rate;
      b.(last := now, tokens := if grown > b.burst then b.burst else grown)
    else b
  }

  /** A call refused for concurrency has already spent its token. */
  function TryAcquire(b: Bucket, now: real): (Bucket, Verdict) {
    var f := Refill(b, now);
    if f.tokens < 1.0 then (f, OverRate)
    else
      var spent := f.(tokens := f.tokens - 1.0);
      if spent.active >= spent.maxConcurrent then (spent, OverConcurrency)
      else (spent.(active := spent.active + 1), Admitted)
  }

  /** Only an admitted call moves the counter, and only below the cap. */
  lemma AcquireSlots(b: Bucket, now: real)
    ensures var (b', v) := TryAcquire(b, now);
            && b'.maxConcurrent == b.maxConcurrent && b'.rate == b.rate && b'.burst == b.burst
            && b'.active == b.active + (if v.Admitted? then 1 else 0)
            && (v.Admitted? ==> b.active < b.maxConcurrent)
  {
  }

  function GiveBack(b: Bucket): Bucket {
    if b.active > 0 then b.(active := b.active - 1) else b
  }

  /** What non-negative limits buy: the bucket never goes negative or over. */
  predicate Sound(b: Bucket) {
    0.0 <= b.tokens <= b.burst && b.rate == b.burst && b.active >= 0
  }

  lemma Earned(x: real, rate: real)
    requires 0.0 < rate && x >= 1.0 / rate
    ensures x * rate >= 1.0
  {
    var spare := x - 1.0 / rate;
    assert x * rate == spare * rate + 1.0;
    assert spare * rate >= 0.0;
  }

  /** One token's worth of time since the last refill is enough, below the cap. */
  lemma AdmittedAfterWait(b: Bucket, now: real)
    requires Sound(b) && 1.0 <= b.rate && now >= b.last + 1.0 / b.rate
    ensures TryAcquire(b, now).1 == if b.active < b.maxConcurrent then Admitted else OverConcurrency
  {
    Earned(now - b.last, b.rate);
  }

  // --------------------------------------------------------------------
  // The object
  // --------------------------------------------------------------------

  class LiveConn {
    var peerOpen: bool
    var backendOpen: bool
  }

  class PeerLimiter {
    const publicKey: string
    var maxConcurrent: int
    var rate: real
    var burst: real
    var tokens: real
    var last: real
    var active: int
    var live: set<LiveConn>

    function State(): Bucket
      reads this
    {
      Bucket(maxConcurrent, rate, burst, tokens, last, active)
    }

    constructor (publicKey: string, l: Limits, now: real)
      ensures this.publicKey == publicKey && State() == New(l, now) && live == {}
      ensures maxConcurrent == l.maxConcurrent && rate == burst == tokens == l.dialsPerSecond as real
      ensures last == now && active == 0
    {
      this.publicKey := publicKey;
      maxConcurrent, rate, burst, tokens, last, active, live := 0, 0.0, 0.0, 0.0, now, 0, {};
      new;
      SetLimits(l);
      tokens := burst;
    }

    method SetLimits(l: Limits)
      modifies this
      ensures State() == WithLimits(old(State()), l) && live == old(live)
      ensures maxConcurrent == l.maxConcurrent && rate == burst == l.dialsPerSecond as real
      ensures tokens <= burst && (tokens == old(tokens) || tokens == burst < old(tokens))
      ensures last == old(last) && active == old(active)
    {
      maxConcurrent := l.maxConcurrent;
      rate := l.dialsPerSecond as real;
      burst := l.dialsPerSecond as real;
      if tokens > burst {
        tokens := burst;
      }
    }

    method Acquire(now: real) returns (v: Verdict)
      modifies this
      ensures (State(), v) == TryAcquire(old(State()), now) && live == old(live)
      ensures Sound(old(State())) && 1.0 <= old(rate) && now >= old(last) + 1.0 / old(rate) ==>
                v == if old(active) < maxConcurrent then Admitted else OverConcurrency
    {
      if Sound(State()) && 1.0 <= rate && now >= last + 1.0 / rate {
        AdmittedAfterWait(State(), now);
      }
      var elapsed := now - last;
      if elapsed > 0.0 {
        last := now;
        tokens := tokens + elapsed * rate;
        if tokens > burst {
          tokens := burst;
        }
      }
      assert State() == Refill(old(State()), now);
      if tokens < 1.0 {
        return OverRate;
      }
      tokens := tokens - 1.0;
      if active >= maxConcurrent {
        return OverConcurrency;
      }
      active := active + 1;
      return Admitted;
    }

    method Release()
      modifies this
      ensures State() == GiveBack(old(State())) && live == old(live)
    {
      if active > 0 {
        active := active - 1;
      }
    }

    method Track(c: LiveConn)
      modifies this
      ensures State() == old(State()) && live == old(live) + {c}
    {
      live := live + {c};
    }

    method Untrack(c: LiveConn)
      modifies this
      ensures State() == old(State()) && live == old(live) - {c}
    {
      live := live - {c};
    }

    /** Drains the set first, then closes both sides of everything drained. */
    method CloseLive()
      modifies this, live
      ensures State() == old(State()) && live == {}
      ensures forall c :: c in old(live) ==> !c.peerOpen && !c.backendOpen
    {
      var conns := live;
      live := {};
      var todo := conns;
      while todo != {}
        invariant todo <= conns && live == {} && State() == old(State())
        invariant forall c :: c in conns - todo ==> !c.peerOpen && !c.backendOpen
        decreases |todo|
      {
        var c :| c in todo;
        c.peerOpen := false;
        c.backendOpen := false;
        todo := todo - {c};
      }
    }
  }

  // --------------------------------------------------------------------
  // Runs of calls
  // --------------------------------------------------------------------

  datatype Op = AcquireAt(now: real) | ReleaseSlot | Reconfigure(l: Limits)

  function Step(b: Bucket, op: Op): Bucket {
    match op
    case AcquireAt(now) => TryAcquire(b, now).0
    case ReleaseSlot => GiveBack(b)
    case Reconfigure(l) => WithLimits(b, l)
  }

  function Run(b: Bucket, ops: seq<Op>): Bucket
    decreases ops
  {
    if ops == [] then b else Run(Step(b, ops[0]), ops[1..])
  }

  predicate NonNegative(ops: seq<Op>) {
    forall op :: op in ops && op.Reconfigure? ==> op.l.dialsPerSecond >= 0
  }

  predicate Spends(b: Bucket, op: Op) {
    op.AcquireAt? && !TryAcquire(b, op.now).1.OverRate?
  }

  /** Tokens spent by a run, calls refused for concurrency included. */
  function Spent(b: Bucket, ops: seq<Op>): nat
    decreases ops
  {
    if ops == [] then 0
    else (if Spends(b, ops[0]) then 1 else 0) + Spent(Step(b, ops[0]), ops[1..])
  }

  function MaxReal(a: real, b: real): real { if a > b then a else b }

  function MaxInt(a: int, b: int): int { if a > b then a else b }

  /** The largest rate in force at any acquire of the run. */
  function PeakRate(b: Bucket, ops: seq<Op>): real
    decreases ops
  {
    if ops == [] then 0.0
    else
      var rest := PeakRate(Step(b, ops[0]), ops[1..]);
      if ops[0].AcquireAt? then MaxReal(b.rate, rest) else rest
  }

  /** The latest clock reading of the run, and at least `floor`. */
  function Latest(ops: seq<Op>, floor: real): real {
    if ops == [] then floor
    else
      var rest := Latest(ops[1..], floor);
      if ops[0].AcquireAt? then MaxReal(ops[0].now, rest) else rest
  }

  /** How far past its first acquire a run's clock readings go. */
  function Span(ops: seq<Op>): real {
    if ops == [] then 0.0
    else if ops[0].AcquireAt? then Latest(ops[1..], ops[0].now) - ops[0].now
    else Span(ops[1..])
  }

  /** The largest concurrency cap a run ever applies, or has at its start. */
  function PeakConcurrency(b: Bucket, ops: seq<Op>): int
    decreases ops
  {
    if ops == [] then b.maxConcurrent
    else MaxInt(b.maxConcurrent, PeakConcurrency(Step(b, ops[0]), ops[1..]))
  }

  lemma Product(x: real, y: real)
    requires 0.0 <= x && 0.0 <= y
    ensures x * y >= 0.0
  {
  }

  lemma StepSound(b: Bucket, op: Op)
    requires Sound(b) && NonNegative([op])
    ensures Sound(Step(b, op))
    ensures op.AcquireAt? ==> Step(b, op).last == MaxReal(b.last, op.now)
    ensures op.AcquireAt? ==> (if Spends(b, op) then 1.0 else 0.0) + Step(b, op).tokens <= b.rate
    ensures !op.AcquireAt? ==> Step(b, op).last == b.last && Step(b, op).tokens <= b.tokens
  {
    if op.Reconfigure? {
      assert op in [op];
    }
    if op.AcquireAt? && op.now > b.last {
      Product(op.now - b.last, b.rate);
    }
  }

  lemma {:induction false} RunSound(b: Bucket, ops: seq<Op>)
    requires Sound(b) && NonNegative(ops)
    ensures Sound(Run(b, ops))
    decreases ops
  {
    if ops != [] {
      StepSound(b, ops[0]);
      RunSound(Step(b, ops[0]), ops[1..]);
    }
  }

  lemma {:induction false} RunAppend(b: Bucket, p: seq<Op>, q: seq<Op>)
    ensures Run(b, p + q) == Run(Run(b, p), q)
    decreases p
  {
    if p == [] {
      assert p + q == q;
    } else {
      assert (p + q)[1..] == p[1..] + q;
      RunAppend(Step(b, p[0]), p[1..], q);
    }
  }

  /** Tokens stay within the bucket on every run, whatever the clocks read. */
  lemma TokensBounded(l: Limits, now: real, ops: seq<Op>)
    requires l.dialsPerSecond >= 0 && NonNegative(ops)
    ensures var b := Run(New(l, now), ops); 0.0 <= b.tokens <= b.burst && b.burst == b.rate
  {
    RunSound(New(l, now), ops);
  }

  /** `active` never exceeds the largest cap applied so far. */
  lemma {:induction false} ActiveBounded(b: Bucket, ops: seq<Op>)
    requires 0 <= b.active
    ensures 0 <= Run(b, ops).active <= MaxInt(b.active, PeakConcurrency(b, ops))
    decreases ops
  {
    if ops != [] {
      ActiveBounded(Step(b, ops[0]), ops[1..]);
    }
  }

  lemma Scale(x: real, r: real, big: real)
    requires 0.0 <= x && r <= big
    ensures x * r <= big * x
  {
    Product(x, big - r);
  }

  lemma Split(big: real, from: real, mid: real, to: real)
    ensures big * (to - from) == big * (mid - from) + big * (to - mid)
  {
  }

  lemma StandsStill(big: real, x: real)
    ensures big * (x - x) == 0.0
  {
  }

  lemma RefillPays(b: Bucket, now: real, big: real)
    requires Sound(b) && b.rate <= big
    ensures Refill(b, now).tokens <= b.tokens + big * (Refill(b, now).last - b.last)
  {
    var f := Refill(b, now);
    if now > b.last {
      var grown := (now - b.last) * b.rate;
      assert f.last == now && f.tokens <= b.tokens + grown;
      hide Refill;
      Scale(now - b.last, b.rate, big);
    } else {
      assert f == b;
      hide Refill;
      StandsStill(big, b.last);
    }
  }

  lemma SpendsOne(b: Bucket, now: real)
    ensures var s, f := Step(b, AcquireAt(now)), Refill(b, now);
            s.last == f.last && (if Spends(b, AcquireAt(now)) then 1.0 else 0.0) + s.tokens <= f.tokens
  {
    hide Refill;
  }

  /** One call spends at most what it held plus what the clock paid in. */
  lemma StepSpend(b: Bucket, op: Op, big: real)
    requires Sound(b) && NonNegative([op]) && 0.0 <= big
    requires op.AcquireAt? ==> b.rate <= big
    ensures (if Spends(b, op) then 1.0 else 0.0) + Step(b, op).tokens <= b.tokens + big * (Step(b, op).last - b.last)
  {
    StepSound(b, op);
    if op.AcquireAt? {
      hide *;
      RefillPays(b, op.now, big);
      SpendsOne(b, op.now);
    } else {
      assert !Spends(b, op);
      hide *;
      StandsStill(big, b.last);
    }
  }

  lemma TailUnfolds(b: Bucket, ops: seq<Op>, horizon: real)
    requires Sound(b) && NonNegative(ops) && ops != [] && b.last <= horizon && Latest(ops, horizon) <= horizon
    ensures var b', rest := Step(b, ops[0]), ops[1..];
            && Sound(b') && NonNegative([ops[0]]) && NonNegative(rest)
            && b'.last <= horizon && Latest(rest, horizon) <= horizon
            && PeakRate(b', rest) <= PeakRate(b, ops) && (ops[0].AcquireAt? ==> b.rate <= PeakRate(b, ops))
            && Spent(b, ops) as real == (if Spends(b, ops[0]) then 1.0 else 0.0) + Spent(b', rest) as real
  {
    hide TryAcquire, Refill, Step, Sound;
    StepSound(b, ops[0]);
  }

  lemma Chain(head: real, tail: real, tokens: real, left: real, big: real, from: real, mid: real, to: real)
    requires head + left <= tokens + big * (mid - from) && tail <= left + big * (to - mid)
    ensures head + tail <= tokens + big * (to - from)
  {
    Split(big, from, mid, to);
  }

  lemma Affordable(tokens: real, big: real, span: real)
    requires 0.0 <= tokens && 0.0 <= big && 0.0 <= span
    ensures 0.0 <= tokens + big * span
  {
    Product(big, span);
  }

  lemma TailOne(b: Bucket, ops: seq<Op>, big: real, horizon: real)
    requires Sound(b) && NonNegative(ops) && ops != [] && 0.0 <= big && PeakRate(b, ops) <= big
    requires b.last <= horizon && Latest(ops, horizon) <= horizon
    requires var b' := Step(b, ops[0]); Spent(b', ops[1..]) as real <= b'.tokens + big * (horizon - b'.last)
    ensures Spent(b, ops) as real <= b.tokens + big * (horizon - b.last)
  {
    hide *;
    var b' := Step(b, ops[0]);
    var head := if Spends(b, ops[0]) then 1.0 else 0.0;
    TailUnfolds(b, ops, horizon);
    StepSpend(b, ops[0], big);
    Chain(head, Spent(b', ops[1..]) as real, b.tokens, b'.tokens, big, b.last, b'.last, horizon);
  }

  /** What the tokens in hand plus the remaining clock can pay for. */
  lemma {:induction false} TailSpend(b: Bucket, ops: seq<Op>, big: real, horizon: real)
    requires Sound(b) && NonNegative(ops) && 0.0 <= big
    requires PeakRate(b, ops) <= big
    requires b.last <= horizon && Latest(ops, horizon) <= horizon
    ensures Spent(b, ops) as real <= b.tokens + big * (horizon - b.last)
    decreases ops
  {
    assert 0.0 <= b.tokens && (ops == [] ==> Spent(b, ops) == 0);
    hide *;
    if ops == [] {
      Affordable(b.tokens, big, horizon - b.last);
    } else {
      TailUnfolds(b, ops, horizon);
      TailSpend(Step(b, ops[0]), ops[1..], big, horizon);
      TailOne(b, ops, big, horizon);
    }
  }

  lemma {:induction false} LatestRaise(ops: seq<Op>, floor: real, higher: real)
    requires floor <= higher
    ensures Latest(ops, floor) >= floor
    ensures Latest(ops, higher) == MaxReal(higher, Latest(ops, floor))
  {
    if ops != [] {
      LatestRaise(ops[1..], floor, higher);
    }
  }

  lemma Combine(head: real, tail: real, tokens: real, big: real, span: real)
    requires tail <= tokens + big * span && head + tokens <= big
    ensures head + tail <= big * (1.0 + span)
  {
  }

  /** The run after a first acquire at `first` is paid for by the tokens left and the span. */
  lemma FirstTail(b: Bucket, rest: seq<Op>, first: real, big: real)
    requires Sound(b) && NonNegative(rest) && 0.0 <= big && PeakRate(b, rest) <= big && first <= b.last
    ensures Spent(b, rest) as real <= b.tokens + big * (Latest(rest, first) - first)
  {
    hide TryAcquire, Refill, Step, Sound, NonNegative, PeakRate, Spent;
    var horizon := MaxReal(b.last, Latest(rest, first));
    LatestRaise(rest, first, horizon);
    TailSpend(b, rest, big, horizon);
    Monotone(big, horizon - b.last, Latest(rest, first) - first);
  }

  lemma Monotone(big: real, x: real, y: real)
    requires 0.0 <= big && x <= y
    ensures big * x <= big * y
  {
    Product(big, y - x);
  }

  lemma FirstUnfolds(b: Bucket, block: seq<Op>)
    requires Sound(b) && NonNegative(block) && block != [] && block[0].AcquireAt?
    ensures var b', rest := Step(b, block[0]), block[1..];
            var head := if Spends(b, block[0]) then 1.0 else 0.0;
            && Sound(b') && NonNegative(rest) && block[0].now <= b'.last
            && 0.0 <= PeakRate(b, block) && PeakRate(b', rest) <= PeakRate(b, block)
            && head + b'.tokens <= PeakRate(b, block)
            && Span(block) == Latest(rest, block[0].now) - block[0].now >= 0.0
            && Spent(b, block) as real == head + Spent(b', rest) as real
  {
    hide TryAcquire, Refill, Step;
    StepSound(b, block[0]);
    LatestRaise(block[1..], block[0].now, block[0].now);
  }

  /** A full bucket plus the span pays for a block that opens with an acquire. */
  lemma FirstAcquire(b: Bucket, block: seq<Op>)
    requires Sound(b) && NonNegative(block) && block != [] && block[0].AcquireAt?
    ensures PeakRate(b, block) >= 0.0 && Span(block) >= 0.0
    ensures Spent(b, block) as real <= PeakRate(b, block) * (1.0 + Span(block))
  {
    hide TryAcquire, Refill, Step, PeakRate, Spent, Latest, Span, Sound, NonNegative;
    var b' := Step(b, block[0]);
    var head := if Spends(b, block[0]) then 1.0 else 0.0;
    FirstUnfolds(b, block);
    FirstTail(b', block[1..], block[0].now, PeakRate(b, block));
    Combine(head, Spent(b', block[1..]) as real, b'.tokens, PeakRate(b, block), Span(block));
  }

  lemma {:induction false} BlockFrom(b: Bucket, block: seq<Op>)
    requires Sound(b) && NonNegative(block)
    ensures PeakRate(b, block) >= 0.0 && Span(block) >= 0.0
    ensures Spent(b, block) as real <= PeakRate(b, block) * (1.0 + Span(block))
    decreases block
  {
    hide TryAcquire, Refill, Step;
    if block == [] {
    } else if !block[0].AcquireAt? {
      StepSound(b, block[0]);
      BlockFrom(Step(b, block[0]), block[1..]);
    } else {
      FirstAcquire(b, block);
    }
  }

  lemma BlockStart(l: Limits, now: real, before: seq<Op>, block: seq<Op>)
    requires l.dialsPerSecond >= 0 && NonNegative(before + block)
    ensures Sound(Run(New(l, now), before)) && NonNegative(block)
  {
    assert forall op :: op in before || op in block ==> op in before + block;
    RunSound(New(l, now), before);
  }

  /**
   Any block of consecutive calls, wherever it starts in a run, spends at most
   R * (1 + T) tokens: R is the largest rate in force at an acquire of the
   block and T how far past its first acquire the block's clocks read.
   */
  lemma BlockSpendBounded(l: Limits, now: real, before: seq<Op>, block: seq<Op>)
    requires l.dialsPerSecond >= 0 && NonNegative(before + block)
    ensures var b := Run(New(l, now), before);
            Spent(b, block) as real <= PeakRate(b, block) * (1.0 + Span(block))
  {
    hide *;
    BlockStart(l, now, before, block);
    BlockFrom(Run(New(l, now), before), block);
  }

  // --------------------------------------------------------------------
  // Lazy against eager
  // --------------------------------------------------------------------

  /** Capped refills over adjacent intervals compose. */
  lemma RefillComposes(b: Bucket, t1: real, t2: real)
    requires Sound(b) && t1 <= t2
    ensures Refill(Refill(b, t1), t2) == Refill(b, t2)
  {
    if b.last < t1 {
      assert (t2 - b.last) * b.rate == (t1 - b.last) * b.rate + (t2 - t1) * b.rate;
      Product(t2 - t1, b.rate);
    }
  }

  /** What a caller sees of a run once calls refused for rate are set aside. */
  datatype Seen = Call(now: real, verdict: Verdict, tokens: real, active: int) | Slot(active: int)

  predicate Fixed(ops: seq<Op>) {
    forall op :: op in ops ==> !op.Reconfigure?
  }

  predicate Refused(b: Bucket, op: Op) {
    op.AcquireAt? && TryAcquire(b, op.now).1.OverRate?
  }

  function Observed(b: Bucket, ops: seq<Op>): seq<Seen>
    decreases ops
  {
    if ops == [] then []
    else
      var b' := Step(b, ops[0]);
      var rest := Observed(b', ops[1..]);
      if Refused(b, ops[0]) then rest
      else if ops[0].AcquireAt? then [Call(ops[0].now, TryAcquire(b, ops[0].now).1, b'.tokens, b'.active)] + rest
      else [Slot(b'.active)] + rest
  }

  /** The run with every call refused for rate deleted. */
  function Survivors(b: Bucket, ops: seq<Op>): seq<Op>
    decreases ops
  {
    if ops == [] then []
    else (if Refused(b, ops[0]) then [] else [ops[0]]) + Survivors(Step(b, ops[0]), ops[1..])
  }

  /** `b` is `e` after refused calls only: same bucket, or refilled and still short of a token. */
  predicate Lags(b: Bucket, e: Bucket) {
    && b == e.(tokens := b.tokens, last := b.last)
    && b == Refill(e, b.last)
    && b.last >= e.last
    && (b == e || b.tokens < 1.0)
  }

  lemma RefusedStep(b: Bucket, e: Bucket, op: Op)
    requires Sound(b) && Sound(e) && Lags(b, e) && Refused(b, op)
    ensures Lags(Step(b, op), e)
  {
    if op.now > b.last {
      RefillComposes(e, b.last, op.now);
    }
  }

  lemma KeptStep(b: Bucket, e: Bucket, op: Op)
    requires Sound(b) && Sound(e) && Lags(b, e) && !Refused(b, op) && !op.Reconfigure?
    ensures !Refused(e, op) && Lags(Step(b, op), Step(e, op))
    ensures Step(b, op).active == Step(e, op).active
    ensures op.AcquireAt? ==> TryAcquire(b, op.now).1 == TryAcquire(e, op.now).1
    ensures op.AcquireAt? ==> Step(b, op).tokens == Step(e, op).tokens
  {
    if op.AcquireAt? && op.now > b.last {
      RefillComposes(e, b.last, op.now);
    }
  }

  lemma {:induction false} DeletionFrom(b: Bucket, e: Bucket, ops: seq<Op>)
    requires Sound(b) && Sound(e) && Lags(b, e) && Fixed(ops)
    ensures Observed(e, Survivors(b, ops)) == Observed(b, ops)
    ensures |Observed(b, ops)| == |Survivors(b, ops)|
    decreases ops
  {
    hide TryAcquire, Refill, Step, Lags;
    if ops != [] {
      var op := ops[0];
      var b' := Step(b, op);
      assert op in ops;
      StepSound(b, op);
      if Refused(b, op) {
        RefusedStep(b, e, op);
        DeletionFrom(b', e, ops[1..]);
        assert Survivors(b, ops) == Survivors(b', ops[1..]);
      } else {
        StepSound(e, op);
        KeptStep(b, e, op);
        DeletionFrom(b', Step(e, op), ops[1..]);
        var kept := Survivors(b', ops[1..]);
        assert Survivors(b, ops)[1..] == kept;
      }
    }
  }

  /**
   Under fixed limits the lazy bucket is an eager one: deleting every call
   refused for rate, in any clock order, leaves each remaining call its
   verdict, its token count and the slot count after it, and refuses none.
   */
  lemma RefusedCallsAreInvisible(l: Limits, now: real, ops: seq<Op>)
    requires l.dialsPerSecond >= 0 && Fixed(ops)
    ensures var b := New(l, now);
            && Observed(b, Survivors(b, ops)) == Observed(b, ops)
            && |Observed(b, Survivors(b, ops))| == |Survivors(b, ops)|
  {
    DeletionFrom(New(l, now), New(l, now), ops);
  }
}
