/**
 What the limiter owes its peer: lower bounds beside the limiter's upper ones,
 by verdicts and clock readings.
 */
module Admission {
  import opened Limiter

  /** The verdict on the k-th operation of a run, an acquire. */
  function VerdictAt(b: Bucket, ops: seq<Op>, k: nat): Verdict
    requires k < |ops| && ops[k].AcquireAt?
  {
    TryAcquire(Run(b, ops[..k]), ops[k].now).1
  }

  predicate NoneOverRate(b: Bucket, ops: seq<Op>) {
    forall k :: 0 <= k < |ops| && ops[k].AcquireAt? ==> !VerdictAt(b, ops, k).OverRate?
  }

  function Acquires(ops: seq<Op>): nat {
    if ops == [] then 0 else (if ops[0].AcquireAt? then 1 else 0) + Acquires(ops[1..])
  }

  lemma NoneOverRateCons(b: Bucket, ops: seq<Op>)
    requires ops != [] && !Refused(b, ops[0]) && NoneOverRate(Step(b, ops[0]), ops[1..])
    ensures NoneOverRate(b, ops)
  {
    hide TryAcquire, Step;
    forall k | 0 <= k < |ops| && ops[k].AcquireAt? ensures !VerdictAt(b, ops, k).OverRate? {
      if k > 0 {
        assert ops[..k][0] == ops[0] && ops[..k][1..] == ops[1..][..k - 1];
        assert VerdictAt(b, ops, k) == VerdictAt(Step(b, ops[0]), ops[1..], k - 1);
      }
    }
  }

  // --------------------------------------------------------------------
  // Bursts
  // --------------------------------------------------------------------

  lemma FixedStep(b: Bucket, op: Op)
    requires Sound(b) && !op.Reconfigure?
    ensures Sound(Step(b, op)) && Step(b, op).rate == b.rate
    ensures op.AcquireAt? ==> Step(b, op).last == MaxReal(b.last, op.now)
    ensures !op.AcquireAt? ==> Step(b, op).last == b.last && Step(b, op).tokens == b.tokens
    ensures op.AcquireAt? ==> !Refused(b, op) || b.tokens < 1.0
    ensures op.AcquireAt? && !Refused(b, op) ==> Step(b, op).tokens >= b.tokens - 1.0
  {
    StepSound(b, op);
    if op.AcquireAt? && op.now > b.last {
      Product(op.now - b.last, b.rate);
    }
  }

  /** Tokens in hand are enough for as many acquires. */
  lemma {:induction false} InHand(b: Bucket, ops: seq<Op>)
    requires Sound(b) && Fixed(ops) && Acquires(ops) as real <= b.tokens
    ensures NoneOverRate(b, ops)
    decreases ops
  {
    hide TryAcquire, Step, Sound;
    if ops != [] {
      assert ops[0] in ops;
      FixedStep(b, ops[0]);
      InHand(Step(b, ops[0]), ops[1..]);
      NoneOverRateCons(b, ops);
    }
  }

  lemma FullAfterSecond(b: Bucket, now: real)
    requires Sound(b) && now >= b.last + 1.0
    ensures Refill(b, now) == b.(last := now, tokens := b.burst)
  {
    Product(now - b.last - 1.0, b.rate);
    assert (now - b.last) * b.rate == (now - b.last - 1.0) * b.rate + b.rate;
  }

  /** After one idle second as many acquires as the burst pass, whatever the later clocks read. */
  lemma BurstAfterIdleSecond(b: Bucket, ops: seq<Op>)
    requires Sound(b) && Fixed(ops) && ops != [] && ops[0].AcquireAt? && ops[0].now >= b.last + 1.0
    requires Acquires(ops) as real <= b.burst
    ensures NoneOverRate(b, ops)
  {
    var full := b.(last := ops[0].now, tokens := b.burst);
    FullAfterSecond(b, ops[0].now);
    assert Refill(full, ops[0].now) == full;
    InHand(full, ops);
    forall k | 0 <= k < |ops| && ops[k].AcquireAt? ensures VerdictAt(b, ops, k) == VerdictAt(full, ops, k) {
      if k > 0 {
        assert Step(b, ops[..k][0]) == Step(full, ops[..k][0]);
      }
    }
  }

  // --------------------------------------------------------------------
  // Steady calls
  // --------------------------------------------------------------------

  /** Every acquire comes no earlier than `earliest`, and `gap` or more after the one before. */
  predicate Spaced(ops: seq<Op>, earliest: real, gap: real) {
    if ops == [] then true
    else if ops[0].AcquireAt? then ops[0].now >= earliest && Spaced(ops[1..], ops[0].now + gap, gap)
    else Spaced(ops[1..], earliest, gap)
  }

  /** By `earliest` the bucket has paid in a token. */
  predicate Ready(b: Bucket, earliest: real)
    requires 1.0 <= b.rate
  {
    b.last <= earliest && (b.tokens >= 1.0 || earliest >= b.last + 1.0 / b.rate)
  }

  lemma ReadyStep(b: Bucket, op: Op, earliest: real)
    requires Sound(b) && 1.0 <= b.rate && !op.Reconfigure? && Ready(b, earliest)
    requires op.AcquireAt? ==> op.now >= earliest
    ensures !Refused(b, op) && Ready(Step(b, op), if op.AcquireAt? then op.now + 1.0 / b.rate else earliest)
  {
    FixedStep(b, op);
    if op.AcquireAt? && b.tokens < 1.0 {
      AdmittedAfterWait(b, op.now);
    }
    assert 1.0 / b.rate >= 0.0;
    hide TryAcquire, Step;
  }

  lemma {:induction false} SpacedFrom(b: Bucket, ops: seq<Op>, earliest: real)
    requires Sound(b) && 1.0 <= b.rate && Fixed(ops) && Ready(b, earliest) && Spaced(ops, earliest, 1.0 / b.rate)
    ensures NoneOverRate(b, ops)
    decreases ops
  {
    hide TryAcquire, Step, Ready, Sound;
    if ops != [] {
      assert ops[0] in ops;
      FixedStep(b, ops[0]);
      ReadyStep(b, ops[0], earliest);
      SpacedFrom(Step(b, ops[0]), ops[1..], if ops[0].AcquireAt? then ops[0].now + 1.0 / b.rate else earliest);
      NoneOverRateCons(b, ops);
    }
  }

  /** Calls spaced by one token's worth of time are never refused for rate. */
  lemma SpacedCallsPass(l: Limits, start: real, ops: seq<Op>)
    requires l.dialsPerSecond >= 1 && Fixed(ops) && Spaced(ops, start, 1.0 / (l.dialsPerSecond as real))
    ensures NoneOverRate(New(l, start), ops)
  {
    SpacedFrom(New(l, start), ops, start);
  }

  // --------------------------------------------------------------------
  // Exactly when a call is refused for rate
  // --------------------------------------------------------------------

  /** The latest clock reading up to the k-th operation, as the limiter sees time. */
  function Clock(ops: seq<Op>, start: real, k: nat): real
    requires k <= |ops|
  {
    Latest(ops[..k], start)
  }

  /** Tokens spent by the operations from `j` up to `k`. */
  function SpentBetween(b: Bucket, ops: seq<Op>, j: nat, k: nat): nat
    requires j <= k <= |ops|
  {
    Spent(Run(b, ops[..j]), ops[j..k])
  }

  lemma RunOne(b: Bucket, ops: seq<Op>, k: nat)
    requires k < |ops|
    ensures Run(b, ops[..k + 1]) == Step(Run(b, ops[..k]), ops[k])
  {
    hide Step;
    assert ops[..k + 1] == ops[..k] + [ops[k]];
    RunAppend(b, ops[..k], [ops[k]]);
    assert [ops[k]][1..] == [];
  }

  lemma {:induction false} SpentAppend(b: Bucket, ops: seq<Op>, op: Op)
    ensures Spent(b, ops + [op]) == Spent(b, ops) + if Spends(Run(b, ops), op) then 1 else 0
    decreases ops
  {
    hide Step, Spends;
    if ops == [] {
      assert (ops + [op])[1..] == [];
    } else {
      assert (ops + [op])[0] == ops[0] && (ops + [op])[1..] == ops[1..] + [op];
      SpentAppend(Step(b, ops[0]), ops[1..], op);
    }
  }

  lemma SpentOne(b: Bucket, ops: seq<Op>, j: nat, k: nat)
    requires j <= k < |ops|
    ensures SpentBetween(b, ops, j, k + 1) ==
            SpentBetween(b, ops, j, k) + if Spends(Run(b, ops[..k]), ops[k]) then 1 else 0
  {
    assert ops[j..k + 1] == ops[j..k] + [ops[k]] && ops[..j] + ops[j..k] == ops[..k];
    SpentAppend(Run(b, ops[..j]), ops[j..k], ops[k]);
    RunAppend(b, ops[..j], ops[j..k]);
  }

  lemma {:induction false} FixedRun(b: Bucket, ops: seq<Op>, k: nat)
    requires Sound(b) && Fixed(ops) && k <= |ops|
    ensures Sound(Run(b, ops[..k])) && Run(b, ops[..k]).rate == b.rate
    ensures Run(b, ops[..k]).last == Clock(ops, b.last, k)
  {
    hide Step, TryAcquire, Sound;
    if k > 0 {
      FixedRun(b, ops, k - 1);
      RunOne(b, ops, k - 1);
      FixedStep(Run(b, ops[..k - 1]), ops[k - 1]);
      assert ops[..k] == ops[..k - 1] + [ops[k - 1]];
      LatestAppend(ops[..k - 1], ops[k - 1], b.last);
    }
  }

  lemma {:induction false} LatestAppend(ops: seq<Op>, op: Op, floor: real)
    ensures Latest(ops + [op], floor) ==
            if op.AcquireAt? then MaxReal(Latest(ops, floor), op.now) else Latest(ops, floor)
  {
    if ops == [] {
      assert (ops + [op])[1..] == [];
    } else {
      assert (ops + [op])[0] == ops[0] && (ops + [op])[1..] == ops[1..] + [op];
      LatestAppend(ops[1..], op, floor);
    }
  }

  /** What a full bucket and the time from `from` to `to` pay for. */
  function Pays(rate: real, from: real, to: real): real {
    rate * (1.0 + (to - from))
  }

  /** What the bucket holds at `k` is what the time since `j` paid for, `j` having found it full. */
  predicate PaidSince(b: Bucket, ops: seq<Op>, j: nat, k: nat)
    requires j < k <= |ops|
  {
    && ops[j].AcquireAt?
    && Run(b, ops[..k]).tokens ==
         Pays(b.rate, Clock(ops, b.last, j + 1), Clock(ops, b.last, k)) - SpentBetween(b, ops, j, k) as real
  }

  /** One more call on a bucket that was not full: the time paid in, less the token. */
  lemma PaidOn(b: Bucket, op: Op, held: real, from: real)
    requires Sound(b) && !op.Reconfigure? && b.tokens == Pays(b.rate, from, b.last) - held
    requires op.AcquireAt? ==> Refill(b, op.now).tokens < b.burst
    ensures Step(b, op).tokens == Pays(b.rate, from, Step(b, op).last) - held - if Spends(b, op) then 1.0 else 0.0
  {
    if op.AcquireAt? && op.now > b.last {
      assert b.rate * (1.0 + (b.last - from)) + (op.now - b.last) * b.rate == b.rate * (1.0 + (op.now - from));
    }
  }

  lemma FullStep(b: Bucket, op: Op)
    requires Sound(b) && 1.0 <= b.rate && op.AcquireAt? && Refill(b, op.now).tokens == b.burst
    ensures Spends(b, op) && Step(b, op).tokens == b.burst - 1.0
  {
  }

  lemma StaysFull(b: Bucket, now: real)
    requires Sound(b) && b.tokens == b.burst
    ensures Refill(b, now).tokens == b.burst
  {
    if now > b.last {
      Product(now - b.last, b.rate);
    }
  }

  /** A call that finds the bucket full starts the account afresh. */
  lemma PaidAfresh(b: Bucket, ops: seq<Op>, m: nat)
    requires Sound(b) && 1.0 <= b.rate && b.rate == b.burst && Fixed(ops) && m < |ops| && ops[m].AcquireAt?
    requires Run(b, ops[..m]).burst == b.burst && Refill(Run(b, ops[..m]), ops[m].now).tokens == b.burst
    ensures PaidSince(b, ops, m, m + 1)
  {
    FixedRun(b, ops, m);
    RunOne(b, ops, m);
    SpentOne(b, ops, m, m);
    assert SpentBetween(b, ops, m, m) == 0;
    FullStep(Run(b, ops[..m]), ops[m]);
    hide Run, Step, TryAcquire, Spends, SpentBetween, Clock, Sound, Refill, Fixed;
    assert Pays(b.rate, Clock(ops, b.last, m + 1), Clock(ops, b.last, m + 1)) == b.rate;
  }

  lemma PaidNow(b: Bucket, ops: seq<Op>, j: nat, m: nat, held: nat)
    requires Sound(b) && Fixed(ops) && j < m < |ops| && ops[j].AcquireAt? && held == SpentBetween(b, ops, j, m)
    requires var at, op := Run(b, ops[..m]), ops[m];
             Step(at, op).tokens == Pays(b.rate, Clock(ops, b.last, j + 1), Step(at, op).last) - held as real
               - if Spends(at, op) then 1.0 else 0.0
    ensures PaidSince(b, ops, j, m + 1)
  {
    hide Pays, Run, Step, TryAcquire, Spends, SpentBetween, Clock, Sound, Refill, Fixed, Spent, Latest;
    RunOne(b, ops, m);
    FixedRun(b, ops, m + 1);
    SpentOne(b, ops, j, m);
  }

  lemma PaidExtends(b: Bucket, ops: seq<Op>, j: nat, m: nat)
    requires Sound(b) && 1.0 <= b.rate && Fixed(ops) && j < m < |ops| && PaidSince(b, ops, j, m)
    requires Run(b, ops[..m]).burst == b.burst
    requires ops[m].AcquireAt? ==> Refill(Run(b, ops[..m]), ops[m].now).tokens < b.burst
    ensures PaidSince(b, ops, j, m + 1)
  {
    var at, op := Run(b, ops[..m]), ops[m];
    var held, from := SpentBetween(b, ops, j, m), Clock(ops, b.last, j + 1);
    assert at.tokens == Pays(b.rate, from, Clock(ops, b.last, m)) - held as real && op in ops;
    hide *;
    FixedRun(b, ops, m);
    assert Step(at, op).tokens == Pays(b.rate, from, Step(at, op).last) - held as real
        - if Spends(at, op) then 1.0 else 0.0 by {
      PaidOn(at, op, held as real, from);
    }
    PaidNow(b, ops, j, m, held);
  }

  /** Where the bucket was last found full by an acquire; `k` when none has come yet. */
  lemma {:induction false} LastFull(b: Bucket, ops: seq<Op>, k: nat) returns (j: nat)
    requires Sound(b) && 1.0 <= b.rate && b.tokens == b.burst && Fixed(ops) && k <= |ops|
    ensures j <= k && if j == k then Run(b, ops[..k]).tokens == b.burst else PaidSince(b, ops, j, k)
  {
    if k == 0 {
      return 0;
    }
    var m, at, op := k - 1, Run(b, ops[..k - 1]), ops[k - 1];
    j := LastFull(b, ops, m);
    FixedRun(b, ops, m);
    RunOne(b, ops, m);
    FixedStep(at, op);
    assert op in ops && at.burst == b.burst;
    if op.AcquireAt? && j == m {
      StaysFull(at, op.now);
    }
    assert op.AcquireAt? ==> Refill(at, op.now).tokens <= b.burst by {
      hide Run, Step, Spends, Fixed, PaidSince;
    }
    hide *;
    if !op.AcquireAt? && j == m {
      j := k;
    } else if op.AcquireAt? && Refill(at, op.now).tokens == b.burst {
      PaidAfresh(b, ops, m);
      j := m;
    } else {
      PaidExtends(b, ops, j, m);
    }
  }

  // --------------------------------------------------------------------

  /** The time since the acquire at `j` would not pay for what was spent and one token more. */
  predicate Overspends(b: Bucket, ops: seq<Op>, j: nat, k: nat)
    requires j < k < |ops| && ops[k].AcquireAt?
  {
    SpentBetween(b, ops, j, k) as real + 1.0 >
      Pays(b.rate, Clock(ops, b.last, j + 1), Clock(ops, b.last, k + 1))
  }

  /** No block ending in a call that passed for rate costs more than the time pays. */
  lemma PassedIsPaid(b: Bucket, ops: seq<Op>, j: nat, k: nat)
    requires Sound(b) && Fixed(ops) && j < k < |ops| && ops[j].AcquireAt? && ops[k].AcquireAt?
    requires !VerdictAt(b, ops, k).OverRate?
    ensures !Overspends(b, ops, j, k)
  {
    SpentOne(b, ops, j, k);
    BlockPaid(b, ops, j, k + 1);
  }

  lemma {:induction false} FixedPeak(b: Bucket, ops: seq<Op>)
    requires Sound(b) && Fixed(ops)
    ensures PeakRate(b, ops) <= b.rate
    decreases ops
  {
    assert b.rate >= 0.0;
    hide TryAcquire, Step, Sound;
    if ops != [] {
      assert ops[0] in ops;
      FixedStep(b, ops[0]);
      FixedPeak(Step(b, ops[0]), ops[1..]);
    }
  }

  lemma BlockPaid(b: Bucket, ops: seq<Op>, j: nat, k: nat)
    requires Sound(b) && Fixed(ops) && j < k <= |ops| && ops[j].AcquireAt?
    ensures SpentBetween(b, ops, j, k) as real <=
            Pays(b.rate, Clock(ops, b.last, j + 1), Clock(ops, b.last, k))
  {
    var from, to := Clock(ops, b.last, j + 1), Clock(ops, b.last, k);
    var at, after, rest := Run(b, ops[..j]), Run(b, ops[..j + 1]), ops[j + 1..k];
    FixedRun(b, ops, j);
    FixedRun(b, ops, j + 1);
    RunOne(b, ops, j);
    StepSound(at, ops[j]);
    assert ops[..k] == ops[..j + 1] + rest && ops[j..k][1..] == rest && ops[j..k][0] == ops[j];
    assert Spent(at, ops[j..k]) == (if Spends(at, ops[j]) then 1 else 0) + Spent(after, rest);
    assert Fixed(rest) && NonNegative(rest) && 0.0 <= b.rate;
    hide *;
    LatestSplit(ops[..j + 1], rest, b.last);
    LatestRaise(rest, from, from);
    LatestRaise(rest, from, to);
    FixedPeak(after, rest);
    OnePaid(after, rest, b.rate, from, to, if Spends(at, ops[j]) then 1 else 0);
  }

  lemma OnePaid(after: Bucket, rest: seq<Op>, rate: real, from: real, to: real, first: nat)
    requires Sound(after) && NonNegative(rest) && 0.0 <= rate && PeakRate(after, rest) <= rate
    requires after.last == from <= to && Latest(rest, to) <= to && first as real + after.tokens <= rate
    ensures (first + Spent(after, rest)) as real <= Pays(rate, from, to)
  {
    hide Spent, Run, Step, TryAcquire, Sound, Latest, Spends, PeakRate, NonNegative;
    TailSpend(after, rest, rate, to);
    Combine(first as real, Spent(after, rest) as real, after.tokens, rate, to - from);
  }

  lemma {:induction false} LatestSplit(p: seq<Op>, q: seq<Op>, floor: real)
    ensures Latest(p + q, floor) == Latest(q, Latest(p, floor))
  {
    if p == [] {
      assert p + q == q;
    } else {
      assert (p + q)[0] == p[0] && (p + q)[1..] == p[1..] + q;
      LatestSplit(p[1..], q, floor);
      if p[0].AcquireAt? {
        LatestRaise(q, Latest(p[1..], floor), Latest(p, floor));
      }
    }
  }

  /** A refused call found a bucket that the time since it was last full had not refilled. */
  lemma RefusedOverspends(b: Bucket, ops: seq<Op>, k: nat) returns (j: nat)
    requires Sound(b) && 1.0 <= b.rate && b.tokens == b.burst && Fixed(ops) && k < |ops| && ops[k].AcquireAt?
    requires VerdictAt(b, ops, k).OverRate?
    ensures j < k && ops[j].AcquireAt? && Overspends(b, ops, j, k)
  {
    var at := Run(b, ops[..k]);
    FixedRun(b, ops, k);
    FixedRun(b, ops, k + 1);
    RunOne(b, ops, k);
    assert ops[k] in ops;
    assert Refill(at, ops[k].now).tokens < 1.0 && !Spends(at, ops[k]);
    j := LastFull(b, ops, k);
    if j == k {
      StaysFull(at, ops[k].now);
    }
    PaidExtends(b, ops, j, k);
    SpentOne(b, ops, j, k);
    assert Step(at, ops[k]).tokens < 1.0;
    hide Run, Step, TryAcquire, Spends, SpentBetween, Clock, Sound, Refill, Fixed;
  }

  /**
   Under fixed limits, in any clock order, a call is refused for rate exactly when
   some earlier acquire starts a block whose spending, with one token more, the
   time since would not pay for: the limiter grants all that the bound allows.
   */
  lemma RefusedExactly(l: Limits, start: real, ops: seq<Op>, k: nat)
    requires l.dialsPerSecond >= 1 && Fixed(ops) && k < |ops| && ops[k].AcquireAt?
    ensures var b := New(l, start);
            VerdictAt(b, ops, k).OverRate? <==>
            exists j :: 0 <= j < k && ops[j].AcquireAt? && Overspends(b, ops, j, k)
  {
    var b := New(l, start);
    assert Sound(b) && 1.0 <= b.rate && b.tokens == b.burst;
    hide VerdictAt, Overspends, New, Sound;
    if VerdictAt(b, ops, k).OverRate? {
      var j := RefusedOverspends(b, ops, k);
    } else {
      forall j | 0 <= j < k && ops[j].AcquireAt? ensures !Overspends(b, ops, j, k) {
        PassedIsPaid(b, ops, j, k);
      }
    }
  }

  // --------------------------------------------------------------------
  // Slots
  // --------------------------------------------------------------------

  /** The limits last applied. */
  function LimitsAfter(l: Limits, ops: seq<Op>): Limits {
    if ops == [] then l
    else if ops[|ops| - 1].Reconfigure? then ops[|ops| - 1].l
    else LimitsAfter(l, ops[..|ops| - 1])
  }

  /** Slots admitted and not yet given back. */
  function Held(b: Bucket, ops: seq<Op>, k: nat): int
    requires k <= |ops|
  {
    if k == 0 then 0
    else
      var held := Held(b, ops, k - 1);
      match ops[k - 1]
      case AcquireAt(_) => if VerdictAt(b, ops, k - 1).Admitted? then held + 1 else held
      case ReleaseSlot => if held > 0 then held - 1 else held
      case Reconfigure(_) => held
  }

  lemma StepLimits(b: Bucket, op: Op)
    ensures var b' := Step(b, op);
            if op.Reconfigure? then
              b'.maxConcurrent == op.l.maxConcurrent && b'.rate == b'.burst == op.l.dialsPerSecond as real
            else b'.maxConcurrent == b.maxConcurrent && b'.rate == b.rate && b'.burst == b.burst
    ensures Step(b, op).active ==
            match op
            case AcquireAt(now) => if TryAcquire(b, now).1.Admitted? then b.active + 1 else b.active
            case ReleaseSlot => if b.active > 0 then b.active - 1 else b.active
            case Reconfigure(_) => b.active
  {
  }

  /** At every point of a run the limits last applied are in force, and the counter is the slots held. */
  lemma {:induction false} LimitsInForce(l: Limits, start: real, ops: seq<Op>, k: nat)
    requires k <= |ops|
    ensures var b := Run(New(l, start), ops[..k]);
            && b.maxConcurrent == LimitsAfter(l, ops[..k]).maxConcurrent
            && b.rate == b.burst == LimitsAfter(l, ops[..k]).dialsPerSecond as real
            && b.active == Held(New(l, start), ops, k)
  {
    hide Step, TryAcquire;
    if k > 0 {
      LimitsInForce(l, start, ops, k - 1);
      RunOne(New(l, start), ops, k - 1);
      StepLimits(Run(New(l, start), ops[..k - 1]), ops[k - 1]);
      assert ops[..k][..k - 1] == ops[..k - 1];
    }
  }

  /** A call not refused for rate is admitted exactly while fewer slots are held than the cap last applied. */
  lemma ConcurrencyExactly(l: Limits, start: real, ops: seq<Op>, k: nat)
    requires k < |ops| && ops[k].AcquireAt? && !VerdictAt(New(l, start), ops, k).OverRate?
    ensures VerdictAt(New(l, start), ops, k).Admitted? <==>
              Held(New(l, start), ops, k) < LimitsAfter(l, ops[..k]).maxConcurrent
  {
    LimitsInForce(l, start, ops, k);
  }
}
