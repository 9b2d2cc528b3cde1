/**
 One Dial racing the watchdog that closes its connection when the context ends.

 The watchdog is a context.AfterFunc registration: when the context is done it
 runs once, in its own goroutine, unless stop got there first, and stop reports
 true exactly when it did. Dial cancels the context itself on its way out.
 */
module HelloWatchdog {

  /** The five steps of the exchange: write deadline, request, read deadline, response, status. */
  const EXCHANGE := 5

  datatype Pc =
    | Validating
    | Connecting              // dialControl, between attempts
    | Opened                  // connection established, watchdog not registered
    | Exchanging(done: nat)   // steps of the exchange completed
    | Finishing               // all five done, stop not called
    | Clearing                // stop returned true, deadlines still set
    | Leaving(ok: bool)       // hello's deferred function
    | Discarding              // hello failed, connection to be closed
    | Cancelling(ok: bool)    // Dial's deferred cancel
    | Returned(ok: bool)

  datatype Watchdog = Unset | Registered | Stopped | Started | Ran

  datatype Who = ByWatchdog | ByDial | ByOthers

  /** `stops` counts calls of stop; `closes` is everyone who has closed the connection. */
  datatype State = State(pc: Pc, contextDone: bool, watchdog: Watchdog, stopCalled: bool, stops: nat,
                         connected: bool, deadlines: bool, closes: set<Who>)

  datatype Step =
    // The goroutine running Dial.
    | Reject | Begin | Attempt(ok: bool) | GiveUp | Register
    | Exchange(ok: bool) | Stop | Clear(ok: bool) | Deferred | Discard | Cancel
    // Everyone else.
    | ContextEnds | Fire | WatchdogCloses | OthersClose

  const START := State(Validating, false, Unset, false, 0, false, false, {})

  predicate Enabled(s: State, a: Step) {
    match a
    case Reject | Begin => s.pc.Validating?
    case Attempt(_) => s.pc.Connecting?
    // The budget is spent, or re-resolving failed.
    case GiveUp => s.pc.Connecting?
    case Register => s.pc.Opened?
    // Reads and writes carry deadlines and fail on a closed connection, so a step can always fail.
    case Exchange(_) => s.pc.Exchanging? && s.pc.done < EXCHANGE
    case Stop => s.pc.Finishing?
    case Clear(_) => s.pc.Clearing?
    case Deferred => s.pc.Leaving?
    case Discard => s.pc.Discarding?
    case Cancel => s.pc.Cancelling?
    case ContextEnds => true
    case Fire => s.contextDone && s.watchdog.Registered?
    case WatchdogCloses => s.watchdog.Started?
    case OthersClose => s.connected
  }

  /** What stop does to the watchdog; it reports whether this call kept it from running. */
  function StopWatchdog(w: Watchdog): (Watchdog, bool) {
    if w.Registered? then (Stopped, true) else (w, false)
  }

  function Next(s: State, a: Step): State
    requires Enabled(s, a)
  {
    match a
    case Reject => s.(pc := Returned(false))
    case Begin => s.(pc := Connecting)
    case Attempt(ok) => if ok then s.(pc := Opened, connected := true) else s
    case GiveUp => s.(pc := Cancelling(false))
    case Register => s.(pc := Exchanging(0), watchdog := Registered)
    case Exchange(ok) =>
      if !ok then s.(pc := Leaving(false))
      else
        var n := s.pc.done + 1;
        var t := s.(deadlines := s.deadlines || n == 1 || n == 3);
        if n == EXCHANGE then t.(pc := Finishing, stopCalled := true) else t.(pc := Exchanging(n))
    case Stop =>
      var (w, stopped) := StopWatchdog(s.watchdog);
      s.(watchdog := w, stops := s.stops + 1, pc := if stopped then Clearing else Leaving(false))
    case Clear(ok) => s.(pc := Leaving(ok), deadlines := !ok)
    case Deferred =>
      var t := s.(pc := if s.pc.ok then Cancelling(true) else Discarding);
      if s.stopCalled then t else t.(watchdog := StopWatchdog(s.watchdog).0, stops := s.stops + 1)
    case Discard => s.(pc := Cancelling(false), closes := s.closes + {ByDial})
    case Cancel => s.(pc := Returned(s.pc.ok), contextDone := true)
    case ContextEnds => s.(contextDone := true)
    case Fire => s.(watchdog := Started)
    case WatchdogCloses => s.(watchdog := Ran, closes := s.closes + {ByWatchdog})
    case OthersClose => s.(closes := s.closes + {ByOthers})
  }

  predicate Legal(s: State, run: seq<Step>)
    decreases run
  {
    run == [] || (Enabled(s, run[0]) && Legal(Next(s, run[0]), run[1..]))
  }

  function After(s: State, run: seq<Step>): State
    requires Legal(s, run)
    decreases run
  {
    if run == [] then s else After(Next(s, run[0]), run[1..])
  }

  // --------------------------------------------------------------------
  // Invariant
  // --------------------------------------------------------------------

  /** Has stop been called yet, as far as the program counter tells. */
  predicate StopDone(s: State) {
    match s.pc
    case Clearing | Discarding => true
    case Leaving(_) => s.stopCalled
    case Cancelling(_) | Returned(_) => s.connected
    case _ => false
  }

  predicate Inv(s: State) {
    && (s.watchdog.Unset? <==> s.pc.Opened? || !s.connected)
    && (s.pc.Opened? || s.pc.Exchanging? || s.pc.Finishing? || s.pc.Clearing? || s.pc.Leaving? || s.pc.Discarding? ==>
         s.connected)
    && (s.pc.Validating? || s.pc.Connecting? ==> !s.connected)
    && (s.pc.Exchanging? ==> s.pc.done < EXCHANGE)
    && s.stops == (if StopDone(s) then 1 else 0)
    && (StopDone(s) ==> !s.watchdog.Registered?)
    && (!StopDone(s) ==> !s.watchdog.Stopped?)
    && (s.pc.Validating? || s.pc.Connecting? || s.pc.Opened? || s.pc.Exchanging? ==> !s.stopCalled)
    && (s.pc.Finishing? || s.pc.Clearing? ==> s.stopCalled)
    && (s.pc.Clearing? ==> s.watchdog.Stopped?)
    && (s.pc.Leaving? && s.pc.ok ==> s.stopCalled && s.watchdog.Stopped? && !s.deadlines)
    && ((s.pc.Cancelling? || s.pc.Returned?) && s.pc.ok ==>
         s.connected && s.watchdog.Stopped? && !s.deadlines && ByDial !in s.closes)
    && ((s.pc.Cancelling? || s.pc.Returned?) && !s.pc.ok && s.connected ==> ByDial in s.closes)
    && (!s.pc.Cancelling? && !s.pc.Returned? ==> ByDial !in s.closes)
    && (ByWatchdog in s.closes <==> s.watchdog.Ran?)
  }

  lemma StepInv(s: State, a: Step)
    requires Inv(s) && Enabled(s, a)
    ensures Inv(Next(s, a))
  {}

  lemma {:induction false} RunInv(s: State, run: seq<Step>)
    requires Inv(s) && Legal(s, run)
    ensures Inv(After(s, run))
    decreases run
  {
    if run != [] {
      StepInv(s, run[0]);
      RunInv(Next(s, run[0]), run[1..]);
    }
  }

  lemma {:induction false} RunAppend(s: State, run: seq<Step>, more: seq<Step>)
    requires Legal(s, run) && Legal(After(s, run), more)
    ensures Legal(s, run + more) && After(s, run + more) == After(After(s, run), more)
    decreases run
  {
    if run == [] {
      assert run + more == more;
    } else {
      RunAppend(Next(s, run[0]), run[1..], more);
      assert (run + more)[0] == run[0] && (run + more)[1..] == run[1..] + more;
    }
  }

  lemma {:induction false} ReturnIsFinal(s: State, run: seq<Step>)
    requires Legal(s, run) && s.pc.Returned?
    ensures After(s, run).pc == s.pc
    decreases run
  {
    if run != [] {
      ReturnIsFinal(Next(s, run[0]), run[1..]);
    }
  }

  // --------------------------------------------------------------------
  // Theorems over every interleaving
  // --------------------------------------------------------------------

  /**
   Whatever happens after a successful return, the context's end included, the
   watchdog never closes the connection, nor does Dial, and no deadline is left
   to expire it.
   */
  lemma ReturnedConnectionIsLeftAlone(run: seq<Step>, more: seq<Step>)
    requires Legal(START, run) && After(START, run).pc == Returned(true)
    requires Legal(After(START, run), more)
    ensures var s := After(After(START, run), more);
            s.connected && s.closes <= {ByOthers} && !s.deadlines && !s.watchdog.Started?
  {
    RunAppend(START, run, more);
    RunInv(START, run + more);
    ReturnIsFinal(After(START, run), more);
    var s := After(START, run + more);
    forall w | w in s.closes ensures w == ByOthers {
      assert w.ByWatchdog? || w.ByDial? || w.ByOthers?;
    }
  }

  /** A connection that was opened is closed by Dial unless it is returned. */
  lemma UnreturnedConnectionIsClosed(run: seq<Step>)
    requires Legal(START, run) && After(START, run).pc.Returned?
    ensures var s := After(START, run); s.connected ==> (ByDial in s.closes <==> !s.pc.ok)
  {
    RunInv(START, run);
  }

  /** stop is never called twice, and by the return it was called once if it was ever handed out. */
  lemma StopCalledOnce(run: seq<Step>)
    requires Legal(START, run)
    ensures var s := After(START, run);
            && s.stops <= 1
            && (s.pc.Returned? ==> (s.stops == 1 <==> !s.watchdog.Unset?))
  {
    RunInv(START, run);
  }

  /** Steps Dial still has to make once it stops retrying. */
  function Left(s: State): nat {
    match s.pc
    case Validating => 13
    case Connecting => 12
    case Opened => 11
    case Exchanging(n) => if n <= EXCHANGE then 10 - n else 5
    case Finishing => 5
    case Clearing => 4
    case Leaving(_) => 3
    case Discarding => 2
    case Cancelling(_) => 1
    case Returned(_) => 0
  }

  predicate ByOtherGoroutine(a: Step) {
    a.ContextEnds? || a.Fire? || a.WatchdogCloses? || a.OthersClose?
  }

  /** Every step of Dial but a failed attempt brings it closer to returning, and no other goroutine sets it back. */
  lemma EveryStepAdvances(s: State, a: Step)
    requires Enabled(s, a)
    ensures if ByOtherGoroutine(a) || a == Attempt(false) then Left(Next(s, a)) == Left(s)
              else Left(Next(s, a)) < Left(s)
  {
  }

  /** Once the context has ended Dial can always go on to return, without waiting for anyone. */
  lemma NeverStuck(run: seq<Step>)
    requires Legal(START, run) && After(START, run).contextDone && !After(START, run).pc.Returned?
    ensures exists a :: Enabled(After(START, run), a) && !ByOtherGoroutine(a) && a != Attempt(false)
  {
    RunInv(START, run);
    var s := After(START, run);
    var a := match s.pc
      case Validating => Begin
      case Connecting => GiveUp
      case Opened => Register
      case Exchanging(_) => Exchange(false)
      case Finishing => Stop
      case Clearing => Clear(true)
      case Leaving(_) => Deferred
      case Discarding => Discard
      case _ => Cancel;
    assert Enabled(s, a);
  }

  // --------------------------------------------------------------------
  // When Dial succeeds
  // --------------------------------------------------------------------

  /** How many steps of the exchange completed in a run. */
  function Exchanged(run: seq<Step>): nat {
    if run == [] then 0 else Exchanged(run[..|run| - 1]) + if run[|run| - 1] == Exchange(true) then 1 else 0
  }

  /** stop was called before the watchdog started. */
  predicate StoppedInTime(run: seq<Step>) {
    exists k :: 0 <= k < |run| && run[k] == Stop && Fire !in run[..k]
  }

  /** The exchange went through, the watchdog was stopped in time, and the deadlines were cleared. */
  predicate Complete(run: seq<Step>) {
    Exchanged(run) == EXCHANGE && Exchange(false) !in run && StoppedInTime(run) && Clear(true) in run
  }

  /** What the position says about the run so far. */
  predicate Told(s: State, run: seq<Step>) {
    && (s.watchdog.Unset? || s.watchdog.Registered? ==> Fire !in run)
    && (s.watchdog.Started? || s.watchdog.Ran? ==> Fire in run)
    && (s.pc.Validating? || s.pc.Connecting? || s.pc.Opened? || s.pc.Exchanging? || s.pc.Finishing? ==>
         Stop !in run && Exchange(false) !in run)
    && match s.pc
       case Validating | Connecting | Opened => Exchanged(run) == 0 && Clear(true) !in run
       case Exchanging(n) => Exchanged(run) == n && Clear(true) !in run
       case Finishing => Exchanged(run) == EXCHANGE && Clear(true) !in run
       case Clearing =>
         Exchanged(run) == EXCHANGE && Exchange(false) !in run && StoppedInTime(run) && Clear(true) !in run
       case Leaving(ok) => ok <==> Complete(run)
       case Discarding => !Complete(run)
       case Cancelling(ok) => ok <==> Complete(run)
       case Returned(ok) => ok <==> Complete(run)
  }

  lemma Snoc(run: seq<Step>, a: Step)
    ensures Exchanged(run + [a]) == Exchanged(run) + if a == Exchange(true) then 1 else 0
    ensures forall b :: b in run + [a] <==> b in run || b == a
    ensures StoppedInTime(run + [a]) <==> StoppedInTime(run) || (a == Stop && Fire !in run)
  {
    assert (run + [a])[..|run|] == run;
    if k :| 0 <= k < |run| && run[k] == Stop && Fire !in run[..k] {
      assert (run + [a])[k] == Stop && (run + [a])[..k] == run[..k];
    }
    if k :| 0 <= k < |run + [a]| && (run + [a])[k] == Stop && Fire !in (run + [a])[..k] {
      if k < |run| {
        assert (run + [a])[..k] == run[..k];
      }
    }
    if a == Stop && Fire !in run {
      assert (run + [a])[|run|] == Stop;
    }
  }

  lemma ToldStep(s: State, run: seq<Step>, a: Step)
    requires Inv(s) && Told(s, run) && Enabled(s, a)
    ensures Told(Next(s, a), run + [a])
  {
    Snoc(run, a);
    hide StoppedInTime, Exchanged;
  }

  lemma {:induction false} AllTold(run: seq<Step>)
    requires Legal(START, run)
    ensures Told(After(START, run), run)
    decreases |run|
  {
    if run != [] {
      var before, a := run[..|run| - 1], run[|run| - 1];
      assert run == before + [a];
      Unsnoc(START, before, a);
      AllTold(before);
      RunInv(START, before);
      hide Told, Inv, Enabled, Next;
      ToldStep(After(START, before), before, a);
    }
  }

  lemma {:induction false} Unsnoc(s: State, run: seq<Step>, a: Step)
    requires Legal(s, run + [a])
    ensures Legal(s, run) && Enabled(After(s, run), a) && After(s, run + [a]) == Next(After(s, run), a)
    decreases run
  {
    hide Enabled, Next;
    if run == [] {
      assert (run + [a])[0] == a && (run + [a])[1..] == [];
    } else {
      assert (run + [a])[0] == run[0] && (run + [a])[1..] == run[1..] + [a];
      Unsnoc(Next(s, run[0]), run[1..], a);
    }
  }

  /**
   Dial returns the connection exactly when all five steps of the exchange went through,
   stop came before the watchdog started, and the deadlines were cleared.
   */
  lemma ReturnsExactly(run: seq<Step>)
    requires Legal(START, run) && After(START, run).pc.Returned?
    ensures After(START, run).pc.ok <==> Complete(run)
  {
    AllTold(run);
  }

  lemma Prepend(s: State, a: Step, run: seq<Step>)
    requires Enabled(s, a) && Legal(Next(s, a), run)
    ensures Legal(s, [a] + run) && After(s, [a] + run) == After(Next(s, a), run)
  {
    assert ([a] + run)[0] == a && ([a] + run)[1..] == run;
  }

  /** From the exchange on: all five steps, stop in time, deadlines cleared. */
  lemma FinishesFrom(s: State, n: nat) returns (run: seq<Step>)
    requires s.pc == Exchanging(n) && n < EXCHANGE && s.watchdog.Registered?
    ensures Legal(s, run) && After(s, run).pc == Returned(true)
    decreases EXCHANGE - n
  {
    var s1 := Next(s, Exchange(true));
    if n + 1 < EXCHANGE {
      run := FinishesFrom(s1, n + 1);
    } else {
      var s2 := Next(s1, Stop);
      var s3 := Next(s2, Clear(true));
      var s4 := Next(s3, Deferred);
      assert Legal(Next(s4, Cancel), []);
      Prepend(s4, Cancel, []);
      Prepend(s3, Deferred, [Cancel] + []);
      Prepend(s2, Clear(true), [Deferred] + ([Cancel] + []));
      run := [Stop] + ([Clear(true)] + ([Deferred] + ([Cancel] + [])));
      Prepend(s1, Stop, [Clear(true)] + ([Deferred] + ([Cancel] + [])));
    }
    Prepend(s, Exchange(true), run);
    run := [Exchange(true)] + run;
  }

  /** After any number of failed attempts Dial can still succeed. */
  lemma CanSucceed(before: seq<Step>) returns (more: seq<Step>)
    requires Legal(START, before) && After(START, before).pc.Connecting?
    ensures Legal(After(START, before), more) && After(After(START, before), more).pc == Returned(true)
  {
    RunInv(START, before);
    var s := After(START, before);
    var s1 := Next(s, Attempt(true));
    var rest := FinishesFrom(Next(s1, Register), 0);
    Prepend(s1, Register, rest);
    Prepend(s, Attempt(true), [Register] + rest);
    more := [Attempt(true)] + ([Register] + rest);
  }
}
