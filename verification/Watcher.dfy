/**
 The peers-file watcher: one reload attempt on its own fields, and the race
 between file writes and the attempt's stat, read and commit.
 */
module Watcher {
  import opened Prelude
  import opened Peers
  import opened Reload

  /** Size and modification time; all zero when the file cannot be examined. */
  datatype FileID = FileID(size: int, modTime: int)

  const ZERO := FileID(0, 0)

  datatype Outcome = Outcome(failed: bool, peerCount: nat, diff: Diff)

  class PeerWatcher {
    var cur: PeersConfig
    var seen: FileID

    constructor (id: FileID, cfg: PeersConfig)
      ensures cur == cfg && seen == id
    {
      cur, seen := cfg, id;
    }

    /** `id` was taken before the load was attempted. A failed load keeps the list in force. */
    method ReloadLocked(id: FileID, loaded: Option<PeersConfig>) returns (r: Outcome)
      modifies this
      ensures seen == id
      ensures loaded.None? ==> cur == old(cur) && r == Outcome(true, |old(cur).peers|, Diff([], [], []))
      ensures loaded.Some? ==>
                && cur == loaded.value
                && r == Outcome(false, |cur.peers|, DiffOf(old(cur).peers, cur.peers))
      ensures loaded.Some? && Distinct(cur.peers) ==> Patch(ByKey(old(cur).peers), r.diff) == ByKey(cur.peers)
    {
      if loaded.None? {
        seen := id;
        return Outcome(true, |cur.peers|, Diff([], [], []));
      }
      var prev := cur;
      var diff := DiffPeers(prev.peers, loaded.value.peers);
      cur := loaded.value;
      seen := id;
      if Distinct(cur.peers) {
        PatchYieldsNext(prev.peers, cur.peers);
      }
      return Outcome(false, |cur.peers|, diff);
    }
  }

  // --------------------------------------------------------------------
  // Writers against the load attempts
  // --------------------------------------------------------------------

  datatype File = Missing | Present(version: nat)

  /** `dirty` says the file was replaced or deleted since the stat; `got` is none when the read failed. */
  datatype Pc = Idle | Statted(id: FileID, dirty: bool) | Loaded(id: FileID, got: Option<File>) | NotStarted

  /**
   `lastRead` is what the last attempt read, none when its read failed, and
   `inForce` the last version that loaded: none until the first attempt succeeds,
   without which there is no watcher.
   */
  datatype State = State(file: File, pc: Pc, seen: FileID, lastRead: Option<File>, inForce: Option<nat>)

  /** `Write` puts any version in the file's place, one that was there before included. */
  datatype Step =
    | Write(version: nat) | Delete
    | StatFile | StatFails | ReadFile | ReadMixed(content: nat) | ReadFails | Commit

  /** Which versions have which identity, and which contents are valid lists. */
  datatype Disk = Disk(idOf: nat -> FileID, valid: nat -> bool)

  ghost predicate DistinctIDs(d: Disk) {
    (forall u, v :: d.idOf(u) == d.idOf(v) ==> u == v) && forall v :: d.idOf(v) != ZERO
  }

  function Stat(d: Disk, f: File): FileID {
    if f.Missing? then ZERO else d.idOf(f.version)
  }

  predicate Enabled(s: State, a: Step) {
    match a
    case Write(v) => s.file != Present(v)
    case Delete => true
    case StatFile | StatFails => s.pc.Idle?
    case ReadFile | ReadFails => s.pc.Statted?
    // A read overtaken by a write may see some of either.
    case ReadMixed(_) => s.pc.Statted? && s.pc.dirty
    case Commit => s.pc.Loaded?
  }

  function Touched(pc: Pc): Pc {
    if pc.Statted? then pc.(dirty := true) else pc
  }

  function Next(d: Disk, s: State, a: Step): State
    requires Enabled(s, a)
  {
    match a
    case Write(v) => s.(file := Present(v), pc := Touched(s.pc))
    case Delete => s.(file := Missing, pc := Touched(s.pc))
    case StatFile => s.(pc := Statted(Stat(d, s.file), false))
    case StatFails => s.(pc := Statted(ZERO, false))
    case ReadFile => s.(pc := Loaded(s.pc.id, Some(s.file)))
    case ReadMixed(content) => s.(pc := Loaded(s.pc.id, Some(Present(content))))
    case ReadFails => s.(pc := Loaded(s.pc.id, None))
    case Commit =>
      var got := s.pc.got;
      var good := got.Some? && got.value.Present? && d.valid(got.value.version);
      // A first attempt that fails ends the program.
      if !good && s.inForce.None? then s.(pc := NotStarted)
      else s.(pc := Idle, seen := s.pc.id, lastRead := got, inForce := if good then Some(got.value.version)
        else s.inForce)
  }

  /** Before the first attempt. */
  function Start(f: File): State {
    State.State(f, Idle, ZERO, None, None)
  }

  predicate Legal(d: Disk, s: State, run: seq<Step>)
    decreases |run|, 0
  {
    run == [] || (Legal(d, s, run[..|run| - 1]) && Enabled(After(d, s, run[..|run| - 1]), run[|run| - 1]))
  }

  function After(d: Disk, s: State, run: seq<Step>): State
    requires Legal(d, s, run)
    decreases |run|, 1
  {
    if run == [] then s else Next(d, After(d, s, run[..|run| - 1]), run[|run| - 1])
  }

  /** No attempt is under way on a watcher that has started. */
  predicate AtRest(s: State) {
    s.pc.Idle? && s.inForce.Some?
  }

  // --------------------------------------------------------------------
  // Versions put back
  // --------------------------------------------------------------------

  /** The file becomes a version again that the attempt under way, or the last one, examined. */
  predicate PutsBack(d: Disk, s: State, a: Step) {
    a.Write? && (s.seen == d.idOf(a.version) || ((s.pc.Statted? || s.pc.Loaded?) && s.pc.id == d.idOf(a.version)))
  }

  /** Only versions that may return are put back in the run. */
  predicate OnlyReturn(d: Disk, s: State, run: seq<Step>, mayReturn: nat -> bool)
    requires Legal(d, s, run)
  {
    run == []
    || (var before, a := run[..|run| - 1], run[|run| - 1];
        OnlyReturn(d, s, before, mayReturn) && (PutsBack(d, After(d, s, before), a) ==> mayReturn(a.version)))
  }

  /** What holds of a version `v` that is never put back. */
  predicate Inv(d: Disk, s: State, v: nat) {
    && (s.file == Present(v) && s.seen == d.idOf(v) && s.lastRead.Some? ==> s.lastRead == Some(s.file))
    && (s.file == Present(v) && s.pc.Statted? && s.pc.dirty ==> s.pc.id != d.idOf(v))
    && (s.file == Present(v) && s.pc.Loaded? && s.pc.id == d.idOf(v) && s.pc.got.Some? ==> s.pc.got == Some(s.file))
    && (s.lastRead == Some(Present(v)) && d.valid(v) ==> s.inForce == Some(v))
  }

  lemma StepInv(d: Disk, s: State, a: Step, v: nat)
    requires DistinctIDs(d) && Inv(d, s, v) && Enabled(s, a)
    requires PutsBack(d, s, a) ==> a.version != v
    ensures Inv(d, Next(d, s, a), v)
  {
  }

  lemma {:induction false} RunInv(d: Disk, f: File, run: seq<Step>, mayReturn: nat -> bool, v: nat)
    requires DistinctIDs(d) && Legal(d, Start(f), run) && OnlyReturn(d, Start(f), run, mayReturn) && !mayReturn(v)
    ensures Inv(d, After(d, Start(f), run), v)
    decreases |run|
  {
    if run != [] {
      var before, a := run[..|run| - 1], run[|run| - 1];
      RunInv(d, f, before, mayReturn, v);
      StepInv(d, After(d, Start(f), before), a, v);
    }
  }

  // --------------------------------------------------------------------
  // When an identity that looks current can be trusted
  // --------------------------------------------------------------------

  /**
   At rest with the recorded identity current, the last attempt read what is
   there now. Identities of files that could be examined can be trusted, because
   they are taken before the read, as long as that read did not fail and the
   version in the file is not one that may be put back.
   */
  lemma IdentityTrusted(d: Disk, f: File, run: seq<Step>, mayReturn: nat -> bool)
    requires DistinctIDs(d) && Legal(d, Start(f), run) && OnlyReturn(d, Start(f), run, mayReturn)
    requires var s := After(d, Start(f), run);
             AtRest(s) && Stat(d, s.file) == s.seen && s.seen != ZERO && s.lastRead.Some? && !mayReturn(s.file.version)
    ensures var s := After(d, Start(f), run);
            && s.lastRead == Some(s.file) && s.file.Present?
            && (d.valid(s.file.version) ==> s.inForce == Some(s.file.version))
  {
    RunInv(d, f, run, mayReturn, After(d, Start(f), run).file.version);
  }

  /**
   Over every run that puts back only versions that may return: whenever `id`
   looks current after an attempt whose read succeeded or failed as `readOk` says.
   */
  ghost predicate Trustworthy(d: Disk, id: FileID, readOk: bool, mayReturn: nat -> bool) {
    forall f, run :: Legal(d, Start(f), run) && OnlyReturn(d, Start(f), run, mayReturn) ==>
      var s := After(d, Start(f), run);
      AtRest(s) && s.seen == id && Stat(d, s.file) == id && s.lastRead.Some? == readOk ==> s.lastRead == Some(s.file)
  }

  lemma Extend(d: Disk, s: State, run: seq<Step>, a: Step, mayReturn: nat -> bool)
    requires Legal(d, s, run) && OnlyReturn(d, s, run, mayReturn) && Enabled(After(d, s, run), a)
    requires PutsBack(d, After(d, s, run), a) ==> mayReturn(a.version)
    ensures Legal(d, s, run + [a]) && OnlyReturn(d, s, run + [a], mayReturn)
    ensures After(d, s, run + [a]) == Next(d, After(d, s, run), a)
  {
    assert (run + [a])[..|run|] == run;
  }

  /** A watcher started on a valid version `u`, with `v` since put in its place. */
  lemma Started(d: Disk, u: nat, v: nat, mayReturn: nat -> bool) returns (run: seq<Step>)
    requires DistinctIDs(d) && d.valid(u)
    ensures Legal(d, Start(Present(u)), run) && OnlyReturn(d, Start(Present(u)), run, mayReturn)
    ensures After(d, Start(Present(u)), run) == State.State(Present(v), Idle, d.idOf(u), Some(Present(u)), Some(u))
  {
    var s := Start(Present(u));
    Extend(d, s, [], StatFile, mayReturn);
    Extend(d, s, [] + [StatFile], ReadFile, mayReturn);
    Extend(d, s, [] + [StatFile] + [ReadFile], Commit, mayReturn);
    run := [] + [StatFile] + [ReadFile] + [Commit];
    if v != u {
      Extend(d, s, run, Write(v), mayReturn);
      run := run + [Write(v)];
    }
  }

  /**
   A running watcher goes blind on any version `v` when the stat succeeds and
   the read fails: the identity is recorded and current, nothing was read, and
   an earlier list stays in force.
   */
  lemma FailedReadBlindSpot(d: Disk, u: nat, v: nat, mayReturn: nat -> bool) returns (run: seq<Step>)
    requires DistinctIDs(d) && d.valid(u)
    ensures Legal(d, Start(Present(u)), run) && OnlyReturn(d, Start(Present(u)), run, mayReturn)
    ensures var s := After(d, Start(Present(u)), run);
            && AtRest(s) && s.file == Present(v) && s.seen == Stat(d, s.file) != ZERO
            && s.lastRead == None && s.inForce == Some(u)
  {
    var s := Start(Present(u));
    run := Started(d, u, v, mayReturn);
    hide Legal, After, OnlyReturn;
    Extend(d, s, run, StatFile, mayReturn);
    Extend(d, s, run + [StatFile], ReadFails, mayReturn);
    Extend(d, s, run + [StatFile] + [ReadFails], Commit, mayReturn);
    run := run + [StatFile] + [ReadFails] + [Commit];
  }

  /**
   It goes blind on a version `v` that may return when another one, `w`, takes its
   place between the stat and the read and `v` is put back with its identity.
   */
  lemma RestoredVersionBlindSpot(d: Disk, u: nat, v: nat, w: nat, mayReturn: nat -> bool) returns (run: seq<Step>)
    requires DistinctIDs(d) && d.valid(u) && mayReturn(v) && w != u && w != v
    ensures Legal(d, Start(Present(u)), run) && OnlyReturn(d, Start(Present(u)), run, mayReturn)
    ensures var s := After(d, Start(Present(u)), run);
            && AtRest(s) && s.file == Present(v) && s.seen == Stat(d, s.file) != ZERO
            && s.lastRead == Some(Present(w)) && s.inForce == Some(if d.valid(w) then w else u)
  {
    var s := Start(Present(u));
    run := Started(d, u, v, mayReturn);
    hide Legal, After, OnlyReturn;
    Extend(d, s, run, StatFile, mayReturn);
    Extend(d, s, run + [StatFile], Write(w), mayReturn);
    run := run + [StatFile] + [Write(w)];
    Extend(d, s, run, ReadFile, mayReturn);
    Extend(d, s, run + [ReadFile], Write(v), mayReturn);
    Extend(d, s, run + [ReadFile] + [Write(v)], Commit, mayReturn);
    run := run + [ReadFile] + [Write(v)] + [Commit];
  }

  /**
   The zero identity cannot be trusted either: a file missing at the stat,
   written before the read and deleted after it leaves a current identity while
   the attempt read a version.
   */
  lemma MissingFileBlindSpot(d: Disk, u: nat, v: nat, mayReturn: nat -> bool) returns (run: seq<Step>)
    requires DistinctIDs(d) && d.valid(u) && v != u
    ensures Legal(d, Start(Present(u)), run) && OnlyReturn(d, Start(Present(u)), run, mayReturn)
    ensures var s := After(d, Start(Present(u)), run);
            AtRest(s) && s.file == Missing && s.seen == Stat(d, s.file) == ZERO && s.lastRead == Some(Present(v))
  {
    var s := Start(Present(u));
    run := Started(d, u, u, mayReturn);
    hide Legal, After, OnlyReturn;
    Extend(d, s, run, Delete, mayReturn);
    Extend(d, s, run + [Delete], StatFile, mayReturn);
    run := run + [Delete] + [StatFile];
    Extend(d, s, run, Write(v), mayReturn);
    Extend(d, s, run + [Write(v)], ReadFile, mayReturn);
    Extend(d, s, run + [Write(v)] + [ReadFile], Commit, mayReturn);
    run := run + [Write(v)] + [ReadFile] + [Commit];
    Extend(d, s, run, Delete, mayReturn);
    run := run + [Delete];
  }

  /** A missing file whose read also failed for another reason. */
  lemma MissingFailedRead(d: Disk, u: nat, mayReturn: nat -> bool) returns (run: seq<Step>)
    requires DistinctIDs(d) && d.valid(u)
    ensures Legal(d, Start(Present(u)), run) && OnlyReturn(d, Start(Present(u)), run, mayReturn)
    ensures var s := After(d, Start(Present(u)), run);
            AtRest(s) && s.file == Missing && s.seen == Stat(d, s.file) == ZERO && s.lastRead == None
  {
    var s := Start(Present(u));
    run := Started(d, u, u, mayReturn);
    hide Legal, After, OnlyReturn;
    Extend(d, s, run, Delete, mayReturn);
    Extend(d, s, run + [Delete], StatFile, mayReturn);
    run := run + [Delete] + [StatFile];
    Extend(d, s, run, ReadFails, mayReturn);
    Extend(d, s, run + [ReadFails], Commit, mayReturn);
    run := run + [ReadFails] + [Commit];
  }

  /**
   Of the identities a running watcher can meet, exactly those of files that
   could be examined, that are never put back, recorded by an attempt whose read
   did not fail, are trustworthy. A watcher runs only if some version is valid.
   */
  lemma TrustworthyExactly(d: Disk, id: FileID, readOk: bool, mayReturn: nat -> bool, u: nat)
    requires DistinctIDs(d) && d.valid(u)
    requires id == ZERO || exists v :: id == d.idOf(v)
    ensures Trustworthy(d, id, readOk, mayReturn) <==>
            id != ZERO && readOk && forall v :: mayReturn(v) ==> d.idOf(v) != id
  {
    if id == ZERO && readOk {
      var run := MissingFileBlindSpot(d, u, u + 1, mayReturn);
    } else if id == ZERO {
      var run := MissingFailedRead(d, u, mayReturn);
    } else if !readOk {
      var v :| id == d.idOf(v);
      var run := FailedReadBlindSpot(d, u, v, mayReturn);
    } else if v :| mayReturn(v) && d.idOf(v) == id {
      var run := RestoredVersionBlindSpot(d, u, v, u + v + 1, mayReturn);
    } else {
      forall f, run | Legal(d, Start(f), run) && OnlyReturn(d, Start(f), run, mayReturn)
                      && var s := After(d, Start(f), run);
                         AtRest(s) && s.seen == id && Stat(d, s.file) == id && s.lastRead.Some? == readOk
        ensures After(d, Start(f), run).lastRead == Some(After(d, Start(f), run).file)
      {
        IdentityTrusted(d, f, run, mayReturn);
      }
    }
  }
}
