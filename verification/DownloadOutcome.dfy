/** When a download ends, said of its workers and of the peers: a silent peer, or peers that all
  * refuse, keep the call for ever (utils/peer2peer.c). */
module DownloadOutcome {
  import opened Wrappers
  import opened Files
  import opened Partition
  import opened Merge
  import opened Download
  import opened DownloadSafety
  import opened DownloadContents
  import opened DownloadTermination

  // ---------- one worker at a time ----------

  predicate OfCoordinator(step: Step) {
    step.Coordinate? || step.Dispatch? || step.Save?
  }

  /** When the coordinator can go on, something is done sooner or later. */
  ghost predicate CoordinatorGoesOn(cat: Catalog, run: nat -> State, sched: nat -> Option<Step>) {
    forall n: nat, step :: CanWork(cat, run(n), step) && OfCoordinator(step) ==>
                             exists m: nat :: n <= m && sched(m).Some?
  }

  ghost predicate TakesStep(sched: nat -> Option<Step>, t: nat, n: nat) {
    exists m: nat :: n <= m && sched(m).Some? && StepOf(sched(m).value, t)
  }

  ghost predicate Waits(run: nat -> State, n: nat, t: nat) {
    t < |run(n).threads| && Active(run(n).threads[t])
  }

  /** Every running worker sooner or later takes a step of its own. */
  ghost predicate WorkersServed(run: nat -> State, sched: nat -> Option<Step>) {
    forall n: nat, t: nat :: Waits(run, n, t) ==> TakesStep(sched, t, n)
  }

  lemma ActiveNotDone(cat: Catalog, s: State, t: nat)
    requires Inv(cat, s) && t < |s.threads| && Active(s.threads[t])
    ensures !s.pc.Done?
  {
  }

  lemma NoStepOf(sched: nat -> Option<Step>, t: nat, n: nat, m: nat)
    requires !TakesStep(sched, t, n) && n <= m && sched(m).Some?
    ensures !StepOf(sched(m).value, t)
  {
  }

  /** A worker that takes no step stays where it is. */
  lemma {:induction false} StaysActive(cat: Catalog, run: nat -> State, sched: nat -> Option<Step>, t: nat, n: nat,
                                       m: nat)
    requires Regular(cat, sched) && IsRun(cat, run, sched)
    requires Inv(cat, run(0)) && Running(cat, run(0))
    requires n <= m && Waits(run, n, t) && !TakesStep(sched, t, n)
    ensures Waits(run, m, t) && !run(m).pc.Done?
    decreases m - n
  {
    hide Inv, Regular, IsRun, Apply, Enabled, TakesStep, StepOf;
    RunInv(cat, run, sched, m);
    if n < m {
      StaysActive(cat, run, sched, t, n, m - 1);
      RunInv(cat, run, sched, m - 1);
      StepAt(cat, run, sched, m - 1);
      if sched(m - 1).Some? {
        RegularAt(cat, sched, m - 1);
        NoStepOf(sched, t, n, m - 1);
        OtherStep(cat, run(m - 1), sched(m - 1).value, t);
      }
    } else {
      ActiveNotDone(cat, run(n), t);
    }
  }

  lemma ServedIsFair(cat: Catalog, run: nat -> State, sched: nat -> Option<Step>)
    requires WorkersServed(run, sched) && CoordinatorGoesOn(cat, run, sched)
    ensures Fair(cat, run, sched)
  {
    forall n: nat, step | CanWork(cat, run(n), step)
      ensures exists m: nat :: n <= m && sched(m).Some?
    {
      if !OfCoordinator(step) {
        var t := step.t;
        assert Waits(run, n, t);
      }
    }
  }

  /** After any history, in a run in which one peer never fails, only finitely many local writes
    * do, and the coordinator goes on, the call ends if and only if every running worker sooner
    * or later takes a step of its own; one worker that waits for ever is enough to keep it. */
  lemma {:induction false} EndsIfServed(cat: Catalog, v: Version, history: seq<Step>, run: nat -> State,
                                        sched: nat -> Option<Step>, p: nat, quiet: nat)
    requires GoodCatalog(cat) && CanRun(cat, Start(v), history)
    requires run(0) == Run(cat, Start(v), history) && Running(cat, run(0))
    requires IsRun(cat, run, sched) && CoordinatorGoesOn(cat, run, sched)
    requires p < run(0).peers && forall k: nat :: Running(cat, run(k)) ==> p < |run(k).flags| && run(k).flags[p] != Dead
    requires forall k :: quiet <= k ==> WritesAt(sched, k)
    ensures (exists k: nat :: run(k).pc.Done?) <==> WorkersServed(run, sched)
  {
    hide Inv, CanWork, Fair, IsRun, GoodCatalog, Run, CanRun, CoordinatorGoesOn, Running;
    RunKeeps(cat, Start(v), history);
    DownloadTerminates(cat, v, history, run, sched, p, quiet);
    if WorkersServed(run, sched) {
      ServedIsFair(cat, run, sched);
    }
    if k: nat :| run(k).pc.Done? {
      forall n: nat, t: nat | Waits(run, n, t)
        ensures TakesStep(sched, t, n)
      {
        if !TakesStep(sched, t, n) {
          if k <= n {
            DoneStays(cat, run, sched, k, n);
            StaysActive(cat, run, sched, t, n, n);
          } else {
            StaysActive(cat, run, sched, t, n, k);
          }
        }
      }
    }
  }

  // ---------- what the peers do ----------

  /** A peer that has a file of the name, with these bytes, and sends from it; one that accepts
    * connections but has no such file, and so neither sends nor closes; one that cannot be
    * reached. */
  datatype PeerKind = Serves(bytes: seq<byte>) | Silent | Refuses

  /** The bytes of a step, if any, are those the worker asked for, read from this file. */
  predicate SentFrom(bytes: seq<byte>, th: Thread, step: Step) {
    (step.Block? || step.Abort?) && th.phase.Receiving? && 0 <= th.phase.from ==>
      step.data == ReadAt(bytes, th.phase.from + th.phase.got, |step.data|)
  }

  /** The step is one that the peers' kinds allow. A file can be opened locally, but a write to
    * it may fail. */
  predicate Obeys(kinds: seq<PeerKind>, s: State, step: Step) {
    (step.Refuse? || step.Open? || step.Block? || step.Lose? || step.Abort? || step.Finish?) &&
    step.t < |s.threads| && s.threads[step.t].peer < |kinds| ==>
      match kinds[s.threads[step.t].peer]
      case Serves(bytes) => !step.Refuse? && !step.Lose? && SentFrom(bytes, s.threads[step.t], step)
      case Silent => step.Open? || step.Finish?
      case Refuses => step.Refuse?
  }

  ghost predicate AllObey(cat: Catalog, kinds: seq<PeerKind>, s: State, steps: seq<Step>)
    requires CanRun(cat, s, steps)
    decreases |steps|
  {
    steps == [] || (Obeys(kinds, s, steps[0]) && AllObey(cat, kinds, Apply(cat, s, steps[0]), steps[1..]))
  }

  // ---------- a silent peer keeps the call ----------

  /** The first round has still to start the worker of piece i, or has started it and waits for
    * it; piece i is incomplete, and the worker asks for some bytes and has got none. */
  ghost predicate Kept(cat: Catalog, s: State, i: nat) {
    && Inv(cat, s) && Running(cat, s) && s.peers == s.pieces && i < s.peers
    && 0 < PieceLen(FileLen(cat, s), i, s.pieces)
    && (s.pc.Launching? || s.pc.Polling?)
    && (if i < |s.threads| then
          && s.threads[i].peer == i && s.threads[i].idx == i
          && (s.threads[i].phase.Spawned? ||
              (s.threads[i].phase.Receiving? && s.threads[i].phase.got < s.threads[i].phase.want))
          && (s.threads[i].phase.Spawned? ==> !Whole(cat, s, i))
        else s.pc.Launching? && !Whole(cat, s, i))
  }

  lemma CoordinationFiles(cat: Catalog, s: State)
    requires Enabled(cat, s, Coordinate)
    ensures Coordination(cat, s).temps == s.temps
  {
  }

  /** The step changes the size of no file but that of its own worker. */
  lemma FilesOfOthers(cat: Catalog, s: State, step: Step, name: string)
    requires Inv(cat, s) && Enabled(cat, s, step) && Working(step) && !step.Save?
    requires forall t: nat :: StepOf(step, t) && t < |s.threads| ==> ThreadFile(s.threads[t]) != name
    ensures SizeOf(Apply(cat, s, step).temps, name) == SizeOf(s.temps, name)
  {
    hide Inv, MergePieces, PieceFile, Coordination;
    match step
    case Coordinate => CoordinationFiles(cat, s);
    case Open(t) => assert StepOf(step, t);
    case Block(t, _) => assert StepOf(step, t);
    case Abort(t, _) => assert StepOf(step, t);
    case _ =>
  }

  /** No worker but that of piece i writes piece i's file, if there is something to write. */
  lemma OthersFile(cat: Catalog, s: State, i: nat, u: nat)
    requires Inv(cat, s) && Running(cat, s) && i < s.pieces && 0 < PieceLen(FileLen(cat, s), i, s.pieces)
    requires u < |s.threads| && s.threads[u].idx != i
    ensures ThreadFile(s.threads[u]) != PieceOfState(cat, s, i)
  {
    assert ThreadOk(cat, s, s.threads[u]);
    ThreadFileIsPiece(cat, s, s.threads[u]);
    if ThreadFile(s.threads[u]) == PieceOfState(cat, s, i) {
      SamePieceName(s.target, FileLen(cat, s), s.threads[u].idx, i, s.pieces);
    }
  }

  lemma KeptFlag(cat: Catalog, s: State, i: nat)
    requires Kept(cat, s, i) && i < |s.threads|
    ensures s.flags[i] == Busy && !NoneBusy(s.flags)
  {
  }

  /** The worker of piece i is there and some other step is taken. */
  lemma KeptByOther(cat: Catalog, s: State, step: Step, i: nat)
    requires Kept(cat, s, i) && i < |s.threads|
    requires Enabled(cat, s, step) && Working(step) && !StepOf(step, i)
    ensures Kept(cat, Apply(cat, s, step), i)
  {
    hide MergePieces, PieceFile, Offset, PieceLen, Saving;
    var s' := Apply(cat, s, step);
    KeptFlag(cat, s, i);
    OtherStep(cat, s, step, i);
    StepKeeps(cat, s, step);
    WorkingEnabled(cat, s, step);
    if s.threads[i].phase.Spawned? {
      forall u: nat | StepOf(step, u) && u < |s.threads|
        ensures ThreadFile(s.threads[u]) != PieceOfState(cat, s, i)
      {
        assert Apart(s.threads[if u < i then u else i], s.threads[if u < i then i else u]);
        OthersFile(cat, s, i, u);
      }
      FilesOfOthers(cat, s, step, PieceOfState(cat, s, i));
    }
  }

  /** The worker of piece i takes a step: it can only ask for its bytes. */
  lemma KeptByOpen(cat: Catalog, s: State, step: Step, i: nat, kinds: seq<PeerKind>)
    requires Kept(cat, s, i) && i < |s.threads|
    requires Enabled(cat, s, step) && Working(step) && StepOf(step, i)
    requires i < |kinds| && kinds[i] == Silent && Obeys(kinds, s, step)
    ensures Kept(cat, Apply(cat, s, step), i)
  {
    hide MergePieces, PieceFile, Offset, PieceLen;
    StepKeeps(cat, s, step);
    WorkingEnabled(cat, s, step);
    WorkerKnown(cat, s, i);
    ThreadFileIsPiece(cat, s, s.threads[i]);
  }

  lemma LaunchingShape(cat: Catalog, s: State, i: nat)
    requires Kept(cat, s, i) && |s.threads| <= i
    ensures s.pc == Launching(|s.threads|) && forall t :: 0 <= t < |s.threads| ==> s.threads[t].idx == t
  {
  }

  /** The worker of piece i is still to be started. */
  lemma KeptByLaunch(cat: Catalog, s: State, step: Step, i: nat)
    requires Kept(cat, s, i) && |s.threads| <= i
    requires Enabled(cat, s, step) && Working(step)
    ensures Kept(cat, Apply(cat, s, step), i)
  {
    hide MergePieces, PieceFile, Offset, PieceLen;
    LaunchingShape(cat, s, i);
    StepKeeps(cat, s, step);
    WorkingEnabled(cat, s, step);
    forall u: nat | StepOf(step, u) && u < |s.threads|
      ensures ThreadFile(s.threads[u]) != PieceOfState(cat, s, i)
    {
      OthersFile(cat, s, i, u);
    }
    FilesOfOthers(cat, s, step, PieceOfState(cat, s, i));
  }

  lemma {:induction false} KeptRun(cat: Catalog, s: State, kinds: seq<PeerKind>, i: nat, steps: seq<Step>)
    requires Kept(cat, s, i) && CanRun(cat, s, steps)
    requires i < |kinds| && kinds[i] == Silent && AllWorking(steps) && AllObey(cat, kinds, s, steps)
    ensures Kept(cat, Run(cat, s, steps), i)
    decreases |steps|
  {
    hide Kept;
    if steps != [] {
      assert Working(steps[0]);
      if |s.threads| <= i {
        KeptByLaunch(cat, s, steps[0], i);
      } else if StepOf(steps[0], i) {
        KeptByOpen(cat, s, steps[0], i, kinds);
      } else {
        KeptByOther(cat, s, steps[0], i);
      }
      KeptRun(cat, Apply(cat, s, steps[0]), kinds, i, steps[1..]);
    }
  }

  /** Piece i of n has bytes that are not on disk yet. */
  predicate Missing(cat: Catalog, temps: Temps, v: Version, i: nat, n: nat)
    requires v in cat && 0 < n
  {
    SizeOf(temps, PieceFile(v, |cat[v]|, i, n)) < PieceLen(|cat[v]|, i, n)
  }

  /** The number of pieces of a call. */
  function PieceCount(p: nat, resume: Option<nat>): nat {
    if resume.None? then p else resume.value
  }

  lemma KeptAtBegin(cat: Catalog, s: State, v: Version, p: nat, i: nat)
    requires SizesOk(s.temps) && Enabled(cat, s, Begin(v, p, None)) && i < p
    requires Missing(cat, s.temps, v, i, p)
    ensures Kept(cat, Apply(cat, s, Begin(v, p, None)), i)
  {
    KeepsBegin(cat, s, v, p, None);
  }

  lemma KeptNotDone(cat: Catalog, s: State, i: nat)
    requires Kept(cat, s, i)
    ensures !s.pc.Done?
  {
  }

  /** After any history, a call that starts afresh asks every owner for a piece. If one of them
    * is silent and its piece is not empty and not there yet, the call never ends, whatever the
    * other peers, their workers and the coordinator do. */
  lemma {:induction false} SilentOwnerBlocks(cat: Catalog, v0: Version, history: seq<Step>, v: Version, p: nat,
                                             kinds: seq<PeerKind>, i: nat, steps: seq<Step>)
    requires GoodCatalog(cat) && CanRun(cat, Start(v0), history)
    requires var s := Run(cat, Start(v0), history);
             && Enabled(cat, s, Begin(v, p, None)) && i < p == |kinds| && kinds[i] == Silent
             && Missing(cat, s.temps, v, i, p)
             && CanRun(cat, Apply(cat, s, Begin(v, p, None)), steps) && AllWorking(steps)
             && AllObey(cat, kinds, Apply(cat, s, Begin(v, p, None)), steps)
    ensures !Run(cat, Apply(cat, Run(cat, Start(v0), history), Begin(v, p, None)), steps).pc.Done?
  {
    hide Kept, Inv, PieceFile, PieceLen, AllObey, AllWorking;
    RunKeeps(cat, Start(v0), history);
    var s := Run(cat, Start(v0), history);
    KnownSizes(cat, s);
    KeptAtBegin(cat, s, v, p, i);
    KeptRun(cat, Apply(cat, s, Begin(v, p, None)), kinds, i, steps);
    KeptNotDone(cat, Run(cat, Apply(cat, s, Begin(v, p, None)), steps), i);
  }

  // ---------- nobody serves ----------

  /** Every file is as long as before; new ones are empty. */
  ghost predicate SameSizes(temps: Temps, temps': Temps) {
    forall k :: SizeOf(temps', k) == SizeOf(temps, k)
  }

  predicate NoneServes(kinds: seq<PeerKind>) {
    forall q :: 0 <= q < |kinds| ==> !kinds[q].Serves?
  }

  lemma CoordinationRuns(cat: Catalog, s: State)
    requires Enabled(cat, s, Coordinate)
    ensures Running(cat, Coordination(cat, s)) && Coordination(cat, s).pieces == s.pieces
  {
  }

  /** Without a peer that serves no file grows, and the scan finds piece i incomplete again. */
  lemma NothingComes(cat: Catalog, s: State, step: Step, kinds: seq<PeerKind>, i: nat)
    requires GoodCatalog(cat) && Inv(cat, s) && Running(cat, s) && Enabled(cat, s, step) && Working(step)
    requires |kinds| == s.peers && NoneServes(kinds) && Obeys(kinds, s, step)
    requires i < s.pieces && !Whole(cat, s, i)
    ensures var s' := Apply(cat, s, step);
            Running(cat, s') && SameSizes(s.temps, s'.temps) && !Whole(cat, s', i)
  {
    hide MergePieces, PieceFile, Offset, PieceLen, Coordination;
    WorkingEnabled(cat, s, step);
    match step
    case Coordinate =>
      CoordinationFiles(cat, s);
      CoordinationRuns(cat, s);
    case _ =>
  }

  lemma {:induction false} NothingEverComes(cat: Catalog, s: State, kinds: seq<PeerKind>, i: nat, steps: seq<Step>)
    requires GoodCatalog(cat) && Inv(cat, s) && Running(cat, s) && CanRun(cat, s, steps)
    requires |kinds| == s.peers && NoneServes(kinds) && AllWorking(steps) && AllObey(cat, kinds, s, steps)
    requires i < s.pieces && !Whole(cat, s, i)
    ensures Running(cat, Run(cat, s, steps))
    decreases |steps|
  {
    if steps != [] {
      hide Inv, Running, Whole, Enabled, Apply;
      assert Working(steps[0]);
      NothingComes(cat, s, steps[0], kinds, i);
      StepKeeps(cat, s, steps[0]);
      WorkingEnabled(cat, s, steps[0]);
      NothingEverComes(cat, Apply(cat, s, steps[0]), kinds, i, steps[1..]);
    }
  }

  /** After any history, and with any temporary files there are: if some piece is incomplete and
    * no owner serves, the call never ends. */
  lemma {:induction false} NobodyServesBlocks(cat: Catalog, v0: Version, history: seq<Step>, v: Version, p: nat,
                                              resume: Option<nat>, kinds: seq<PeerKind>, i: nat, steps: seq<Step>)
    requires GoodCatalog(cat) && CanRun(cat, Start(v0), history)
    requires var s := Run(cat, Start(v0), history);
             && Enabled(cat, s, Begin(v, p, resume)) && |kinds| == p && NoneServes(kinds)
             && i < PieceCount(p, resume) && Missing(cat, s.temps, v, i, PieceCount(p, resume))
             && CanRun(cat, Apply(cat, s, Begin(v, p, resume)), steps) && AllWorking(steps)
             && AllObey(cat, kinds, Apply(cat, s, Begin(v, p, resume)), steps)
    ensures !Run(cat, Apply(cat, Run(cat, Start(v0), history), Begin(v, p, resume)), steps).pc.Done?
  {
    hide Inv, AllObey, AllWorking, NoneServes;
    RunKeeps(cat, Start(v0), history);
    var s := Run(cat, Start(v0), history);
    StepKeeps(cat, s, Begin(v, p, resume));
    NothingEverComes(cat, Apply(cat, s, Begin(v, p, resume)), kinds, i, steps);
  }

  /** A fresh call with these owners cannot end: one with a piece to send is silent, or none
    * serves. */
  ghost predicate Doomed(kinds: seq<PeerKind>, fileLen: nat) {
    || (exists i :: 0 <= i < |kinds| && kinds[i] == Silent && 0 < PieceLen(fileLen, i, |kinds|))
    || (0 < fileLen && NoneServes(kinds))
  }

  /** No temporary file of this version is there. */
  ghost predicate Fresh(temps: Temps, v: Version) {
    forall start: nat, len: nat :: TempFile(v, start, len) !in temps
  }

  lemma FreshMisses(cat: Catalog, temps: Temps, v: Version, i: nat, n: nat)
    requires v in cat && 0 < n && Fresh(temps, v) && 0 < PieceLen(|cat[v]|, i, n)
    ensures Missing(cat, temps, v, i, n)
  {
    assert TempFile(v, Offset(|cat[v]|, i, n), PieceLen(|cat[v]|, i, n)) !in temps;
  }

  /** After any history, a call for a version of which no temporary file is left never ends if
    * its owners doom it. */
  lemma {:induction false} DoomedNeverEnds(cat: Catalog, v0: Version, history: seq<Step>, v: Version,
                                           kinds: seq<PeerKind>, steps: seq<Step>)
    requires GoodCatalog(cat) && CanRun(cat, Start(v0), history)
    requires var s := Run(cat, Start(v0), history);
             && Enabled(cat, s, Begin(v, |kinds|, None)) && Doomed(kinds, |cat[v]|) && Fresh(s.temps, v)
             && CanRun(cat, Apply(cat, s, Begin(v, |kinds|, None)), steps) && AllWorking(steps)
             && AllObey(cat, kinds, Apply(cat, s, Begin(v, |kinds|, None)), steps)
    ensures !Run(cat, Apply(cat, Run(cat, Start(v0), history), Begin(v, |kinds|, None)), steps).pc.Done?
  {
    hide AllObey, AllWorking, PieceLen, Missing, Fresh;
    var n, len := |kinds|, |cat[v]|;
    var temps := Run(cat, Start(v0), history).temps;
    if i :| 0 <= i < n && kinds[i] == Silent && 0 < PieceLen(len, i, n) {
      FreshMisses(cat, temps, v, i, n);
      SilentOwnerBlocks(cat, v0, history, v, n, kinds, i, steps);
    } else {
      var i := SomePiece(len, n);
      FreshMisses(cat, temps, v, i, n);
      NobodyServesBlocks(cat, v0, history, v, n, None, kinds, i, steps);
    }
  }

  // ---------- the first round ----------

  /** The first round is going on, or over with one worker for each piece; no piece was handed out
    * again, and the scan goes on only when all workers have ended. */
  ghost predicate FirstRound(cat: Catalog, s: State) {
    && Inv(cat, s) && s.peers == s.pieces
    && (s.pc.Launching? || s.pc.Polling? || s.pc.Waiting? || s.pc.Done? || (s.pc.Scanning? && !s.pc.mark))
    && (forall t :: 0 <= t < |s.threads| ==> s.threads[t].idx == t && s.threads[t].peer == t)
    && (!s.pc.Launching? ==> |s.threads| == s.peers)
    && (s.pc.Waiting? ==> NoneActive(s))
  }

  lemma FirstRoundStep(cat: Catalog, s: State, step: Step)
    requires FirstRound(cat, s) && Enabled(cat, s, step) && Working(step) && !step.Dispatch?
    ensures FirstRound(cat, Apply(cat, s, step))
  {
    hide ThreadsOk, AllApart, FlagsOk, SizesOk, MergePieces, PieceFile, Offset, PieceLen, Reparsed;
    StepKeeps(cat, s, step);
    WorkingEnabled(cat, s, step);
  }

  lemma FirstRoundInv(cat: Catalog, s: State)
    requires FirstRound(cat, s)
    ensures Inv(cat, s)
  {
  }

  // ---------- somebody serves ----------

  lemma FlagStays(cat: Catalog, s: State, step: Step, kinds: seq<PeerKind>, p: nat)
    requires Enabled(cat, s, step) && Working(step) && Obeys(kinds, s, step)
    requires |s.flags| == |kinds| && p < |kinds| && kinds[p].Serves? && s.flags[p] != Dead
    ensures |Apply(cat, s, step).flags| == |kinds| && Apply(cat, s, step).flags[p] != Dead
  {
    hide Reparsed, MergePieces;
  }

  /** The flag of a peer that serves never becomes 2. */
  lemma {:induction false} ServerStaysAlive(cat: Catalog, run: nat -> State, sched: nat -> Option<Step>,
                                            kinds: seq<PeerKind>, p: nat, n: nat)
    requires Regular(cat, sched) && IsRun(cat, run, sched) && Inv(cat, run(0)) && Running(cat, run(0))
    requires |kinds| == run(0).peers && p < |kinds| && kinds[p].Serves? && run(0).flags[p] != Dead
    requires forall k: nat :: sched(k).Some? ==> Obeys(kinds, run(k), sched(k).value)
    ensures |run(n).flags| == |kinds| && run(n).flags[p] != Dead
  {
    hide Inv, IsRun, Regular, Apply, Enabled, Obeys;
    if n > 0 {
      ServerStaysAlive(cat, run, sched, kinds, p, n - 1);
      RunInv(cat, run, sched, n - 1);
      StepAt(cat, run, sched, n - 1);
      if sched(n - 1).Some? {
        assert Obeys(kinds, run(n - 1), sched(n - 1).value);
        FlagStays(cat, run(n - 1), sched(n - 1).value, kinds, p);
      }
    }
  }

  lemma {:induction false} RunAppend(cat: Catalog, s: State, steps: seq<Step>, step: Step)
    requires CanRun(cat, s, steps) && Enabled(cat, Run(cat, s, steps), step)
    ensures CanRun(cat, s, steps + [step])
    ensures Run(cat, s, steps + [step]) == Apply(cat, Run(cat, s, steps), step)
    decreases |steps|
  {
    hide Apply, Enabled;
    if steps == [] {
      assert [] + [step] == [step] && [step][1..] == [];
      assert CanRun(cat, Apply(cat, s, step), []);
      assert Run(cat, s, [step]) == Run(cat, Apply(cat, s, step), []);
    } else {
      RunAppend(cat, Apply(cat, s, steps[0]), steps[1..], step);
      assert (steps + [step])[1..] == steps[1..] + [step];
    }
  }

  /** After any history, a call with an owner that serves ends if and only if all its workers
    * are served, which the worker of a silent owner is not. */
  lemma {:induction false} ServedCallEnds(cat: Catalog, v0: Version, history: seq<Step>, v: Version, p: nat,
                                          resume: Option<nat>, kinds: seq<PeerKind>, q: nat, run: nat -> State,
                                          sched: nat -> Option<Step>, quiet: nat)
    requires GoodCatalog(cat) && CanRun(cat, Start(v0), history)
    requires Enabled(cat, Run(cat, Start(v0), history), Begin(v, p, resume))
    requires run(0) == Apply(cat, Run(cat, Start(v0), history), Begin(v, p, resume))
    requires IsRun(cat, run, sched) && CoordinatorGoesOn(cat, run, sched)
    requires |kinds| == p && q < p && kinds[q].Serves?
    requires forall k: nat :: sched(k).Some? ==> Obeys(kinds, run(k), sched(k).value)
    requires forall k :: quiet <= k ==> WritesAt(sched, k)
    ensures (exists k: nat :: run(k).pc.Done?) <==> WorkersServed(run, sched)
  {
    hide Inv, IsRun, GoodCatalog, CoordinatorGoesOn, WorkersServed, Obeys, CanWork;
    RunKeeps(cat, Start(v0), history);
    var s := Run(cat, Start(v0), history);
    StepKeeps(cat, s, Begin(v, p, resume));
    var whole := history + [Begin(v, p, resume)];
    RunAppend(cat, Start(v0), history, Begin(v, p, resume));
    forall k: nat | Running(cat, run(k))
      ensures q < |run(k).flags| && run(k).flags[q] != Dead
    {
      ServerStaysAlive(cat, run, sched, kinds, q, k);
    }
    EndsIfServed(cat, v0, whole, run, sched, q, quiet);
  }

  // ---------- what is saved ----------

  lemma {:induction false} HonestRun(cat: Catalog, run: nat -> State, sched: nat -> Option<Step>, n: nat)
    requires Regular(cat, sched) && IsRun(cat, run, sched)
    requires Inv(cat, run(0)) && Running(cat, run(0)) && Contents(cat, run(0))
    requires forall k: nat :: sched(k).Some? ==> Honest(cat, run(k), sched(k).value)
    ensures Contents(cat, run(n))
  {
    hide Inv, IsRun, Regular, Apply, Enabled, Honest, Contents;
    if n > 0 {
      HonestRun(cat, run, sched, n - 1);
      RunInv(cat, run, sched, n - 1);
      StepAt(cat, run, sched, n - 1);
      if sched(n - 1).Some? {
        StepGood(cat, run(n - 1), sched(n - 1).value);
      }
    }
  }

  lemma StartGood(cat: Catalog, v: Version)
    ensures Inv(cat, Start(v)) && Contents(cat, Start(v))
  {
  }

  /** After any history, a call that ends saves the source, if the peers send what they should, as
    * far as it can be written: whenever DownloadTerminates, EndsIfServed or ServedCallEnds say
    * that a call ends. */
  lemma {:induction false} EndsRightly(cat: Catalog, v: Version, history: seq<Step>, run: nat -> State,
                                       sched: nat -> Option<Step>, k: nat)
    requires GoodCatalog(cat) && CanRun(cat, Start(v), history) && AllHonest(cat, Start(v), history)
    requires run(0) == Run(cat, Start(v), history) && Running(cat, run(0))
    requires IsRun(cat, run, sched)
    requires forall n: nat :: sched(n).Some? ==> Honest(cat, run(n), sched(n).value)
    ensures var s := run(k);
            && s.target == run(0).target && s.target in cat && s.pieces == run(0).pieces && 0 < s.pieces
            && (s.pc.Done? ==> EndsRight(cat[s.target], s.pieces, s.pc.target, s.pc.saved))
  {
    hide Inv, IsRun, GoodCatalog, Honest, AllHonest, CanRun, Run;
    StartGood(cat, v);
    RunKeeps(cat, Start(v), history);
    RunGood(cat, Start(v), history);
    RunInv(cat, run, sched, k);
    HonestRun(cat, run, sched, k);
  }
}
