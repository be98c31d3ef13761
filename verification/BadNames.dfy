/** What a file name that the temporary names cannot carry does to a download
  * (utils/peer2peer.c). */
module BadNames {
  import opened Wrappers
  import opened Files
  import opened Partition
  import opened Merge
  import opened Download
  import opened DownloadSafety
  import opened DownloadTermination
  import opened DownloadOutcome
  import TempName

  /** The coordinator can always hand a piece of a badly named file out again, but the worker
    * gets another file's name, and so works on the file of no piece. */
  lemma HandedOutWrongly(cat: Catalog, s: State, peer: nat, i: nat)
    requires Running(cat, s) && s.pc.Waiting? && peer < s.peers && s.flags[peer] == Free
    requires !TempName.GoodName(s.target.name)
    ensures Enabled(cat, s, Dispatch(peer))
    ensures var th := Apply(cat, s, Dispatch(peer)).threads[|s.threads|];
            th.v.name != s.target.name && ThreadFile(th) != PieceOfState(cat, s, i)
  {
    var len := FileLen(cat, s);
    TempName.ParseBad(s.target.name, Offset(len, s.pc.i, s.pieces), PieceLen(len, s.pc.i, s.pieces),
                      s.target.timestamp);
    var th := Apply(cat, s, Dispatch(peer)).threads[|s.threads|];
    if ThreadFile(th) == PieceOfState(cat, s, i) {
      TempName.AllDistinct(th.v.name, th.start, th.len, th.v.timestamp, s.target.name,
                           Offset(len, i, s.pieces), PieceLen(len, i, s.pieces), s.target.timestamp);
    }
  }

  // ---------- a piece nobody works on ----------

  /** Piece i is incomplete, its first worker was started if there is a first round, and no
    * running worker writes its file; if the scan is past it, some piece was handed out. */
  ghost predicate Deserted(cat: Catalog, s: State, i: nat) {
    && Running(cat, s) && !TempName.GoodName(s.target.name) && i < s.pieces && !Whole(cat, s, i)
    && (forall t :: 0 <= t < |s.threads| && Active(s.threads[t]) ==>
          ThreadFile(s.threads[t]) != PieceOfState(cat, s, i))
    && (s.pc.Launching? ==> s.pieces == s.peers && i < s.pc.i)
    && (s.pc.Scanning? && !s.pc.mark ==> s.pc.i <= i)
  }

  lemma LaunchDeserted(cat: Catalog, s: State, i: nat)
    requires Deserted(cat, s, i) && Enabled(cat, s, Coordinate) && s.pc.Launching?
    ensures Deserted(cat, Coordination(cat, s), i)
  {
    hide TempFile, PieceLen, Offset;
    var j := s.pc.i;
    if j < s.peers && PieceOfState(cat, s, j) == PieceOfState(cat, s, i) {
      SamePieceName(s.target, FileLen(cat, s), i, j, s.pieces);
    }
  }

  lemma StaysDeserted(cat: Catalog, s: State, i: nat, step: Step)
    requires Deserted(cat, s, i) && Enabled(cat, s, step) && Working(step)
    ensures Deserted(cat, Apply(cat, s, step), i)
  {
    hide Reparsed, PieceFile, Offset, PieceLen, MergePieces, TempFile;
    match step
    case Coordinate =>
      if s.pc.Launching? {
        LaunchDeserted(cat, s, i);
      }
    case Dispatch(peer) => HandedOutWrongly(cat, s, peer, i);
    case _ =>
  }

  lemma {:induction false} DesertedForEver(cat: Catalog, s: State, i: nat, steps: seq<Step>)
    requires Deserted(cat, s, i) && CanRun(cat, s, steps) && AllWorking(steps)
    ensures Deserted(cat, Run(cat, s, steps), i)
    decreases |steps|
  {
    hide Deserted;
    if steps != [] {
      assert Working(steps[0]);
      StaysDeserted(cat, s, i, steps[0]);
      DesertedForEver(cat, Apply(cat, s, steps[0]), i, steps[1..]);
    }
  }

  /** The piece of a badly named file that its first worker has not completed is lost: whatever
    * workers are started for it, the call never ends. */
  lemma {:induction false} BadNameNeverEnds(cat: Catalog, s: State, i: nat, steps: seq<Step>)
    requires Deserted(cat, s, i) && CanRun(cat, s, steps) && AllWorking(steps)
    ensures !Run(cat, s, steps).pc.Done?
  {
    DesertedForEver(cat, s, i, steps);
  }

  /** In particular, after any history, no resumed download of a badly named file with an
    * incomplete piece ever ends. */
  lemma {:induction false} ResumeNeverEnds(cat: Catalog, v0: Version, history: seq<Step>, v: Version, p: nat, n: nat,
                                           i: nat, steps: seq<Step>)
    requires CanRun(cat, Start(v0), history)
    requires var s := Run(cat, Start(v0), history);
             && Enabled(cat, s, Begin(v, p, Some(n))) && !TempName.GoodName(v.name) && i < n
             && Missing(cat, s.temps, v, i, n)
             && CanRun(cat, Apply(cat, s, Begin(v, p, Some(n))), steps) && AllWorking(steps)
    ensures !Run(cat, Apply(cat, Run(cat, Start(v0), history), Begin(v, p, Some(n))), steps).pc.Done?
  {
    var s := Run(cat, Start(v0), history);
    BadNameNeverEnds(cat, Apply(cat, s, Begin(v, p, Some(n))), i, steps);
  }

  // ---------- a fresh call ----------

  /** The first worker of piece i is still to be started, or running; the coordinator is in the
    * first round or waits for it. */
  ghost predicate Pending(cat: Catalog, s: State, i: nat) {
    && Inv(cat, s) && Running(cat, s) && !TempName.GoodName(s.target.name)
    && s.peers == s.pieces && i < s.pieces && 0 < PieceLen(FileLen(cat, s), i, s.pieces)
    && (s.pc.Launching? || s.pc.Polling?)
    && (if i < |s.threads| then
          && s.threads[i].peer == i && s.threads[i].idx == i && Active(s.threads[i])
          && (s.threads[i].phase.Spawned? ==> !Whole(cat, s, i))
        else s.pc.Launching? && !Whole(cat, s, i))
  }

  lemma PendingFlag(cat: Catalog, s: State, i: nat)
    requires Pending(cat, s, i) && i < |s.threads|
    ensures s.flags[i] == Busy && !NoneBusy(s.flags)
  {
  }

  lemma PendingOther(cat: Catalog, s: State, step: Step, i: nat)
    requires Pending(cat, s, i) && i < |s.threads|
    requires Enabled(cat, s, step) && Working(step) && !StepOf(step, i)
    ensures Pending(cat, Apply(cat, s, step), i)
  {
    hide MergePieces, PieceFile, Offset, PieceLen, Saving;
    var s' := Apply(cat, s, step);
    PendingFlag(cat, s, i);
    OtherStep(cat, s, step, i);
    StepKeeps(cat, s, step);
    WorkingEnabled(cat, s, step);
    forall u: nat | StepOf(step, u) && u < |s.threads|
      ensures ThreadFile(s.threads[u]) != PieceOfState(cat, s, i)
    {
      assert Apart(s.threads[if u < i then u else i], s.threads[if u < i then i else u]);
      OthersFile(cat, s, i, u);
    }
    FilesOfOthers(cat, s, step, PieceOfState(cat, s, i));
  }

  lemma PendingLaunch(cat: Catalog, s: State, step: Step, i: nat)
    requires Pending(cat, s, i) && |s.threads| <= i && Enabled(cat, s, step) && Working(step)
    ensures Pending(cat, Apply(cat, s, step), i)
  {
    hide MergePieces, PieceFile, Offset, PieceLen, Saving;
    assert s.pc == Launching(|s.threads|) && forall t :: 0 <= t < |s.threads| ==> s.threads[t].idx == t;
    StepKeeps(cat, s, step);
    WorkingEnabled(cat, s, step);
    forall u: nat | StepOf(step, u) && u < |s.threads|
      ensures ThreadFile(s.threads[u]) != PieceOfState(cat, s, i)
    {
      OthersFile(cat, s, i, u);
    }
    FilesOfOthers(cat, s, step, PieceOfState(cat, s, i));
  }

  /** The worker ends without completing the piece, and leaves it to nobody. */
  lemma PendingDeserted(cat: Catalog, s: State, step: Step, i: nat)
    requires Pending(cat, s, i) && i < |s.threads|
    requires Enabled(cat, s, step) && StepOf(step, i) && (step.Refuse? || step.Lose? || step.Abort?)
    ensures Deserted(cat, Apply(cat, s, step), i)
  {
    hide MergePieces, PieceFile, Offset, PieceLen;
    var s' := Apply(cat, s, step);
    WorkerKnown(cat, s, i);
    ThreadFileIsPiece(cat, s, s.threads[i]);
    forall u | 0 <= u < |s'.threads| && Active(s'.threads[u])
      ensures ThreadFile(s'.threads[u]) != PieceOfState(cat, s', i)
    {
      assert u != i && s'.threads[u] == s.threads[u];
      assert Apart(s.threads[if u < i then u else i], s.threads[if u < i then i else u]);
      OthersFile(cat, s, i, u);
    }
  }

  lemma PendingOwn(cat: Catalog, s: State, step: Step, i: nat)
    requires Pending(cat, s, i) && i < |s.threads|
    requires Enabled(cat, s, step) && StepOf(step, i) && (step.Open? || step.Block?)
    ensures Pending(cat, Apply(cat, s, step), i)
  {
    hide MergePieces, PieceFile, Offset, PieceLen;
    StepKeeps(cat, s, step);
    WorkingEnabled(cat, s, step);
  }

  /** At some moment worker i has completed its piece. */
  ghost predicate Completes(run: nat -> State, i: nat) {
    exists k: nat :: i < |run(k).threads| && run(k).threads[i].phase.Complete?
  }

  lemma FinishCompletes(cat: Catalog, s: State, step: Step, i: nat)
    requires Enabled(cat, s, step) && step == Finish(i)
    ensures i < |Apply(cat, s, step).threads| && Apply(cat, s, step).threads[i].phase.Complete?
  {
  }

  /** If the first worker of a piece with bytes never completes it, the piece stays with it, or
    * is lost, and the call does not end. */
  lemma {:induction false} PendingOrDeserted(cat: Catalog, run: nat -> State, sched: nat -> Option<Step>,
                                             i: nat, n: nat)
    requires IsRun(cat, run, sched) && Pending(cat, run(0), i) && !Completes(run, i)
    ensures Pending(cat, run(n), i) || Deserted(cat, run(n), i)
  {
    hide Pending, Deserted, IsRun, Apply, Enabled;
    if n > 0 {
      PendingOrDeserted(cat, run, sched, i, n - 1);
      StepAt(cat, run, sched, n - 1);
      if sched(n - 1).Some? {
        var s, step := run(n - 1), sched(n - 1).value;
        if Deserted(cat, s, i) {
          StaysDeserted(cat, s, i, step);
        } else if |s.threads| <= i {
          PendingLaunch(cat, s, step, i);
        } else if !StepOf(step, i) {
          PendingOther(cat, s, step, i);
        } else if step.Open? || step.Block? {
          PendingOwn(cat, s, step, i);
        } else if step.Finish? {
          FinishCompletes(cat, s, step, i);
        } else {
          PendingDeserted(cat, s, step, i);
        }
      }
    }
  }

  lemma NotDone(cat: Catalog, s: State, i: nat)
    requires Pending(cat, s, i) || Deserted(cat, s, i)
    ensures !s.pc.Done?
  {
  }

  // ---------- nothing has to be handed out ----------

  /** A worker that has ended stays as it is. */
  lemma EndedStays(cat: Catalog, s: State, step: Step, t: nat)
    requires Enabled(cat, s, step) && Working(step) && t < |s.threads| && !Active(s.threads[t])
    ensures t < |Apply(cat, s, step).threads| && Apply(cat, s, step).threads[t] == s.threads[t]
  {
    hide Reparsed, MergePieces;
  }

  lemma {:induction false} EndedForEver(cat: Catalog, run: nat -> State, sched: nat -> Option<Step>,
                                        t: nat, n: nat, m: nat)
    requires IsRun(cat, run, sched) && n <= m && t < |run(n).threads| && !Active(run(n).threads[t])
    ensures t < |run(m).threads| && run(m).threads[t] == run(n).threads[t]
    decreases m
  {
    hide IsRun, Apply, Enabled;
    if n < m {
      EndedForEver(cat, run, sched, t, n, m - 1);
      StepAt(cat, run, sched, m - 1);
      if sched(m - 1).Some? {
        EndedStays(cat, run(m - 1), sched(m - 1).value, t);
      }
    }
  }

  /** A worker that ever completes and has ended has completed. */
  lemma EndedComplete(cat: Catalog, run: nat -> State, sched: nat -> Option<Step>, t: nat, n: nat)
    requires IsRun(cat, run, sched) && t < |run(n).threads| && !Active(run(n).threads[t]) && Completes(run, t)
    ensures run(n).threads[t].phase.Complete?
  {
    var k: nat :| t < |run(k).threads| && run(k).threads[t].phase.Complete?;
    if k <= n {
      EndedForEver(cat, run, sched, t, k, n);
    } else {
      EndedForEver(cat, run, sched, t, n, k);
    }
  }

  /** Every first worker whose piece has bytes completes it. */
  ghost predicate AllComplete(run: nat -> State, fileLen: nat, n: nat)
    requires 0 < n
  {
    forall i: nat :: i < n && 0 < PieceLen(fileLen, i, n) ==> Completes(run, i)
  }

  /** If every piece with bytes is completed by its worker, no piece has to wait. */
  lemma NothingWaits(cat: Catalog, run: nat -> State, sched: nat -> Option<Step>, n: nat)
    requires IsRun(cat, run, sched) && FirstRound(cat, run(n)) && run(n).target in cat && 0 < run(n).pieces
    requires AllComplete(run, FileLen(cat, run(n)), run(n).pieces)
    ensures !run(n).pc.Waiting?
  {
    var s := run(n);
    if s.pc.Waiting? {
      var i := s.pc.i;
      EndedComplete(cat, run, sched, i, n);
      WorkerKnown(cat, s, i);
    }
  }

  lemma {:induction false} FirstRoundRun(cat: Catalog, run: nat -> State, sched: nat -> Option<Step>, n: nat)
    requires IsRun(cat, run, sched) && FirstRound(cat, run(0)) && Running(cat, run(0))
    requires AllComplete(run, FileLen(cat, run(0)), run(0).pieces)
    ensures FirstRound(cat, run(n)) && run(n).pieces == run(0).pieces && run(n).target == run(0).target
    ensures !run(n).pc.Waiting?
    ensures sched(n).Some? ==> !sched(n).value.Dispatch?
  {
    hide FirstRound, IsRun, PieceLen, Inv;
    if n > 0 {
      FirstRoundRun(cat, run, sched, n - 1);
      StepAt(cat, run, sched, n - 1);
      if sched(n - 1).Some? {
        FirstRoundStep(cat, run(n - 1), sched(n - 1).value);
        WorkingEnabled(cat, run(n - 1), sched(n - 1).value);
      }
    }
    NothingWaits(cat, run, sched, n);
    StepAt(cat, run, sched, n);
  }

  /** After the first round something can be done as long as nothing waits. */
  lemma FirstRoundGoesOn(cat: Catalog, s: State) returns (step: Step)
    requires FirstRound(cat, s) && Running(cat, s) && !s.pc.Waiting?
    ensures CanWork(cat, s, step)
  {
    if NoneActive(s) {
      QuietFlags(cat, s);
      step := if s.pc == Scanning(s.pieces, false) then Save(CannotOpen) else Coordinate;
    } else {
      var t: nat :| t < |s.threads| && Active(s.threads[t]);
      step := ActiveCanWork(cat, s, t);
    }
  }

  lemma FreshCompletes(cat: Catalog, run: nat -> State, sched: nat -> Option<Step>, quiet: nat)
    requires IsRun(cat, run, sched) && Fair(cat, run, sched) && FirstRound(cat, run(0)) && Running(cat, run(0))
    requires forall k :: quiet <= k ==> WritesAt(sched, k)
    requires AllComplete(run, FileLen(cat, run(0)), run(0).pieces)
    ensures exists k: nat :: run(k).pc.Done?
  {
    hide FirstRound, IsRun, PieceLen, Inv, Completes;
    forall n: nat | sched(n).Some?
      ensures !sched(n).value.Dispatch?
    {
      FirstRoundRun(cat, run, sched, n);
    }
    FirstRoundRun(cat, run, sched, 0);
    FirstRoundInv(cat, run(0));
    RunStops(cat, run, sched, quiet);
    var n: nat :| quiet <= n && StopsAt(sched, n);
    FirstRoundRun(cat, run, sched, n);
    RunInv(cat, run, sched, n);
    if !run(n).pc.Done? {
      var step := FirstRoundGoesOn(cat, run(n));
    }
  }

  /** A fresh call for a badly named file, of which no piece is on disk, ends in a fair run if and
    * only if every first worker whose piece has bytes completes it. */
  lemma FreshEndsExactly(cat: Catalog, s: State, v: Version, p: nat, run: nat -> State, sched: nat -> Option<Step>,
                         quiet: nat)
    requires Enabled(cat, s, Begin(v, p, None)) && SizesOk(s.temps) && Fresh(s.temps, v)
    requires !TempName.GoodName(v.name)
    requires run(0) == Apply(cat, s, Begin(v, p, None))
    requires IsRun(cat, run, sched) && Fair(cat, run, sched) && forall k :: quiet <= k ==> WritesAt(sched, k)
    ensures (exists k: nat :: run(k).pc.Done?) <==>
            AllComplete(run, |cat[v]|, p)
  {
    hide IsRun, Fair, PieceLen, Completes;
    KeepsBegin(cat, s, v, p, None);
    assert FirstRound(cat, run(0)) && Running(cat, run(0));
    if AllComplete(run, |cat[v]|, p) {
      FreshCompletes(cat, run, sched, quiet);
    } else {
      var i: nat :| i < p && 0 < PieceLen(|cat[v]|, i, p) && !Completes(run, i);
      FreshMisses(cat, s.temps, v, i, p);
      assert Pending(cat, run(0), i);
      forall k: nat
        ensures !run(k).pc.Done?
      {
        PendingOrDeserted(cat, run, sched, i, k);
        NotDone(cat, run(k), i);
      }
    }
  }
}
