/** How much work a download can cause, and that it ends when one peer never fails. */
module DownloadTermination {
  import opened Wrappers
  import opened Sets
  import opened Files
  import opened Merge
  import opened Partition
  import opened Download
  import opened DownloadSafety

  // ---------- how many workers are started ----------

  datatype Role = ForPiece | OnDeadPeer

  /** The piece a worker counts for, or the peer it failed on. */
  function Key(role: Role, t: Thread): Option<nat> {
    match role
    case ForPiece => if Live(t) then Some(t.idx) else None
    case OnDeadPeer => if t.phase.Failed? then Some(t.peer) else None
  }

  function Count(role: Role, ts: seq<Thread>): nat {
    if ts == [] then 0
    else Count(role, ts[..|ts| - 1]) + (if Key(role, ts[|ts| - 1]).Some? then 1 else 0)
  }

  function Aborts(ts: seq<Thread>): nat {
    if ts == [] then 0 else Aborts(ts[..|ts| - 1]) + (if ts[|ts| - 1].phase.Aborted? then 1 else 0)
  }

  lemma {:induction false} CountsAdd(ts: seq<Thread>)
    ensures |ts| == Count(ForPiece, ts) + Count(OnDeadPeer, ts) + Aborts(ts)
  {
    if ts != [] {
      CountsAdd(ts[..|ts| - 1]);
    }
  }

  /** The peers whose flag is 2. */
  function DeadPeers(flags: seq<Flag>): set<nat> {
    set p: nat | 0 <= p < |flags| && flags[p] == Dead
  }

  /** Distinct keys out of a set: there are no more of them than the set has elements. */
  lemma {:induction false} CountBound(role: Role, ts: seq<Thread>, keys: set<nat>)
    requires forall t :: 0 <= t < |ts| && Key(role, ts[t]).Some? ==> Key(role, ts[t]).value in keys
    requires forall t, u :: 0 <= t < u < |ts| && Key(role, ts[t]).Some? ==> Key(role, ts[t]) != Key(role, ts[u])
    ensures Count(role, ts) <= |keys|
    decreases |ts|
  {
    if ts != [] {
      var init, last := ts[..|ts| - 1], ts[|ts| - 1];
      if Key(role, last).Some? {
        var k := Key(role, last).value;
        assert forall t :: 0 <= t < |init| ==> init[t] == ts[t];
        CountBound(role, init, keys - {k});
      } else {
        CountBound(role, init, keys);
      }
    }
  }

  lemma ApartKeys(s: State, role: Role)
    requires AllApart(s)
    ensures forall t, u :: 0 <= t < u < |s.threads| && Key(role, s.threads[t]).Some? ==>
                             Key(role, s.threads[t]) != Key(role, s.threads[u])
  {
    forall t, u | 0 <= t < u < |s.threads| && Key(role, s.threads[t]).Some?
      ensures Key(role, s.threads[t]) != Key(role, s.threads[u])
    {
      assert Apart(s.threads[t], s.threads[u]);
    }
  }

  lemma InvPlaced(cat: Catalog, s: State)
    requires Inv(cat, s) && !s.pc.Idle?
    ensures AllApart(s) && Placed(s) && |s.flags| == s.peers
  {
    if !s.pc.Done? {
      AllPlaced(cat, s);
    }
  }

  /** Every worker either counts for a piece of its own, or has used up a peer, or could not
    * write its file. */
  lemma SpawnBoundInv(cat: Catalog, s: State)
    requires Inv(cat, s) && !s.pc.Idle?
    ensures |s.threads| <= s.pieces + |DeadPeers(s.flags)| + Aborts(s.threads)
    ensures |DeadPeers(s.flags)| <= s.peers
  {
    InvPlaced(cat, s);
    CountsAdd(s.threads);
    ApartKeys(s, ForPiece);
    ApartKeys(s, OnDeadPeer);
    CountBound(ForPiece, s.threads, Range(s.pieces));
    CountBound(OnDeadPeer, s.threads, DeadPeers(s.flags));
    SubsetSize(DeadPeers(s.flags), Range(s.peers));
  }

  /** The work is bounded: in every run, the current call has started at most as many workers
    * as there are pieces, plus one for each peer that died, plus one for each failed write to
    * a local file. */
  lemma {:induction false} BoundedWork(cat: Catalog, v: Version, steps: seq<Step>)
    requires GoodCatalog(cat) && CanRun(cat, Start(v), steps)
    ensures var s := Run(cat, Start(v), steps);
            && |s.threads| <= s.pieces + |DeadPeers(s.flags)| + Aborts(s.threads)
            && |DeadPeers(s.flags)| <= s.peers
  {
    RunKeeps(cat, Start(v), steps);
    var s := Run(cat, Start(v), steps);
    if s.pc.Idle? {
      assert DeadPeers(s.flags) == {};
    } else {
      SpawnBoundInv(cat, s);
    }
  }

  // ---------- a measure that every step lowers ----------

  /** The steps inside one call. */
  predicate Working(step: Step) {
    !step.Begin? && !step.Sweep? && !step.Crash?
  }

  /** How many of the steps are failed writes to a local file. */
  function FailedWrites(steps: seq<Step>): nat
    decreases |steps|
  {
    if steps == [] then 0 else (if steps[0].Abort? then 1 else 0) + FailedWrites(steps[1..])
  }

  function Remaining(t: Thread): nat {
    match t.phase
    case Spawned => (if t.len < 0 then 0 else t.len) + 2
    case Receiving(_, want, got) => if got <= want then want - got + 1 else 1
    case _ => 0
  }

  function Work(ts: seq<Thread>): nat {
    if ts == [] then 0 else Work(ts[..|ts| - 1]) + Remaining(ts[|ts| - 1])
  }

  lemma {:induction false} WorkUpdate(ts: seq<Thread>, t: nat, th: Thread)
    requires t < |ts|
    ensures Work(ts[t := th]) == Work(ts) - Remaining(ts[t]) + Remaining(th)
    decreases |ts|
  {
    var n := |ts| - 1;
    if t < n {
      WorkUpdate(ts[..n], t, th);
      assert ts[t := th][..n] == ts[..n][t := th];
    } else {
      assert ts[t := th][..n] == ts[..n];
    }
  }

  lemma {:induction false} AbortsUpdate(ts: seq<Thread>, t: nat, th: Thread)
    requires t < |ts| && !ts[t].phase.Aborted?
    ensures Aborts(ts[t := th]) == Aborts(ts) + if th.phase.Aborted? then 1 else 0
    decreases |ts|
  {
    var n := |ts| - 1;
    if t < n {
      AbortsUpdate(ts[..n], t, th);
      assert ts[t := th][..n] == ts[..n][t := th];
    } else {
      assert ts[t := th][..n] == ts[..n];
    }
  }

  function PcRank(pieces: nat, pc: Pc): nat {
    match pc
    case Launching(_) => 2 * pieces + 4
    case Polling => 2 * pieces + 3
    case Scanning(i, mark) => (if i <= pieces then 2 * (pieces - i) else 0) + (if mark then 2 * pieces + 4 else 2)
    case Waiting(i) => (if i <= pieces then 2 * (pieces - i) else 0) + 1
    case _ => 0
  }

  /** What one more worker may add. */
  function SpawnCost(fileLen: nat, pieces: nat): nat {
    fileLen + 4 * pieces + 7
  }

  /** Workers that may still be started. */
  function Budget(s: State): int {
    s.pieces + s.peers + Aborts(s.threads) - |s.threads|
  }

  function Measure(cat: Catalog, s: State): int
    requires s.target in cat
  {
    if s.pc.Done? then 0
    else Budget(s) * SpawnCost(FileLen(cat, s), s.pieces) + Work(s.threads) + PcRank(s.pieces, s.pc)
  }

  /** What a step may add to the measure. */
  function Allowance(cat: Catalog, s: State, failedWrite: bool): nat
    requires s.target in cat
  {
    if failedWrite then SpawnCost(FileLen(cat, s), s.pieces) else 0
  }

  lemma MulLess(a: int, c: nat)
    ensures (a - 1) * c == a * c - c
    ensures 0 <= a ==> 0 <= a * c
  {
  }

  lemma MeasureBound(cat: Catalog, s: State)
    requires Inv(cat, s) && Running(cat, s)
    ensures 0 < Measure(cat, s)
  {
    SpawnBoundInv(cat, s);
    MulLess(Budget(s), SpawnCost(FileLen(cat, s), s.pieces));
  }

  lemma AddProducts(a: int, b: nat, c: nat)
    ensures (a + b) * c == a * c + b * c && 0 <= b * c
    ensures 0 <= a ==> 0 <= a * c
  {
  }

  lemma SameLen(cat: Catalog, s: State, s': State)
    requires s'.target == s.target && s.target in cat
    ensures FileLen(cat, s') == FileLen(cat, s)
  {
  }

  /** A step of a worker takes away from what it still has to do; a failed write lets one more
    * worker be started. */
  lemma WorkerDecreases(cat: Catalog, s: State, t: nat, s': State)
    requires Inv(cat, s) && Running(cat, s)
    requires t < |s.threads| == |s'.threads| && s'.threads == s.threads[t := s'.threads[t]]
    requires s'.target == s.target && s'.pieces == s.pieces && s'.peers == s.peers && s'.pc == s.pc
    requires !s.threads[t].phase.Aborted?
    requires Remaining(s'.threads[t]) < Remaining(s.threads[t])
    ensures Measure(cat, s') < Measure(cat, s) + Allowance(cat, s, s'.threads[t].phase.Aborted?)
  {
    hide Inv, SpawnCost, Work, Aborts, FileLen, Remaining, PcRank;
    WorkUpdate(s.threads, t, s'.threads[t]);
    AbortsUpdate(s.threads, t, s'.threads[t]);
    AddProducts(Budget(s), Budget(s') - Budget(s), SpawnCost(FileLen(cat, s), s.pieces));
    SameLen(cat, s, s');
  }

  lemma SpawnedWork(ts: seq<Thread>, th: Thread)
    requires th.phase.Spawned? && 0 <= th.len
    ensures Work(ts + [th]) == Work(ts) + th.len + 2 && Aborts(ts + [th]) == Aborts(ts)
  {
    assert (ts + [th])[..|ts|] == ts;
  }

  lemma RankGain(pieces: nat, pc: Pc, pc': Pc)
    ensures PcRank(pieces, pc') <= PcRank(pieces, pc) + 4 * pieces + 4
  {
  }

  /** Starting a worker costs more of the budget than the worker can bring back. */
  lemma SpawnDecreases(cat: Catalog, s: State, th: Thread, s': State)
    requires Inv(cat, s) && Running(cat, s) && (s.pc.Launching? || s.pc.Waiting?)
    requires s'.threads == s.threads + [th] && th.phase.Spawned? && 0 <= th.len <= FileLen(cat, s)
    requires s'.target == s.target && s'.pieces == s.pieces && s'.peers == s.peers
    requires s'.pc.Launching? || s'.pc.Scanning?
    ensures Measure(cat, s') < Measure(cat, s)
  {
    hide Inv, Work, Aborts, PcRank, FileLen;
    SpawnedWork(s.threads, th);
    RankGain(s.pieces, s.pc, s'.pc);
    SameLen(cat, s, s');
    assert Budget(s') == Budget(s) - 1;
    MulLess(Budget(s), SpawnCost(FileLen(cat, s), s.pieces));
  }

  lemma PcDecreases(cat: Catalog, s: State, s': State)
    requires s.target in cat && s' == s.(pc := s'.pc) && !s.pc.Done? && !s'.pc.Done?
    requires PcRank(s.pieces, s'.pc) < PcRank(s.pieces, s.pc)
    ensures Measure(cat, s') < Measure(cat, s)
  {
  }

  lemma CoordinateDecreases(cat: Catalog, s: State)
    requires Inv(cat, s) && Enabled(cat, s, Coordinate)
    ensures Measure(cat, Coordination(cat, s)) < Measure(cat, s)
  {
    var s' := Coordination(cat, s);
    MeasureBound(cat, s);
    if s.pc.Launching? && s.pc.i < s.peers {
      PieceInside(FileLen(cat, s), s.pc.i, s.peers);
      SpawnDecreases(cat, s, s'.threads[|s.threads|], s');
    } else {
      PcDecreases(cat, s, s');
    }
  }

  lemma SaveDecreases(cat: Catalog, s: State, target: Target)
    requires Inv(cat, s) && Enabled(cat, s, Save(target))
    ensures Measure(cat, Apply(cat, s, Save(target))) < Measure(cat, s)
  {
    MeasureBound(cat, s);
  }

  lemma WaitingPiece(cat: Catalog, s: State)
    requires Inv(cat, s) && s.pc.Waiting?
    ensures Shape(cat, s) && s.pc.i < s.pieces
  {
  }

  lemma WorkerKnown(cat: Catalog, s: State, t: nat)
    requires Inv(cat, s) && Running(cat, s) && t < |s.threads|
    ensures Shape(cat, s) && ThreadOk(cat, s, s.threads[t])
  {
  }

  /** Every step inside a call lowers the measure, but for a failed write, after which one more
    * worker may be started. */
  lemma StepDecreases(cat: Catalog, s: State, step: Step)
    requires Inv(cat, s) && Enabled(cat, s, step) && Working(step) && (step.Dispatch? ==> GoodCatalog(cat))
    ensures Measure(cat, Apply(cat, s, step)) < Measure(cat, s) + Allowance(cat, s, step.Abort?)
  {
    hide Inv, Reparsed, Measure, Coordination, Saving, Dispatched, Append, TempFile, PieceLen, Offset;
    var s' := Apply(cat, s, step);
    match step
    case Coordinate => CoordinateDecreases(cat, s);
    case Save(target) => SaveDecreases(cat, s, target);
    case Dispatch(peer) =>
      WaitingPiece(cat, s);
      DispatchesPiece(cat, s, peer);
      PieceInside(FileLen(cat, s), s.pc.i, s.pieces);
      SpawnDecreases(cat, s, NewThread(cat, s, peer, s.pc.i), s');
    case Refuse(t) => WorkerDecreases(cat, s, t, s');
    case Open(t) =>
      WorkerKnown(cat, s, t);
      WorkerDecreases(cat, s, t, s');
    case Block(t, _) =>
      WorkerKnown(cat, s, t);
      WorkerDecreases(cat, s, t, s');
    case Lose(t) => WorkerDecreases(cat, s, t, s');
    case Abort(t, _) => WorkerDecreases(cat, s, t, s');
    case Finish(t) => WorkerDecreases(cat, s, t, s');
  }

  lemma WorkingEnabled(cat: Catalog, s: State, step: Step)
    requires Enabled(cat, s, step) && Working(step)
    ensures Running(cat, s)
    ensures var s' := Apply(cat, s, step);
            !s'.pc.Idle? && s'.target == s.target && s'.pieces == s.pieces && s'.peers == s.peers
  {
  }

  predicate AllWorking(steps: seq<Step>) {
    forall k :: 0 <= k < |steps| ==> Working(steps[k])
  }

  lemma {:induction false} RunShort(cat: Catalog, s: State, steps: seq<Step>)
    requires GoodCatalog(cat) && Inv(cat, s) && CanRun(cat, s, steps) && AllWorking(steps)
    requires s.target in cat && !s.pc.Idle?
    ensures steps != [] ==> |steps| <= Measure(cat, s) + FailedWrites(steps) * SpawnCost(FileLen(cat, s), s.pieces)
    decreases |steps|
  {
    if steps != [] {
      hide Inv, Measure, SpawnCost, FileLen, Enabled, Apply;
      assert Working(steps[0]);
      var s' := Apply(cat, s, steps[0]);
      StepKeeps(cat, s, steps[0]);
      StepDecreases(cat, s, steps[0]);
      WorkingEnabled(cat, s, steps[0]);
      MeasureBound(cat, s);
      MulLess(FailedWrites(steps), SpawnCost(FileLen(cat, s), s.pieces));
      if |steps| > 1 {
        RunShort(cat, s', steps[1..]);
      }
    }
  }

  lemma BeginMeasure(cat: Catalog, s: State, v: Version, p: nat, resume: Option<nat>)
    requires Enabled(cat, s, Begin(v, p, resume))
    ensures v in cat && (resume.Some? ==> 0 < resume.value) && 0 < p
    ensures var s0 := Apply(cat, s, Begin(v, p, resume));
            var n := if resume.None? then p else resume.value;
            && !s0.pc.Idle? && s0.target == v && s0.pieces == n && FileLen(cat, s0) == |cat[v]|
            && Measure(cat, s0) <= (n + p) * SpawnCost(|cat[v]|, n) + 2 * n + 4
  {
    hide SpawnCost;
  }

  /** After any history, a call that begins with p peers and n pieces takes a bounded number of
    * steps, whatever the interleaving and whichever peers fail; each failed local write
    * allows as many more as one worker costs. */
  lemma {:induction false} CallIsShort(cat: Catalog, v0: Version, history: seq<Step>, v: Version, p: nat,
                                       resume: Option<nat>, steps: seq<Step>)
    requires GoodCatalog(cat) && CanRun(cat, Start(v0), history)
    requires Enabled(cat, Run(cat, Start(v0), history), Begin(v, p, resume))
    requires CanRun(cat, Apply(cat, Run(cat, Start(v0), history), Begin(v, p, resume)), steps) && AllWorking(steps)
    ensures var n := if resume.None? then p else resume.value;
            |steps| <= (n + p + FailedWrites(steps)) * SpawnCost(|cat[v]|, n) + 2 * n + 4
  {
    hide Inv, Measure, SpawnCost, Apply, Run, FailedWrites, Enabled;
    RunKeeps(cat, Start(v0), history);
    var s := Run(cat, Start(v0), history);
    BeginMeasure(cat, s, v, p, resume);
    StepKeeps(cat, s, Begin(v, p, resume));
    var n := if resume.None? then p else resume.value;
    AddProducts(n + p, FailedWrites(steps), SpawnCost(|cat[v]|, n));
    RunShort(cat, Apply(cat, s, Begin(v, p, resume)), steps);
  }

  // ---------- liveness ----------

  predicate CanWork(cat: Catalog, s: State, step: Step) {
    Working(step) && Enabled(cat, s, step)
  }

  /** Some block of this length. */
  function Zeros(n: nat): (r: seq<byte>)
    ensures |r| == n
  {
    seq(n, _ => 0)
  }

  lemma ActiveCanWork(cat: Catalog, s: State, t: nat) returns (step: Step)
    requires Inv(cat, s) && Running(cat, s)
    requires t < |s.threads| && Active(s.threads[t])
    ensures CanWork(cat, s, step) && !step.Abort?
  {
    hide AllApart, PcOk, FlagsOk, SizesOk, TempFile, Offset, PieceLen;
    assert ThreadOk(cat, s, s.threads[t]);
    if s.threads[t].phase.Spawned? {
      step := Open(t);
    } else if s.threads[t].phase.got < s.threads[t].phase.want {
      step := Block(t, Zeros(BlockLen(s.threads[t].phase.want - s.threads[t].phase.got)));
    } else {
      step := Finish(t);
    }
  }

  lemma QuietCanWork(cat: Catalog, s: State, p: nat) returns (step: Step)
    requires GoodCatalog(cat) && Inv(cat, s) && Running(cat, s) && NoneActive(s)
    requires p < s.peers && s.flags[p] != Dead
    ensures CanWork(cat, s, step) && !step.Abort?
  {
    hide Reparsed;
    QuietFlags(cat, s);
    if s.pc.Waiting? {
      ReparsedPiece(cat, s, s.pc.i);
      step := Dispatch(p);
    } else {
      step := if s.pc == Scanning(s.pieces, false) then Save(CannotOpen) else Coordinate;
    }
  }

  /** While one peer is alive, something can always be done until the file is merged: the
    * coordinator is never stuck for good. */
  lemma NeverStuck(cat: Catalog, s: State, p: nat) returns (step: Step)
    requires GoodCatalog(cat) && Inv(cat, s) && Running(cat, s)
    requires p < s.peers && s.flags[p] != Dead
    ensures CanWork(cat, s, step) && !step.Abort?
  {
    if NoneActive(s) {
      step := QuietCanWork(cat, s, p);
    } else {
      var t: nat :| t < |s.threads| && Active(s.threads[t]);
      step := ActiveCanWork(cat, s, t);
    }
  }

  predicate MovesAt(cat: Catalog, run: nat -> State, sched: nat -> Option<Step>, n: nat) {
    match sched(n)
    case None => run(n + 1) == run(n)
    case Some(step) => CanWork(cat, run(n), step) && run(n + 1) == Apply(cat, run(n), step)
  }

  /** An endless run: at each moment a step inside the call is taken, or nothing happens. */
  ghost predicate IsRun(cat: Catalog, run: nat -> State, sched: nat -> Option<Step>) {
    forall n: nat :: MovesAt(cat, run, sched, n)
  }

  /** No local write fails at moment n. */
  predicate WritesAt(sched: nat -> Option<Step>, n: nat) {
    sched(n).Some? ==> !sched(n).value.Abort?
  }

  /** Fairness: when some step is possible, some step is taken sooner or later. In particular a
    * peer whose worker waits for it sends or closes the connection. */
  ghost predicate Fair(cat: Catalog, run: nat -> State, sched: nat -> Option<Step>) {
    forall n: nat, step :: CanWork(cat, run(n), step) ==> exists m: nat :: n <= m && sched(m).Some?
  }

  lemma StepAt(cat: Catalog, run: nat -> State, sched: nat -> Option<Step>, n: nat)
    requires IsRun(cat, run, sched)
    ensures sched(n).None? ==> run(n + 1) == run(n)
    ensures sched(n).Some? ==> CanWork(cat, run(n), sched(n).value) && run(n + 1) == Apply(cat, run(n), sched(n).value)
  {
    hide Apply, Enabled, Working;
    assert MovesAt(cat, run, sched, n);
  }

  /** Pieces are handed out again only if the file names survive parsing. */
  ghost predicate Regular(cat: Catalog, sched: nat -> Option<Step>) {
    GoodCatalog(cat) || forall n: nat :: sched(n).Some? ==> !sched(n).value.Dispatch?
  }

  lemma RegularAt(cat: Catalog, sched: nat -> Option<Step>, n: nat)
    requires Regular(cat, sched) && sched(n).Some?
    ensures sched(n).value.Dispatch? ==> GoodCatalog(cat)
  {
  }

  lemma {:induction false} RunInv(cat: Catalog, run: nat -> State, sched: nat -> Option<Step>, n: nat)
    requires Regular(cat, sched) && IsRun(cat, run, sched)
    requires Inv(cat, run(0)) && Running(cat, run(0))
    ensures Inv(cat, run(n)) && !run(n).pc.Idle?
    ensures run(n).target == run(0).target && run(n).peers == run(0).peers && run(n).pieces == run(0).pieces
    ensures !run(n).pc.Done? ==> Running(cat, run(n))
  {
    hide Regular, IsRun;
    if n > 0 {
      RunInv(cat, run, sched, n - 1);
      StepAt(cat, run, sched, n - 1);
      match sched(n - 1)
      case None =>
      case Some(step) =>
        RegularAt(cat, sched, n - 1);
        StepKeeps(cat, run(n - 1), step);
        WorkingEnabled(cat, run(n - 1), step);
    }
  }

  function Measure'(cat: Catalog, s: State): nat {
    if s.target in cat && 0 < Measure(cat, s) then Measure(cat, s) else 0
  }

  /** From moment n on nothing is done any more. */
  ghost predicate StopsAt(sched: nat -> Option<Step>, n: nat) {
    forall m: nat :: n <= m ==> sched(m).None?
  }

  /** The first moment from n on at which a step is taken. */
  lemma NextMove(sched: nat -> Option<Step>, n: nat) returns (m: nat)
    requires !StopsAt(sched, n)
    ensures n <= m && sched(m).Some? && forall k :: n <= k < m ==> sched(k).None?
  {
    var far: nat :| n <= far && sched(far).Some?;
    m := n;
    while sched(m).None?
      invariant n <= m <= far && forall k :: n <= k < m ==> sched(k).None?
      decreases far - m
    {
      m := m + 1;
    }
  }

  lemma {:induction false} StaysWhileNothing(cat: Catalog, run: nat -> State, sched: nat -> Option<Step>, n: nat,
                                             m: nat)
    requires IsRun(cat, run, sched) && n <= m && forall k :: n <= k < m ==> sched(k).None?
    ensures run(m) == run(n)
    decreases m
  {
    if n < m {
      StaysWhileNothing(cat, run, sched, n, m - 1);
      StepAt(cat, run, sched, m - 1);
    }
  }

  lemma {:induction false} DoneStays(cat: Catalog, run: nat -> State, sched: nat -> Option<Step>, k: nat, n: nat)
    requires IsRun(cat, run, sched) && run(k).pc.Done? && k <= n
    ensures run(n) == run(k)
    decreases n
  {
    hide IsRun, Apply, Enabled;
    if k < n {
      DoneStays(cat, run, sched, k, n - 1);
      StepAt(cat, run, sched, n - 1);
      if sched(n - 1).Some? {
        WorkingEnabled(cat, run(n - 1), sched(n - 1).value);
      }
    }
  }

  /** Every run of a call in which only finitely many local writes fail stops: whatever the
    * peers do, only finitely many steps are taken. By induction on the measure. */
  lemma {:induction false} RunStops(cat: Catalog, run: nat -> State, sched: nat -> Option<Step>, n: nat)
    requires Regular(cat, sched) && IsRun(cat, run, sched)
    requires Inv(cat, run(0)) && Running(cat, run(0))
    requires forall k :: n <= k ==> WritesAt(sched, k)
    ensures exists m: nat :: n <= m && StopsAt(sched, m)
    decreases Measure'(cat, run(n))
  {
    hide Inv, Measure, Apply, Enabled, Regular, IsRun, StopsAt;
    if !StopsAt(sched, n) {
      var m := NextMove(sched, n);
      StaysWhileNothing(cat, run, sched, n, m);
      RunInv(cat, run, sched, m);
      RunInv(cat, run, sched, m + 1);
      StepAt(cat, run, sched, m);
      RegularAt(cat, sched, m);
      assert WritesAt(sched, m);
      StepDecreases(cat, run(m), sched(m).value);
      WorkingEnabled(cat, run(m), sched(m).value);
      MeasureBound(cat, run(m));
      RunStops(cat, run, sched, m + 1);
    } else {
      assert StopsAt(sched, n);
    }
  }

  /** A run that reaches the merge was fair. */
  lemma MergedIsFair(cat: Catalog, run: nat -> State, sched: nat -> Option<Step>, k: nat)
    requires IsRun(cat, run, sched) && run(k).pc.Done?
    ensures Fair(cat, run, sched)
  {
    forall n: nat, step | CanWork(cat, run(n), step)
      ensures exists m: nat :: n <= m && sched(m).Some?
    {
      if k <= n {
        DoneStays(cat, run, sched, k, n);
      } else if forall m :: n <= m < k ==> sched(m).None? {
        StaysWhileNothing(cat, run, sched, n, k);
      }
    }
  }

  lemma FairMerges(cat: Catalog, run: nat -> State, sched: nat -> Option<Step>, p: nat, quiet: nat)
    requires GoodCatalog(cat) && IsRun(cat, run, sched) && Fair(cat, run, sched)
    requires Inv(cat, run(0)) && Running(cat, run(0))
    requires p < run(0).peers && forall k: nat :: Running(cat, run(k)) ==> p < |run(k).flags| && run(k).flags[p] != Dead
    requires forall k :: quiet <= k ==> WritesAt(sched, k)
    ensures exists k: nat :: run(k).pc.Done?
  {
    RunStops(cat, run, sched, quiet);
    var n: nat :| quiet <= n && StopsAt(sched, n);
    RunInv(cat, run, sched, n);
    if !run(n).pc.Done? {
      var step := NeverStuck(cat, run(n), p);
    }
  }

  /** The download terminates: after any history, in a run in which one peer never fails and
    * only finitely many local writes do, the waiting loop and the dispatch loop end and the
    * call ends if and only if the run is fair. */
  lemma {:induction false} DownloadTerminates(cat: Catalog, v: Version, history: seq<Step>, run: nat -> State,
                                              sched: nat -> Option<Step>, p: nat, quiet: nat)
    requires GoodCatalog(cat) && CanRun(cat, Start(v), history)
    requires run(0) == Run(cat, Start(v), history) && Running(cat, run(0))
    requires IsRun(cat, run, sched)
    requires p < run(0).peers && forall k: nat :: Running(cat, run(k)) ==> p < |run(k).flags| && run(k).flags[p] != Dead
    requires forall k :: quiet <= k ==> WritesAt(sched, k)
    ensures (exists k: nat :: run(k).pc.Done?) <==> Fair(cat, run, sched)
  {
    hide Inv, CanWork, Fair, IsRun, GoodCatalog, Run, CanRun;
    RunKeeps(cat, Start(v), history);
    if Fair(cat, run, sched) {
      FairMerges(cat, run, sched, p, quiet);
    }
    if k: nat :| run(k).pc.Done? {
      MergedIsFair(cat, run, sched, k);
    }
  }

  // ---------- a peer that does nothing ----------

  /** The step is worker t's own. */
  predicate StepOf(step: Step, t: nat) {
    match step
    case Refuse(u) => u == t
    case Open(u) => u == t
    case Block(u, _) => u == t
    case Lose(u) => u == t
    case Abort(u, _) => u == t
    case Finish(u) => u == t
    case _ => false
  }

  lemma OtherStep(cat: Catalog, s: State, step: Step, t: nat)
    requires Inv(cat, s) && Running(cat, s) && Enabled(cat, s, step) && Working(step)
    requires step.Dispatch? ==> GoodCatalog(cat)
    requires t < |s.threads| && Active(s.threads[t]) && !StepOf(step, t)
    ensures var s' := Apply(cat, s, step);
            Running(cat, s') && t < |s'.threads| && s'.threads[t] == s.threads[t]
  {
    hide Reparsed, FlagsOk;
    var s' := Apply(cat, s, step);
    StepKeeps(cat, s, step);
    assert s'.threads[t] == s.threads[t];
  }

  /** What fairness has to exclude: if the peer of one running worker neither sends nor closes
    * the connection, the call never reaches the merge, whatever the other peers do. */
  lemma {:induction false} SilentPeerBlocks(cat: Catalog, s: State, t: nat, steps: seq<Step>)
    requires GoodCatalog(cat) && Inv(cat, s) && Running(cat, s) && CanRun(cat, s, steps)
    requires t < |s.threads| && Active(s.threads[t])
    requires forall k :: 0 <= k < |steps| ==> Working(steps[k]) && !StepOf(steps[k], t)
    ensures Running(cat, Run(cat, s, steps))
    decreases |steps|
  {
    if steps != [] {
      OtherStep(cat, s, steps[0], t);
      StepKeeps(cat, s, steps[0]);
      SilentPeerBlocks(cat, Apply(cat, s, steps[0]), t, steps[1..]);
    }
  }
}
