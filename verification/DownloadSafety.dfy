/** What every step of the download keeps, and what follows for every run. */
module DownloadSafety {
  import opened Wrappers
  import opened Files
  import opened Partition
  import opened Merge
  import opened Download
  import TempName

  function PieceOfState(cat: Catalog, s: State, i: nat): string
    requires s.target in cat && 0 < s.pieces
  {
    PieceFile(s.target, FileLen(cat, s), i, s.pieces)
  }

  /** Piece i needs no further download. */
  predicate Whole(cat: Catalog, s: State, i: nat)
    requires s.target in cat && 0 < s.pieces
  {
    SizeOf(s.temps, PieceOfState(cat, s, i)) >= PieceLen(FileLen(cat, s), i, s.pieces)
  }

  /** A worker that still counts for its piece: running, or ended with the piece complete. */
  predicate Live(t: Thread) {
    Active(t) || t.phase.Complete?
  }

  predicate ActiveOn(s: State, t: nat, p: nat) {
    t < |s.threads| && Active(s.threads[t]) && s.threads[t].peer == p
  }

  ghost predicate Shape(cat: Catalog, s: State) {
    && s.target in cat
    && 0 < s.peers <= MAX_PEERS && 0 < s.pieces
    && |s.flags| == s.peers
  }

  /** A worker knows its piece, and its file and its request add up to that piece. */
  ghost predicate ThreadOk(cat: Catalog, s: State, t: Thread)
    requires Shape(cat, s)
  {
    && t.peer < s.peers && t.idx < s.pieces && t.v == s.target
    && t.start == Offset(FileLen(cat, s), t.idx, s.pieces)
    && t.len == PieceLen(FileLen(cat, s), t.idx, s.pieces)
    && (t.phase.Receiving? ==>
          && ThreadFile(t) in s.temps && 0 <= t.phase.from
          && t.phase.got <= t.phase.want
          && |s.temps[ThreadFile(t)]| + t.phase.want - t.phase.got == t.len
          && t.phase.from + t.phase.want == t.start + t.len)
    && (t.phase.Complete? ==> SizeOf(s.temps, ThreadFile(t)) == t.len)
  }

  ghost predicate ThreadsOk(cat: Catalog, s: State)
    requires Shape(cat, s)
  {
    forall t :: 0 <= t < |s.threads| ==> ThreadOk(cat, s, s.threads[t])
  }

  /** Two workers never share a peer, a failed peer is never used again, and no piece is given
    * to two workers that count for it. */
  ghost predicate Apart(a: Thread, b: Thread) {
    && (Active(a) && Active(b) ==> a.peer != b.peer)
    && (Live(a) && Live(b) ==> a.idx != b.idx)
    && (a.phase.Failed? && b.phase.Failed? ==> a.peer != b.peer)
  }

  ghost predicate AllApart(s: State) {
    forall t, u :: 0 <= t < u < |s.threads| ==> Apart(s.threads[t], s.threads[u])
  }

  /** A flag is 1 exactly while a worker uses that peer, and stays 2 once it is 2. */
  ghost predicate FlagsOk(cat: Catalog, s: State)
    requires Shape(cat, s) && ThreadsOk(cat, s)
  {
    && (forall t :: 0 <= t < |s.threads| && Active(s.threads[t]) ==> s.flags[s.threads[t].peer] == Busy)
    && (forall t :: 0 <= t < |s.threads| && s.threads[t].phase.Failed? ==> s.flags[s.threads[t].peer] == Dead)
    && (forall p :: 0 <= p < s.peers && s.flags[p] == Busy ==> exists t :: ActiveOn(s, t, p))
  }

  /** All running workers work on pieces before piece i. */
  ghost predicate ActiveBelow(s: State, i: nat) {
    forall t :: 0 <= t < |s.threads| && Active(s.threads[t]) ==> s.threads[t].idx < i
  }

  ghost predicate NoneActive(s: State) {
    forall t :: 0 <= t < |s.threads| ==> !Active(s.threads[t])
  }

  ghost predicate PcOk(cat: Catalog, s: State)
    requires Shape(cat, s)
  {
    match s.pc
    case Idle => true
    case Launching(i) =>
      && s.pieces == s.peers && i <= s.peers && |s.threads| == i
      && (forall t :: 0 <= t < i ==> s.threads[t].idx == t && s.threads[t].peer == t)
      && (forall p :: i <= p < s.peers ==> s.flags[p] == Free)
    case Polling => true
    case Scanning(i, mark) =>
      && i <= s.pieces && ActiveBelow(s, i)
      && (!mark ==> NoneActive(s) && forall j :: 0 <= j < i ==> Whole(cat, s, j))
    case Waiting(i) => i < s.pieces && ActiveBelow(s, i) && !Whole(cat, s, i)
    case Done(_, _) => true
  }

  /** Every worker was started for a piece and a peer of this call; the peer of a worker that
    * failed is flagged. */
  ghost predicate Placed(s: State) {
    forall t :: 0 <= t < |s.threads| ==>
      && s.threads[t].idx < s.pieces && s.threads[t].peer < |s.flags|
      && (s.threads[t].phase.Failed? ==> s.flags[s.threads[t].peer] == Dead)
  }

  /** After the merge: nothing runs and no flag is 1. */
  ghost predicate DoneOk(cat: Catalog, s: State)
    requires Shape(cat, s) && s.pc.Done?
  {
    && AllApart(s) && NoneActive(s) && NoneBusy(s.flags)
    && Placed(s)
  }

  ghost predicate Inv(cat: Catalog, s: State) {
    && SizesOk(s.temps)
    && (if s.pc.Idle? then s.threads == [] && s.flags == []
        else if s.pc.Done? then Shape(cat, s) && DoneOk(cat, s)
        else Shape(cat, s) && ThreadsOk(cat, s) && AllApart(s) && FlagsOk(cat, s) && PcOk(cat, s))
  }

  // ---------- files of different pieces ----------

  /** A worker's file is the file of its piece. */
  lemma ThreadFileIsPiece(cat: Catalog, s: State, t: Thread)
    requires Shape(cat, s) && ThreadOk(cat, s, t)
    ensures ThreadFile(t) == PieceOfState(cat, s, t.idx)
  {
  }

  /** If the piece of worker t has bytes, no other piece uses its file. */
  lemma OtherFile(cat: Catalog, s: State, t: Thread, j: nat)
    requires Shape(cat, s) && ThreadOk(cat, s, t) && 0 < t.len && t.idx != j
    ensures ThreadFile(t) != PieceOfState(cat, s, j)
  {
    if ThreadFile(t) == PieceOfState(cat, s, j) {
      SamePieceName(s.target, FileLen(cat, s), t.idx, j, s.pieces);
    }
  }

  /** A worker's file lies inside the source. */
  lemma ThreadRange(cat: Catalog, s: State, t: Thread)
    requires Shape(cat, s) && ThreadOk(cat, s, t)
    ensures t.start + t.len <= FileLen(cat, s)
  {
    PieceInside(FileLen(cat, s), t.idx, s.pieces);
  }

  // ---------- the steps of a worker ----------

  ghost predicate GrowsOnly(temps: Temps, temps': Temps, name: string) {
    && (forall k :: k in temps ==> k in temps' && (k != name ==> temps'[k] == temps[k]))
    && (forall k :: k in temps' && k !in temps ==> k == name)
    && SizeOf(temps, name) <= SizeOf(temps', name)
  }

  /** s' differs from s in the phase of worker t, the flag of its peer, and its file, to which
    * bytes may have been added. */
  ghost predicate WorkerStep(cat: Catalog, s: State, s': State, t: nat)
    requires Shape(cat, s) && ThreadsOk(cat, s)
  {
    && Shape(cat, s') && s'.target == s.target && s'.peers == s.peers && s'.pieces == s.pieces && s'.pc == s.pc
    && t < |s.threads| == |s'.threads| && Active(s.threads[t])
    && s'.threads == s.threads[t := s.threads[t].(phase := s'.threads[t].phase)]
    && s'.flags == s.flags[s.threads[t].peer := s'.flags[s.threads[t].peer]]
    && GrowsOnly(s.temps, s'.temps, ThreadFile(s.threads[t]))
    && (SizeOf(s.temps, ThreadFile(s.threads[t])) < SizeOf(s'.temps, ThreadFile(s.threads[t])) ==>
          0 < s.threads[t].len)
  }

  /** What worker u knows about its file survives a step of worker t. */
  lemma OthersKept(cat: Catalog, s: State, s': State, t: nat, u: nat)
    requires Shape(cat, s) && ThreadsOk(cat, s) && AllApart(s)
    requires WorkerStep(cat, s, s', t) && u < |s.threads| && u != t
    ensures ThreadOk(cat, s', s'.threads[u])
  {
    var a, b := s.threads[t], s.threads[u];
    assert ThreadOk(cat, s, a) && ThreadOk(cat, s, b);
    assert Apart(if t < u then a else b, if t < u then b else a);
    if Live(b) && 0 < a.len {
      OtherFile(cat, s, a, b.idx);
    }
  }

  /** A worker's step keeps what the coordinator knows about pieces. */
  lemma PiecesKept(cat: Catalog, s: State, s': State, t: nat)
    requires Shape(cat, s) && ThreadsOk(cat, s) && PcOk(cat, s)
    requires WorkerStep(cat, s, s', t)
    requires !s.pc.Done? && !s.pc.Idle?
    ensures PcOk(cat, s')
  {
    var a := s.threads[t];
    assert ThreadOk(cat, s, a);
    match s.pc
    case Launching(i) =>
    case Waiting(i) =>
      if 0 < a.len {
        OtherFile(cat, s, a, i);
      }
    case _ =>
  }

  lemma ApartKept(cat: Catalog, s: State, s': State, t: nat)
    requires Shape(cat, s) && ThreadsOk(cat, s) && AllApart(s) && FlagsOk(cat, s)
    requires WorkerStep(cat, s, s', t)
    ensures AllApart(s')
  {
    forall u, w | 0 <= u < w < |s'.threads|
      ensures Apart(s'.threads[u], s'.threads[w])
    {
      assert Apart(s.threads[u], s.threads[w]);
    }
  }

  /** The flags fit the workers again, if the worker that moved set its own flag rightly. */
  lemma FlagsKept(cat: Catalog, s: State, s': State, t: nat)
    requires Shape(cat, s) && ThreadsOk(cat, s) && AllApart(s) && FlagsOk(cat, s)
    requires WorkerStep(cat, s, s', t) && ThreadsOk(cat, s')
    requires var a := s'.threads[t];
             s'.flags[a.peer] == (if Active(a) then Busy else if a.phase.Failed? then Dead else Free)
    ensures FlagsOk(cat, s')
  {
    var p := s.threads[t].peer;
    forall u | 0 <= u < |s'.threads| && u != t
      ensures Active(s'.threads[u]) ==> s'.flags[s'.threads[u].peer] == Busy
      ensures s'.threads[u].phase.Failed? ==> s'.flags[s'.threads[u].peer] == Dead
    {
      assert Apart(s.threads[if u < t then u else t], s.threads[if u < t then t else u]);
    }
    forall q | 0 <= q < s'.peers && s'.flags[q] == Busy
      ensures exists u :: ActiveOn(s', u, q)
    {
      if q == p {
        assert ActiveOn(s', t, q);
      } else {
        var u :| ActiveOn(s, u, q);
        assert ActiveOn(s', u, q);
      }
    }
  }

  /** The invariant after a worker's step follows from what the step does to the worker itself. */
  lemma WorkerKeeps(cat: Catalog, s: State, s': State, t: nat)
    requires Inv(cat, s) && Running(cat, s)
    requires WorkerStep(cat, s, s', t)
    requires SizesOk(s'.temps) && ThreadOk(cat, s', s'.threads[t])
    requires var a := s'.threads[t];
             s'.flags[a.peer] == (if Active(a) then Busy else if a.phase.Failed? then Dead else Free)
    ensures Inv(cat, s')
  {
    forall u | 0 <= u < |s'.threads|
      ensures ThreadOk(cat, s', s'.threads[u])
    {
      if u != t {
        OthersKept(cat, s, s', t, u);
      }
    }
    ApartKept(cat, s, s', t);
    FlagsKept(cat, s, s', t);
    PiecesKept(cat, s, s', t);
  }

  /** Refuse, Lose and Finish: the worker only ends. */
  lemma KeepsEnd(cat: Catalog, s: State, t: nat, phase: Phase, flag: Flag)
    requires Inv(cat, s) && Running(cat, s)
    requires t < |s.threads| && Active(s.threads[t])
    requires phase.Complete? ==> s.threads[t].phase.Receiving? && s.threads[t].phase.got >= s.threads[t].phase.want
    requires phase.Complete? || phase.Aborted? || phase.Failed?
    requires flag == if phase.Failed? then Dead else Free
    ensures Inv(cat, End(s, t, phase, flag))
  {
    assert ThreadOk(cat, s, s.threads[t]);
    WorkerKeeps(cat, s, End(s, t, phase, flag), t);
  }

  lemma KeepsOpen(cat: Catalog, s: State, t: nat)
    requires Inv(cat, s) && Enabled(cat, s, Open(t))
    ensures Inv(cat, Opening(s, t))
  {
    hide AllApart, PcOk, DoneOk, TempFile, PieceFile, Offset, PieceLen;
    var s' := Opening(s, t);
    var th := s.threads[t];
    assert ThreadOk(cat, s, th);
    ThreadRange(cat, s, th);
    var before := if ThreadFile(th) in s.temps then s.temps[ThreadFile(th)] else [];
    assert before + [] == before;
    SizesOkUpdate(s.temps, th.v, th.start, th.len, before);
    WorkerKeeps(cat, s, s', t);
  }

  /** Appending some bytes is a step of the worker alone. */
  lemma AppendIsWorkerStep(cat: Catalog, s: State, s': State, t: nat, data: seq<byte>)
    requires Inv(cat, s) && Running(cat, s) && InPhase(s, t, true)
    requires |data| <= s.threads[t].phase.want - s.threads[t].phase.got
    requires s'.temps == Append(s.temps, ThreadFile(s.threads[t]), data)
    requires Shape(cat, s') && s'.target == s.target && s'.peers == s.peers && s'.pieces == s.pieces && s'.pc == s.pc
    requires |s'.threads| == |s.threads|
    requires s'.threads == s.threads[t := s.threads[t].(phase := s'.threads[t].phase)]
    requires s'.flags == s.flags[s.threads[t].peer := s'.flags[s.threads[t].peer]]
    ensures WorkerStep(cat, s, s', t)
    ensures |s'.temps[ThreadFile(s.threads[t])]| == |s.temps[ThreadFile(s.threads[t])]| + |data|
    ensures SizesOk(s'.temps)
  {
    var th := s.threads[t];
    assert ThreadOk(cat, s, th);
    SizesOkUpdate(s.temps, th.v, th.start, th.len, s.temps[ThreadFile(th)] + data);
  }

  lemma KeepsBlock(cat: Catalog, s: State, t: nat, data: seq<byte>)
    requires Inv(cat, s) && Enabled(cat, s, Block(t, data))
    ensures Inv(cat, Apply(cat, s, Block(t, data)))
  {
    hide AllApart, PcOk, DoneOk, TempFile, PieceFile, Offset, PieceLen;
    var s' := Apply(cat, s, Block(t, data));
    assert ThreadOk(cat, s, s.threads[t]);
    AppendIsWorkerStep(cat, s, s', t, data);
    assert ThreadOk(cat, s', s'.threads[t]);
    WorkerKeeps(cat, s, s', t);
  }

  lemma KeepsAbort(cat: Catalog, s: State, t: nat, data: seq<byte>)
    requires Inv(cat, s) && Enabled(cat, s, Abort(t, data))
    ensures Inv(cat, Apply(cat, s, Abort(t, data)))
  {
    hide AllApart, PcOk, DoneOk, TempFile, PieceFile, Offset, PieceLen;
    var th := s.threads[t];
    assert ThreadOk(cat, s, th);
    if th.phase.Spawned? {
      KeepsEnd(cat, s, t, Aborted, Free);
    } else {
      AppendIsWorkerStep(cat, s, Apply(cat, s, Abort(t, data)), t, data);
      WorkerKeeps(cat, s, Apply(cat, s, Abort(t, data)), t);
    }
  }

  // ---------- the steps of the coordinator ----------

  function NewThread(cat: Catalog, s: State, peer: nat, i: nat): Thread
    requires s.target in cat && 0 < s.pieces
  {
    Thread(peer, i, s.target, Offset(FileLen(cat, s), i, s.pieces), PieceLen(FileLen(cat, s), i, s.pieces), Spawned)
  }

  lemma SpawnApart(cat: Catalog, s: State, peer: nat, i: nat, s': State)
    requires Inv(cat, s) && Running(cat, s)
    requires peer < s.peers && s.flags[peer] == Free
    requires forall t :: 0 <= t < |s.threads| && Live(s.threads[t]) ==> s.threads[t].idx != i
    requires s' == Spawn(s, peer, NewThread(cat, s, peer, i)).(pc := s'.pc)
    ensures AllApart(s')
  {
    forall t, u | 0 <= t < u < |s'.threads|
      ensures Apart(s'.threads[t], s'.threads[u])
    {
      if u < |s.threads| {
        assert Apart(s.threads[t], s.threads[u]);
      }
    }
  }

  lemma SpawnFlags(cat: Catalog, s: State, peer: nat, i: nat, s': State)
    requires Inv(cat, s) && Running(cat, s)
    requires peer < s.peers && s.flags[peer] == Free
    requires s' == Spawn(s, peer, NewThread(cat, s, peer, i)).(pc := s'.pc)
    requires Shape(cat, s') && ThreadsOk(cat, s')
    ensures FlagsOk(cat, s')
  {
    forall q | 0 <= q < s'.peers && s'.flags[q] == Busy
      ensures exists u :: ActiveOn(s', u, q)
    {
      if q == peer {
        assert ActiveOn(s', |s.threads|, q);
      } else {
        var u :| ActiveOn(s, u, q);
        assert ActiveOn(s', u, q);
      }
    }
  }

  /** Handing piece i to a free peer. */
  lemma KeepsSpawn(cat: Catalog, s: State, peer: nat, i: nat, s': State)
    requires Inv(cat, s) && Running(cat, s)
    requires peer < s.peers && s.flags[peer] == Free && i < s.pieces
    requires forall t :: 0 <= t < |s.threads| && Live(s.threads[t]) ==> s.threads[t].idx != i
    requires s' == Spawn(s, peer, NewThread(cat, s, peer, i)).(pc := s'.pc)
    requires !s'.pc.Idle? && !s'.pc.Done? && PcOk(cat, s')
    ensures Inv(cat, s')
  {
    forall t | 0 <= t < |s'.threads|
      ensures ThreadOk(cat, s', s'.threads[t])
    {
      if t < |s.threads| {
        assert ThreadOk(cat, s, s.threads[t]);
      }
    }
    SpawnApart(cat, s, peer, i, s');
    SpawnFlags(cat, s, peer, i, s');
  }

  /** The name printed for a piece is parsed back into the piece. */
  lemma ReparsedPiece(cat: Catalog, s: State, i: nat)
    requires GoodCatalog(cat) && Shape(cat, s) && i < s.pieces
    ensures Reparsed(cat, s, i) ==
            Some(TempName.PieceInfo(s.target.name, Offset(FileLen(cat, s), i, s.pieces),
                                    PieceLen(FileLen(cat, s), i, s.pieces), s.target.timestamp))
  {
    var off, len := Offset(FileLen(cat, s), i, s.pieces), PieceLen(FileLen(cat, s), i, s.pieces);
    PieceInside(FileLen(cat, s), i, s.pieces);
    TempName.RoundTrip(s.target.name, off, len, s.target.timestamp);
  }

  /** A piece that is incomplete, with all running workers on earlier pieces, has no worker
    * that counts for it. */
  lemma WaitingIsFree(cat: Catalog, s: State, i: nat)
    requires Shape(cat, s) && ThreadsOk(cat, s) && i < s.pieces
    requires ActiveBelow(s, i) && !Whole(cat, s, i)
    ensures forall t :: 0 <= t < |s.threads| && Live(s.threads[t]) ==> s.threads[t].idx != i
  {
    forall t | 0 <= t < |s.threads| && Live(s.threads[t])
      ensures s.threads[t].idx != i
    {
      assert ThreadOk(cat, s, s.threads[t]);
      ThreadFileIsPiece(cat, s, s.threads[t]);
    }
  }

  /** What is handed to the free peer is the piece the coordinator stopped at, although it
    * goes through the text of a file name. */
  lemma DispatchesPiece(cat: Catalog, s: State, peer: nat)
    requires GoodCatalog(cat) && Shape(cat, s) && Enabled(cat, s, Dispatch(peer)) && s.pc.i < s.pieces
    ensures Apply(cat, s, Dispatch(peer)) ==
            Spawn(s, peer, NewThread(cat, s, peer, s.pc.i)).(pc := Scanning(s.pc.i + 1, true))
  {
    ReparsedPiece(cat, s, s.pc.i);
    assert Apply(cat, s, Dispatch(peer)) == Dispatched(s, peer, s.pc.i, Reparsed(cat, s, s.pc.i).value);
  }

  lemma KeepsDispatch(cat: Catalog, s: State, peer: nat)
    requires GoodCatalog(cat) && Inv(cat, s) && Enabled(cat, s, Dispatch(peer))
    ensures Inv(cat, Apply(cat, s, Dispatch(peer)))
  {
    hide AllApart, FlagsOk, MergePieces, TempFile, PieceFile, Offset, PieceLen, Reparsed;
    DispatchesPiece(cat, s, peer);
    WaitingIsFree(cat, s, s.pc.i);
    KeepsSpawn(cat, s, peer, s.pc.i, Apply(cat, s, Dispatch(peer)));
  }

  lemma AllPlaced(cat: Catalog, s: State)
    requires Shape(cat, s) && ThreadsOk(cat, s) && FlagsOk(cat, s)
    ensures Placed(s)
  {
    forall t | 0 <= t < |s.threads|
      ensures s.threads[t].idx < s.pieces && s.threads[t].peer < |s.flags|
    {
      assert ThreadOk(cat, s, s.threads[t]);
    }
  }

  /** No running worker, no flag at 1. */
  lemma QuietFlags(cat: Catalog, s: State)
    requires Shape(cat, s) && ThreadsOk(cat, s) && FlagsOk(cat, s) && NoneActive(s)
    ensures NoneBusy(s.flags)
  {
    assert forall t, p :: !ActiveOn(s, t, p);
  }

  lemma KeepsSave(cat: Catalog, s: State, target: Target)
    requires Inv(cat, s) && Enabled(cat, s, Save(target))
    ensures Inv(cat, Saving(cat, s, target))
  {
    hide MergePieces, PieceFile, PieceName;
    QuietFlags(cat, s);
    AllPlaced(cat, s);
    if target.Room? {
      MergeRemoves(s.temps, target.room, s.target, FileLen(cat, s), 0, s.pieces);
    }
    SizesOkSubset(s.temps, Saving(cat, s, target).temps);
  }

  /** Moving the program counter alone touches nothing but PcOk. */
  lemma SamePc(cat: Catalog, s: State, pc: Pc)
    requires Inv(cat, s) && Running(cat, s) && !pc.Idle? && !pc.Done?
    requires PcOk(cat, s.(pc := pc))
    ensures Inv(cat, s.(pc := pc))
  {
    var s' := s.(pc := pc);
    forall t | 0 <= t < |s.threads|
      ensures ThreadOk(cat, s', s'.threads[t])
    {
      assert ThreadOk(cat, s, s.threads[t]);
    }
    forall t, u | 0 <= t < u < |s.threads|
      ensures Apart(s'.threads[t], s'.threads[u])
    {
      assert Apart(s.threads[t], s.threads[u]);
    }
    forall p | 0 <= p < s'.peers && s'.flags[p] == Busy
      ensures exists t :: ActiveOn(s', t, p)
    {
      var t :| ActiveOn(s, t, p);
      assert ActiveOn(s', t, p);
    }
  }

  lemma KeepsLaunch(cat: Catalog, s: State)
    requires Inv(cat, s) && Enabled(cat, s, Coordinate) && s.pc.Launching?
    ensures Inv(cat, Coordination(cat, s))
  {
    var i := s.pc.i;
    if i < s.peers {
      KeepsSpawn(cat, s, i, i, Coordination(cat, s));
    } else {
      SamePc(cat, s, Polling);
    }
  }

  /** When no flag is 1, the next scan starts with no worker running. */
  lemma KeepsPoll(cat: Catalog, s: State)
    requires Inv(cat, s) && Enabled(cat, s, Coordinate) && s.pc.Polling?
    ensures Inv(cat, Coordination(cat, s))
  {
    assert NoneActive(s) by {
      forall t | 0 <= t < |s.threads|
        ensures !Active(s.threads[t])
      {
        assert ThreadOk(cat, s, s.threads[t]);
      }
    }
    SamePc(cat, s, Scanning(0, false));
  }

  /** The scan goes on behind a piece that needs nothing. */
  lemma KeepsSkip(cat: Catalog, s: State)
    requires Inv(cat, s) && s.pc.Scanning? && s.pc.i < s.pieces && Whole(cat, s, s.pc.i)
    ensures Inv(cat, s.(pc := Scanning(s.pc.i + 1, s.pc.mark)))
  {
    var i := s.pc.i;
    var s' := s.(pc := Scanning(i + 1, s.pc.mark));
    assert PcOk(cat, s') by {
      if !s.pc.mark {
        forall j | 0 <= j < i + 1
          ensures Whole(cat, s', j)
        {
          assert Whole(cat, s, j);
        }
      }
    }
    SamePc(cat, s, s'.pc);
  }

  lemma KeepsScan(cat: Catalog, s: State)
    requires Inv(cat, s) && Enabled(cat, s, Coordinate)
    requires s.pc.Scanning?
    ensures Inv(cat, Coordination(cat, s))
  {
    hide ThreadsOk, AllApart, FlagsOk, MergePieces;
    if s.pc.i == s.pieces {
      SamePc(cat, s, Polling);
    } else if Whole(cat, s, s.pc.i) {
      KeepsSkip(cat, s);
    } else {
      SamePc(cat, s, Waiting(s.pc.i));
    }
  }

  // ---------- every step, every run ----------

  lemma KnownSizes(cat: Catalog, s: State)
    requires Inv(cat, s)
    ensures SizesOk(s.temps)
  {
  }

  lemma KeepsCrash(cat: Catalog, s: State)
    requires Inv(cat, s) && Enabled(cat, s, Crash)
    ensures Inv(cat, Apply(cat, s, Crash))
  {
  }

  lemma KeepsBegin(cat: Catalog, s: State, v: Version, p: nat, resume: Option<nat>)
    requires SizesOk(s.temps) && Enabled(cat, s, Begin(v, p, resume))
    ensures Inv(cat, Apply(cat, s, Begin(v, p, resume)))
  {
  }

  lemma KeepsSweep(cat: Catalog, s: State, keep: set<string>)
    requires Inv(cat, s) && Enabled(cat, s, Sweep(keep))
    ensures Inv(cat, Apply(cat, s, Sweep(keep)))
  {
    var s' := Apply(cat, s, Sweep(keep));
    SizesOkSubset(s.temps, s'.temps);
    forall t, u | 0 <= t < u < |s'.threads|
      ensures Apart(s'.threads[t], s'.threads[u])
    {
      assert s.pc.Done? && Apart(s.threads[t], s.threads[u]);
    }
  }

  /** Every step of the coordinator, of a worker, of a failing peer or connection, a crash
    * and a new call keep the invariant; for handing a piece out again the file must have a
    * name that survives parsing. */
  lemma StepKeeps(cat: Catalog, s: State, step: Step)
    requires Inv(cat, s) && Enabled(cat, s, step) && (step.Dispatch? ==> GoodCatalog(cat))
    ensures Inv(cat, Apply(cat, s, step))
  {
    hide Inv, Coordination, Saving, Dispatched, Opening, Reparsed, GoodCatalog, FileLen, Append;
    KnownSizes(cat, s);
    match step
    case Begin(v, p, resume) => KeepsBegin(cat, s, v, p, resume);
    case Sweep(keep) => KeepsSweep(cat, s, keep);
    case Crash => KeepsCrash(cat, s);
    case Coordinate =>
      if s.pc.Launching? {
        KeepsLaunch(cat, s);
      } else if s.pc.Polling? {
        KeepsPoll(cat, s);
      } else {
        KeepsScan(cat, s);
      }
    case Save(target) => KeepsSave(cat, s, target);
    case Dispatch(peer) => KeepsDispatch(cat, s, peer);
    case Refuse(t) => KeepsEnd(cat, s, t, Failed, Dead);
    case Open(t) => KeepsOpen(cat, s, t);
    case Block(t, data) => KeepsBlock(cat, s, t, data);
    case Lose(t) => KeepsEnd(cat, s, t, Failed, Dead);
    case Abort(t, data) => KeepsAbort(cat, s, t, data);
    case Finish(t) => KeepsEnd(cat, s, t, Complete, Free);
  }

  lemma {:induction false} RunKeeps(cat: Catalog, s: State, steps: seq<Step>)
    requires GoodCatalog(cat) && Inv(cat, s) && CanRun(cat, s, steps)
    ensures Inv(cat, Run(cat, s, steps))
    decreases |steps|
  {
    if steps != [] {
      StepKeeps(cat, s, steps[0]);
      RunKeeps(cat, Apply(cat, s, steps[0]), steps[1..]);
    }
  }

  lemma OneWriter(cat: Catalog, s: State)
    requires Inv(cat, s) && Running(cat, s)
    ensures forall t, u :: 0 <= t < u < |s.threads| && Active(s.threads[t]) && Active(s.threads[u]) &&
                           ThreadFile(s.threads[t]) == ThreadFile(s.threads[u]) ==>
                             s.threads[t].len == s.threads[u].len == 0
  {
    forall t, u | 0 <= t < u < |s.threads| && Active(s.threads[t]) && Active(s.threads[u]) &&
                  ThreadFile(s.threads[t]) == ThreadFile(s.threads[u])
      ensures s.threads[t].len == s.threads[u].len == 0
    {
      var a, b := s.threads[t], s.threads[u];
      assert Apart(a, b) && ThreadOk(cat, s, a) && ThreadOk(cat, s, b);
      SamePieceName(s.target, FileLen(cat, s), a.idx, b.idx, s.pieces);
    }
  }

  lemma OneWorkerPerPeer(cat: Catalog, s: State)
    requires Inv(cat, s) && Running(cat, s)
    ensures forall t: nat, u: nat, p: nat :: ActiveOn(s, t, p) && ActiveOn(s, u, p) ==> t == u
  {
    forall t: nat, u: nat, p: nat | ActiveOn(s, t, p) && ActiveOn(s, u, p)
      ensures t == u
    {
    }
  }

  lemma FlagsExact(cat: Catalog, s: State)
    requires Inv(cat, s) && Running(cat, s)
    ensures forall p :: 0 <= p < |s.flags| ==> (s.flags[p] == Busy <==> exists t :: ActiveOn(s, t, p))
  {
  }

  /** In every run, a flag is 1 exactly while one worker, and only one, uses that peer; no two
    * running workers write the same file unless it is empty; and once the file is merged, no
    * worker is left and no flag is 1. */
  lemma {:induction false} MutualExclusion(cat: Catalog, v: Version, steps: seq<Step>)
    requires GoodCatalog(cat) && CanRun(cat, Start(v), steps)
    ensures var s := Run(cat, Start(v), steps);
            && (forall p :: 0 <= p < |s.flags| ==> (s.flags[p] == Busy <==> exists t :: ActiveOn(s, t, p)))
            && (forall t: nat, u: nat, p: nat :: ActiveOn(s, t, p) && ActiveOn(s, u, p) ==> t == u)
            && (forall t, u :: 0 <= t < u < |s.threads| && Active(s.threads[t]) && Active(s.threads[u]) &&
                               ThreadFile(s.threads[t]) == ThreadFile(s.threads[u]) ==>
                                 s.threads[t].len == s.threads[u].len == 0)
            && (s.pc.Done? ==> NoneActive(s) && NoneBusy(s.flags))
  {
    RunKeeps(cat, Start(v), steps);
    var s := Run(cat, Start(v), steps);
    if Running(cat, s) {
      FlagsExact(cat, s);
      OneWorkerPerPeer(cat, s);
      OneWriter(cat, s);
    }
  }
}
