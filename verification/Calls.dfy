/** What one fresh download call leaves, for owners that refuse, are silent, or send from the file
  * they have under the name, whatever version that is (utils/peer2peer.c). The call is a run of
  * the transition system in which something is done whenever something can be done. */
module Calls {
  import opened Wrappers
  import opened CTypes
  import opened Files
  import opened Partition
  import opened Merge
  import opened Download
  import opened DownloadSafety
  import opened DownloadContents
  import opened DownloadTermination
  import opened DownloadOutcome
  import TempName

  /** The catalog with this one version. */
  function One(v: Version, bytes: seq<byte>): Catalog {
    map[v := bytes]
  }

  /** The peers allow the step, no local write fails, and the target of the merge can be opened
    * and has room. */
  ghost predicate Smooth(cat: Catalog, kinds: seq<PeerKind>, s: State, step: Step) {
    && Obeys(kinds, s, step) && !step.Abort?
    && (step.Save? ==>
          step.target.Room? && s.target in cat && 0 < s.pieces && Fits(FileLen(cat, s), 0, s.pieces, step.target.room))
  }

  ghost predicate SmoothAt(cat: Catalog, kinds: seq<PeerKind>, run: nat -> State, sched: nat -> Option<Step>, n: nat) {
    sched(n).Some? ==> Smooth(cat, kinds, run(n), sched(n).value)
  }

  /** Something is done whenever the peers allow something to be done. */
  ghost predicate GoesOn(cat: Catalog, kinds: seq<PeerKind>, run: nat -> State, sched: nat -> Option<Step>) {
    forall n: nat, step :: CanWork(cat, run(n), step) && Obeys(kinds, run(n), step) ==>
                             exists m: nat :: n <= m && sched(m).Some?
  }

  /** A fresh call from state s for the version v of the catalog, with these owners. */
  ghost predicate CallIn(cat: Catalog, v: Version, s: State, kinds: seq<PeerKind>,
                         run: nat -> State, sched: nat -> Option<Step>)
  {
    && Enabled(cat, s, Begin(v, |kinds|, None)) && SizesOk(s.temps) && Fresh(s.temps, v)
    && run(0) == Apply(cat, s, Begin(v, |kinds|, None))
    && IsRun(cat, run, sched) && GoesOn(cat, kinds, run, sched)
    && forall n: nat :: SmoothAt(cat, kinds, run, sched, n)
  }

  /** A fresh call for a version of which the table says the length only. */
  ghost predicate Call(len: nat, v: Version, s: State, kinds: seq<PeerKind>,
                       run: nat -> State, sched: nat -> Option<Step>)
  {
    CallIn(One(v, Zeros(len)), v, s, kinds, run, sched)
  }

  /** What the call leaves; None if it never ends. */
  ghost predicate Leaves(run: nat -> State, out: Option<seq<byte>>) {
    match out
    case None => forall k: nat :: !run(k).pc.Done?
    case Some(bytes) => exists k: nat :: run(k).pc.Done? && run(k).pc.saved == Saved(bytes)
  }

  // ---------- only the length counts ----------

  predicate SameLengths(cat: Catalog, cat': Catalog) {
    cat.Keys == cat'.Keys && forall v :: v in cat ==> |cat[v]| == |cat'[v]|
  }

  lemma SameEnabled(cat: Catalog, cat': Catalog, s: State, step: Step)
    requires SameLengths(cat, cat')
    ensures Enabled(cat, s, step) == Enabled(cat', s, step)
  {
    hide MergePieces, TempFile, Offset, PieceLen, TempName.Parse;
  }

  lemma SameApply(cat: Catalog, cat': Catalog, s: State, step: Step)
    requires SameLengths(cat, cat') && Enabled(cat, s, step)
    ensures Enabled(cat', s, step) && Apply(cat, s, step) == Apply(cat', s, step)
  {
    hide MergePieces, TempFile, Offset, PieceLen, TempName.Parse;
    SameEnabled(cat, cat', s, step);
  }

  lemma SameRun(cat: Catalog, cat': Catalog, run: nat -> State, sched: nat -> Option<Step>)
    requires SameLengths(cat, cat') && IsRun(cat, run, sched)
    ensures IsRun(cat', run, sched)
  {
    hide Enabled, Apply, SameLengths;
    forall n: nat
      ensures MovesAt(cat', run, sched, n)
    {
      assert MovesAt(cat, run, sched, n);
      if sched(n).Some? {
        SameApply(cat, cat', run(n), sched(n).value);
      }
    }
  }

  lemma SameGoesOn(cat: Catalog, cat': Catalog, kinds: seq<PeerKind>, run: nat -> State, sched: nat -> Option<Step>)
    requires SameLengths(cat, cat') && GoesOn(cat, kinds, run, sched)
    ensures GoesOn(cat', kinds, run, sched)
  {
    hide Enabled, SameLengths, Obeys;
    forall n: nat, step | CanWork(cat', run(n), step) && Obeys(kinds, run(n), step)
      ensures exists m: nat :: n <= m && sched(m).Some?
    {
      SameEnabled(cat, cat', run(n), step);
    }
  }

  lemma SameSmooth(cat: Catalog, cat': Catalog, kinds: seq<PeerKind>, s: State, step: Step)
    requires SameLengths(cat, cat') && Smooth(cat, kinds, s, step)
    ensures Smooth(cat', kinds, s, step)
  {
    hide Obeys, Fits;
  }

  /** The bytes the table's version has do not matter to the call. */
  lemma AnyBytes(v: Version, s: State, kinds: seq<PeerKind>, run: nat -> State, sched: nat -> Option<Step>,
                 bytes: seq<byte>)
    requires Call(|bytes|, v, s, kinds, run, sched)
    ensures CallIn(One(v, bytes), v, s, kinds, run, sched)
  {
    hide Enabled, Apply, IsRun, GoesOn, Smooth, Fresh, SizesOk;
    var cat, cat' := One(v, Zeros(|bytes|)), One(v, bytes);
    SameApply(cat, cat', s, Begin(v, |kinds|, None));
    SameRun(cat, cat', run, sched);
    SameGoesOn(cat, cat', kinds, run, sched);
    forall n: nat
      ensures SmoothAt(cat', kinds, run, sched, n)
    {
      assert SmoothAt(cat, kinds, run, sched, n);
      if sched(n).Some? {
        SameSmooth(cat, cat', kinds, run(n), sched(n).value);
      }
    }
  }

  // ---------- the merge at the end ----------

  /** The contents are right, and a merge had the room it needs. */
  ghost predicate Sound(cat: Catalog, s: State) {
    && Contents(cat, s)
    && (s.pc.Done? ==>
          s.target in cat && 0 < s.pieces &&
          s.pc.target.Room? && Fits(FileLen(cat, s), 0, s.pieces, s.pc.target.room))
  }

  lemma SoundStep(cat: Catalog, kinds: seq<PeerKind>, s: State, step: Step)
    requires Inv(cat, s) && Sound(cat, s) && CanWork(cat, s, step)
    requires Honest(cat, s, step) && Smooth(cat, kinds, s, step)
    ensures Sound(cat, Apply(cat, s, step))
  {
    hide Inv, Contents, Honest, Obeys, Fits, Reparsed, Merged;
    StepGood(cat, s, step);
  }

  /** A sound end is the source. */
  lemma SoundDone(cat: Catalog, s: State)
    requires Sound(cat, s) && s.pc.Done?
    ensures s.target in cat && s.pc.saved == Saved(cat[s.target])
  {
    hide TempsOk, Fits;
  }

  lemma CallBegins(cat: Catalog, v: Version, s: State, kinds: seq<PeerKind>, run: nat -> State,
                   sched: nat -> Option<Step>)
    requires CallIn(cat, v, s, kinds, run, sched) && cat.Keys == {v}
    ensures run(0).target == v && run(0).peers == run(0).pieces == |kinds| == |run(0).flags|
    ensures FirstRound(cat, run(0)) && Running(cat, run(0)) && Sound(cat, run(0)) && run(0).threads == []
    ensures forall p :: 0 <= p < |kinds| ==> run(0).flags[p] == Free
  {
    KeepsBegin(cat, s, v, |kinds|, None);
  }

  // ---------- all owners with a piece send ----------

  function BytesOf(kind: PeerKind): seq<byte> {
    match kind
    case Serves(bytes) => bytes
    case _ => []
  }

  /** Every owner with a piece that has bytes sends. */
  ghost predicate AllSend(kinds: seq<PeerKind>, len: nat) {
    forall i :: 0 <= i < |kinds| && 0 < PieceLen(len, i, |kinds|) ==> kinds[i].Serves?
  }

  /** The first i pieces, each as its owner sends it. */
  function Mixed(kinds: seq<PeerKind>, len: nat, i: nat): (r: seq<byte>)
    requires 0 < |kinds| && i <= |kinds|
    ensures |r| == Offset(len, i, |kinds|)
  {
    if i == 0 then
      OffsetEnds(len, |kinds|);
      []
    else
      Mixed(kinds, len, i - 1)
      + ReadAt(BytesOf(kinds[i - 1]), Offset(len, i - 1, |kinds|), PieceLen(len, i - 1, |kinds|))
  }

  /** What the owners' pieces make together. */
  function Mix(kinds: seq<PeerKind>, len: nat): (r: seq<byte>)
    requires 0 < |kinds|
    ensures |r| == len
  {
    OffsetEnds(len, |kinds|);
    Mixed(kinds, len, |kinds|)
  }

  lemma PieceIs(len: nat, i: nat, n: nat)
    requires 0 < n
    ensures PieceLen(len, i, n) == Offset(len, i + 1, n) - Offset(len, i, n)
  {
  }

  lemma {:induction false} MixedAt(kinds: seq<PeerKind>, len: nat, i: nat, j: nat, k: nat)
    requires 0 < |kinds| && j < i <= |kinds|
    requires Offset(len, j, |kinds|) <= k < Offset(len, j + 1, |kinds|)
    ensures k < |Mixed(kinds, len, i)|
    ensures Mixed(kinds, len, i)[k] == if k < |BytesOf(kinds[j])| then BytesOf(kinds[j])[k] else 0
    decreases i
  {
    hide Offset, PieceLen, ReadAt, BytesOf;
    var n := |kinds|;
    OffsetMonotone(len, j + 1, i, n);
    if j + 1 < i {
      OffsetMonotone(len, j + 1, i - 1, n);
      MixedAt(kinds, len, i - 1, j, k);
    } else {
      var off := Offset(len, j, n);
      var piece := ReadAt(BytesOf(kinds[j]), off, PieceLen(len, j, n));
      assert Mixed(kinds, len, i) == Mixed(kinds, len, j) + piece;
      assert |piece| == PieceLen(len, j, n) == Offset(len, j + 1, n) - off by { PieceIs(len, j, n); }
      assert Mixed(kinds, len, i)[k] == piece[k - off];
      ReadByte(BytesOf(kinds[j]), off, PieceLen(len, j, n), k - off);
    }
  }

  /** Inside piece j the mix has what its owner sends. */
  lemma MixRead(kinds: seq<PeerKind>, len: nat, j: nat, from: nat, m: nat)
    requires j < |kinds|
    requires Offset(len, j, |kinds|) <= from && from + m <= Offset(len, j, |kinds|) + PieceLen(len, j, |kinds|)
    ensures ReadAt(Mix(kinds, len), from, m) == ReadAt(BytesOf(kinds[j]), from, m)
  {
    hide Offset, PieceLen;
    PieceIs(len, j, |kinds|);
    var a, b := ReadAt(Mix(kinds, len), from, m), ReadAt(BytesOf(kinds[j]), from, m);
    forall k | 0 <= k < m
      ensures a[k] == b[k]
    {
      MixedAt(kinds, len, |kinds|, j, from + k);
    }
    assert a == b;
  }

  /** What owner i sends for its piece is what the source has there. */
  predicate AgreesOn(kinds: seq<PeerKind>, source: seq<byte>, i: nat)
    requires i < |kinds|
  {
    ReadAt(BytesOf(kinds[i]), Offset(|source|, i, |kinds|), PieceLen(|source|, i, |kinds|))
    == PieceBytes(source, i, |kinds|)
  }

  lemma SameUpTo(kinds: seq<PeerKind>, source: seq<byte>, i: nat)
    requires i < |kinds|
    ensures Offset(|source|, i, |kinds|) <= Offset(|source|, i + 1, |kinds|) <= |source|
    ensures Mixed(kinds, |source|, i + 1) == source[..Offset(|source|, i + 1, |kinds|)] <==>
            Mixed(kinds, |source|, i) == source[..Offset(|source|, i, |kinds|)] && AgreesOn(kinds, source, i)
  {
    hide Offset, PieceLen;
    var n, len := |kinds|, |source|;
    PieceInside(len, i, n);
    PieceIs(len, i, n);
    var a, b := Offset(len, i, n), Offset(len, i + 1, n);
    var front, piece := Mixed(kinds, len, i), ReadAt(BytesOf(kinds[i]), a, PieceLen(len, i, n));
    assert Mixed(kinds, len, i + 1) == front + piece;
    assert source[..b] == source[..a] + source[a..b];
    assert (front + piece)[..a] == front && (front + piece)[a..] == piece;
    assert source[..b][..a] == source[..a] && source[..b][a..] == source[a..b];
    assert PieceBytes(source, i, n) == source[a..b];
  }

  lemma {:induction false} MixedAgrees(kinds: seq<PeerKind>, source: seq<byte>, i: nat)
    requires 0 < |kinds| && i <= |kinds|
    ensures Offset(|source|, i, |kinds|) <= |source|
    ensures Mixed(kinds, |source|, i) == source[..Offset(|source|, i, |kinds|)] <==>
            forall j :: 0 <= j < i ==> AgreesOn(kinds, source, j)
    decreases i
  {
    hide Offset, AgreesOn;
    if i == 0 {
      OffsetEnds(|source|, |kinds|);
    } else {
      SameUpTo(kinds, source, i - 1);
      MixedAgrees(kinds, source, i - 1);
    }
  }

  /** The mix is the source if and only if each owner agrees with it on its piece. */
  lemma MixExactly(kinds: seq<PeerKind>, source: seq<byte>)
    requires 0 < |kinds|
    ensures Mix(kinds, |source|) == source <==> forall i :: 0 <= i < |kinds| ==> AgreesOn(kinds, source, i)
  {
    OffsetEnds(|source|, |kinds|);
    MixedAgrees(kinds, source, |kinds|);
    assert source[..|source|] == source;
  }

  // ---------- something can be done ----------

  /** Worker t can move as its peer's kind says. */
  predicate Movable(kinds: seq<PeerKind>, s: State, t: nat)
    requires t < |s.threads|
  {
    var th := s.threads[t];
    Active(th) ==>
      && th.peer < |kinds|
      && match kinds[th.peer]
         case Serves(_) => true
         case Silent => th.len == 0
         case Refuses => th.phase.Spawned?
  }

  lemma WorkerMoves(cat: Catalog, s: State, kinds: seq<PeerKind>, t: nat) returns (step: Step)
    requires Inv(cat, s) && Running(cat, s) && t < |s.threads| && Active(s.threads[t]) && Movable(kinds, s, t)
    ensures CanWork(cat, s, step) && Obeys(kinds, s, step)
  {
    hide AllApart, PcOk, FlagsOk, SizesOk, ReadAt, TempFile, Offset, PieceLen;
    var th := s.threads[t];
    assert ThreadOk(cat, s, th);
    if th.phase.Spawned? {
      step := if kinds[th.peer].Refuses? then Refuse(t) else Open(t);
    } else if th.phase.got < th.phase.want {
      step := Block(t, ReadAt(BytesOf(kinds[th.peer]), th.phase.from + th.phase.got,
                              BlockLen(th.phase.want - th.phase.got)));
    } else {
      step := Finish(t);
    }
  }

  /** A waiting piece can be handed to a free peer, whatever the file is called. */
  lemma CanHandOut(cat: Catalog, s: State, q: nat)
    requires Running(cat, s) && s.pc.Waiting? && q < s.peers && s.flags[q] == Free
    ensures Enabled(cat, s, Dispatch(q))
  {
    hide TempName.Parse, TempName.Print, Offset, PieceLen;
    var len := FileLen(cat, s);
    TempName.ParsesAlways(s.target.name, Offset(len, s.pc.i, s.pieces), PieceLen(len, s.pc.i, s.pieces),
                          s.target.timestamp);
  }

  lemma CoordinatorMoves(cat: Catalog, s: State, kinds: seq<PeerKind>, q: nat) returns (step: Step)
    requires Inv(cat, s) && Running(cat, s) && NoneActive(s)
    requires s.pc.Waiting? ==> q < s.peers && s.flags[q] != Dead
    ensures CanWork(cat, s, step) && Obeys(kinds, s, step)
  {
    hide Reparsed, Offset, PieceLen, TempFile, AllApart, SizesOk;
    QuietFlags(cat, s);
    if s.pc.Waiting? {
      CanHandOut(cat, s, q);
      step := Dispatch(q);
    } else {
      step := if s.pc == Scanning(s.pieces, false) then Save(CannotOpen) else Coordinate;
    }
  }

  /** While no worker is kept by its peer, and a peer is left for a waiting piece, something can
    * be done. */
  lemma Progress(cat: Catalog, s: State, kinds: seq<PeerKind>, q: nat) returns (step: Step)
    requires Inv(cat, s) && Running(cat, s) && forall t :: 0 <= t < |s.threads| ==> Movable(kinds, s, t)
    requires s.pc.Waiting? ==> q < s.peers && s.flags[q] != Dead
    ensures CanWork(cat, s, step) && Obeys(kinds, s, step)
  {
    hide Inv, Movable;
    if NoneActive(s) {
      step := CoordinatorMoves(cat, s, kinds, q);
    } else {
      var t: nat :| t < |s.threads| && Active(s.threads[t]);
      step := WorkerMoves(cat, s, kinds, t);
    }
  }

  /** When nothing can be done any more, the call has ended. */
  lemma StopsDone(cat: Catalog, kinds: seq<PeerKind>, run: nat -> State, sched: nat -> Option<Step>, n: nat, q: nat)
    requires GoesOn(cat, kinds, run, sched) && StopsAt(sched, n) && Inv(cat, run(n)) && !run(n).pc.Idle?
    requires !run(n).pc.Done? ==> Running(cat, run(n))
    requires forall t :: 0 <= t < |run(n).threads| ==> Movable(kinds, run(n), t)
    requires run(n).pc.Waiting? ==> q < run(n).peers && run(n).flags[q] != Dead
    ensures run(n).pc.Done?
  {
    hide Inv, Movable, Obeys, CanWork;
    if !run(n).pc.Done? {
      var step := Progress(cat, run(n), kinds, q);
    }
  }

  // ---------- a first round that needs no second ----------

  /** The first round goes on or is over; a worker has ended without completing its piece only if
    * the piece is empty; contents are right. */
  ghost predicate Unbroken(cat: Catalog, s: State, kinds: seq<PeerKind>) {
    && FirstRound(cat, s) && Sound(cat, s) && |kinds| == s.peers && !s.pc.Waiting? && !s.pc.Idle?
    && forall t :: 0 <= t < |s.threads| ==>
         && (Live(s.threads[t]) || s.threads[t].len == 0)
         && (s.threads[t].phase.Receiving? ==> t < |kinds| && !kinds[t].Refuses?)
  }

  lemma ScanFindsAll(cat: Catalog, s: State)
    requires FirstRound(cat, s)
    requires forall t :: 0 <= t < |s.threads| ==> Live(s.threads[t]) || s.threads[t].len == 0
    ensures !s.pc.Waiting?
  {
    if s.pc.Waiting? {
      WorkerKnown(cat, s, s.pc.i);
    }
  }

  lemma SendsOwnPiece(cat: Catalog, s: State, kinds: seq<PeerKind>, t: nat)
    requires Unbroken(cat, s, kinds) && Running(cat, s) && t < |s.threads| && AllSend(kinds, FileLen(cat, s))
    ensures s.threads[t].peer == t < |kinds| && 0 <= s.threads[t].len
    ensures 0 < s.threads[t].len ==> kinds[t].Serves?
    ensures Movable(kinds, s, t)
  {
    hide SizesOk, AllApart, FlagsOk, PcOk, Sound, Offset, PieceLen, TempFile;
    WorkerKnown(cat, s, t);
  }

  /** A block lies inside its worker's piece. */
  lemma BlockInPiece(cat: Catalog, s: State, t: nat, data: seq<byte>)
    requires Inv(cat, s) && Enabled(cat, s, Block(t, data))
    ensures s.target in cat && 0 < s.pieces && t < |s.threads|
    ensures var th := s.threads[t];
            && th.v == s.target && th.phase.Receiving? && 0 <= th.phase.from
            && Offset(FileLen(cat, s), th.idx, s.pieces) <= th.phase.from + th.phase.got
            && th.phase.from + th.phase.got + |data|
               <= Offset(FileLen(cat, s), th.idx, s.pieces) + PieceLen(FileLen(cat, s), th.idx, s.pieces)
               <= FileLen(cat, s)
  {
    hide SizesOk, AllApart, FlagsOk, PcOk, Offset, PieceLen, TempFile;
    WorkerKnown(cat, s, t);
    ThreadRange(cat, s, s.threads[t]);
  }

  lemma OwnPiece(cat: Catalog, s: State, kinds: seq<PeerKind>, t: nat)
    requires Unbroken(cat, s, kinds) && Running(cat, s) && t < |s.threads|
    ensures Inv(cat, s) && s.threads[t].peer == s.threads[t].idx == t < s.pieces == s.peers == |kinds|
  {
    hide Sound, SizesOk, AllApart, FlagsOk, PcOk, Offset, PieceLen, TempFile;
    WorkerKnown(cat, s, t);
  }

  /** What a peer that sends puts into a block. */
  lemma SentBlock(kinds: seq<PeerKind>, s: State, t: nat, data: seq<byte>)
    requires t < |s.threads| && s.threads[t].peer < |kinds| && kinds[s.threads[t].peer].Serves?
    requires s.threads[t].phase.Receiving? && 0 <= s.threads[t].phase.from
    requires Obeys(kinds, s, Block(t, data))
    ensures data == ReadAt(BytesOf(kinds[s.threads[t].peer]), s.threads[t].phase.from + s.threads[t].phase.got, |data|)
  {
  }

  /** A worker that gets something has asked an owner that sends. */
  lemma BlockFromSender(cat: Catalog, s: State, kinds: seq<PeerKind>, t: nat, data: seq<byte>)
    requires Unbroken(cat, s, kinds) && Enabled(cat, s, Block(t, data)) && AllSend(kinds, FileLen(cat, s))
    ensures t < |kinds| && kinds[t].Serves?
  {
    hide Unbroken, AllSend, Offset, PieceLen, Movable;
    OwnPiece(cat, s, kinds, t);
    SendsOwnPiece(cat, s, kinds, t);
    WorkerKnown(cat, s, t);
  }

  /** What a worker gets in such a round is what belongs into the mix. */
  lemma BlockOfMix(cat: Catalog, s: State, kinds: seq<PeerKind>, t: nat, data: seq<byte>)
    requires Unbroken(cat, s, kinds) && Running(cat, s)
    requires Enabled(cat, s, Block(t, data)) && Obeys(kinds, s, Block(t, data))
    requires t < |s.threads| && s.target in cat
    requires AllSend(kinds, FileLen(cat, s)) && cat[s.target] == Mix(kinds, FileLen(cat, s))
    ensures var th := s.threads[t];
            && th.v == s.target && th.phase.Receiving? && 0 <= th.phase.from
            && data == ReadAt(cat[s.target], th.phase.from + th.phase.got, |data|)
  {
    hide *;
    OwnPiece(cat, s, kinds, t);
    BlockInPiece(cat, s, t, data);
    BlockFromSender(cat, s, kinds, t, data);
    var ph := s.threads[t].phase;
    MixRead(kinds, FileLen(cat, s), t, ph.from + ph.got, |data|);
    SentBlock(kinds, s, t, data);
  }

  lemma HonestBlock(cat: Catalog, s: State, t: nat, data: seq<byte>)
    requires t < |s.threads|
    requires var th := s.threads[t];
             th.v in cat && th.phase.Receiving? && 0 <= th.phase.from &&
             data == ReadAt(cat[th.v], th.phase.from + th.phase.got, |data|)
    ensures Honest(cat, s, Block(t, data))
  {
    hide ReadAt;
  }

  lemma OtherHonest(cat: Catalog, s: State, step: Step)
    requires !step.Block? && !step.Abort?
    ensures Honest(cat, s, step)
  {
  }

  lemma SendsMix(cat: Catalog, s: State, kinds: seq<PeerKind>, step: Step)
    requires Unbroken(cat, s, kinds) && CanWork(cat, s, step) && Smooth(cat, kinds, s, step)
    requires AllSend(kinds, FileLen(cat, s)) && cat[s.target] == Mix(kinds, FileLen(cat, s))
    ensures Honest(cat, s, step)
  {
    hide Unbroken, Mix, AllSend, Fits, ReadAt, Obeys, Honest;
    if step.Block? {
      BlockOfMix(cat, s, kinds, step.t, step.data);
      HonestBlock(cat, s, step.t, step.data);
    } else {
      OtherHonest(cat, s, step);
    }
  }

  lemma UnbrokenStep(cat: Catalog, s: State, kinds: seq<PeerKind>, step: Step)
    requires Unbroken(cat, s, kinds) && CanWork(cat, s, step) && Smooth(cat, kinds, s, step)
    requires AllSend(kinds, FileLen(cat, s)) && cat[s.target] == Mix(kinds, FileLen(cat, s))
    ensures Unbroken(cat, Apply(cat, s, step), kinds)
  {
    hide Sound, Inv, FirstRound, Mix, AllSend, Honest, Fits, Offset, PieceLen, MergePieces;
    var s' := Apply(cat, s, step);
    SendsMix(cat, s, kinds, step);
    FirstRoundInv(cat, s);
    SoundStep(cat, kinds, s, step);
    FirstRoundStep(cat, s, step);
    WorkingEnabled(cat, s, step);
    forall t | 0 <= t < |s.threads|
      ensures s.threads[t].peer == t < |kinds| && (0 < s.threads[t].len ==> kinds[t].Serves?) && 0 <= s.threads[t].len
    {
      SendsOwnPiece(cat, s, kinds, t);
    }
    assert forall t :: 0 <= t < |s'.threads| ==> Live(s'.threads[t]) || s'.threads[t].len == 0;
    ScanFindsAll(cat, s');
  }

  lemma BeginsUnbroken(cat: Catalog, s: State, kinds: seq<PeerKind>)
    requires FirstRound(cat, s) && Running(cat, s) && Sound(cat, s) && s.threads == [] && |kinds| == s.peers
    ensures Unbroken(cat, s, kinds)
  {
  }

  lemma NoDispatch(cat: Catalog, s: State, kinds: seq<PeerKind>)
    requires Unbroken(cat, s, kinds)
    ensures forall q :: !Enabled(cat, s, Dispatch(q))
  {
  }

  lemma {:induction false} UnbrokenRun(cat: Catalog, v: Version, s: State, kinds: seq<PeerKind>, run: nat -> State,
                                       sched: nat -> Option<Step>, n: nat)
    requires CallIn(cat, v, s, kinds, run, sched) && cat.Keys == {v}
    requires AllSend(kinds, |cat[v]|) && 0 < |kinds| && cat[v] == Mix(kinds, |cat[v]|)
    ensures Unbroken(cat, run(n), kinds) && run(n).target == v && run(n).pieces == |kinds|
    ensures sched(n).Some? ==> !sched(n).value.Dispatch?
  {
    hide Unbroken, Smooth, AllSend, Mix, Enabled, Apply, GoesOn, IsRun, SizesOk, Fresh;
    if n == 0 {
      CallBegins(cat, v, s, kinds, run, sched);
      assert Unbroken(cat, run(0), kinds) by { BeginsUnbroken(cat, run(0), kinds); }
    } else {
      UnbrokenRun(cat, v, s, kinds, run, sched, n - 1);
      StepAt(cat, run, sched, n - 1);
      assert SmoothAt(cat, kinds, run, sched, n - 1);
      if sched(n - 1).Some? {
        UnbrokenStep(cat, run(n - 1), kinds, sched(n - 1).value);
        WorkingEnabled(cat, run(n - 1), sched(n - 1).value);
      }
    }
    StepAt(cat, run, sched, n);
    NoDispatch(cat, run(n), kinds);
  }

  lemma UnbrokenKnown(cat: Catalog, s: State, kinds: seq<PeerKind>)
    requires Unbroken(cat, s, kinds)
    ensures Inv(cat, s) && Sound(cat, s) && !s.pc.Idle? && !s.pc.Waiting? && (!s.pc.Done? ==> Running(cat, s))
  {
    FirstRoundInv(cat, s);
  }

  lemma UnbrokenMovable(cat: Catalog, s: State, kinds: seq<PeerKind>)
    requires Unbroken(cat, s, kinds) && s.target in cat && AllSend(kinds, FileLen(cat, s)) && !s.pc.Done?
    ensures forall t :: 0 <= t < |s.threads| ==> Movable(kinds, s, t)
  {
    hide Unbroken, Movable, AllSend;
    UnbrokenKnown(cat, s, kinds);
    forall t | 0 <= t < |s.threads|
      ensures Movable(kinds, s, t)
    {
      SendsOwnPiece(cat, s, kinds, t);
    }
  }

  lemma DoneMovable(cat: Catalog, s: State, kinds: seq<PeerKind>)
    requires Inv(cat, s) && s.pc.Done?
    ensures forall t :: 0 <= t < |s.threads| ==> Movable(kinds, s, t)
  {
  }

  lemma CallKnown(cat: Catalog, v: Version, s: State, kinds: seq<PeerKind>, run: nat -> State,
                  sched: nat -> Option<Step>)
    requires CallIn(cat, v, s, kinds, run, sched)
    ensures IsRun(cat, run, sched) && GoesOn(cat, kinds, run, sched)
    ensures forall n: nat :: SmoothAt(cat, kinds, run, sched, n) && WritesAt(sched, n)
    ensures forall n: nat :: sched(n).Some? ==> Obeys(kinds, run(n), sched(n).value)
  {
    hide Enabled, Apply, IsRun, GoesOn, Obeys;
    forall n: nat
      ensures WritesAt(sched, n)
      ensures sched(n).Some? ==> Obeys(kinds, run(n), sched(n).value)
    {
      assert SmoothAt(cat, kinds, run, sched, n);
    }
  }

  /** If every owner with a piece sends, the call ends, and leaves what they send. */
  lemma SendersLeave(v: Version, len: nat, s: State, kinds: seq<PeerKind>, run: nat -> State,
                     sched: nat -> Option<Step>)
    requires Call(len, v, s, kinds, run, sched) && 0 < |kinds| && AllSend(kinds, len)
    ensures Leaves(run, Some(Mix(kinds, len)))
  {
    hide CallIn, AllSend, Mix, Unbroken, Sound, Movable, StopsAt, GoesOn, Inv, IsRun, Smooth;
    var mix := Mix(kinds, len);
    var cat := One(v, mix);
    AnyBytes(v, s, kinds, run, sched, mix);
    CallKnown(cat, v, s, kinds, run, sched);
    CallBegins(cat, v, s, kinds, run, sched);
    FirstRoundInv(cat, run(0));
    forall n: nat
      ensures Unbroken(cat, run(n), kinds) && run(n).target == v
      ensures sched(n).Some? ==> !sched(n).value.Dispatch?
    {
      UnbrokenRun(cat, v, s, kinds, run, sched, n);
    }
    RunStops(cat, run, sched, 0);
    var n: nat :| StopsAt(sched, n);
    UnbrokenKnown(cat, run(n), kinds);
    if run(n).pc.Done? {
      DoneMovable(cat, run(n), kinds);
    } else {
      UnbrokenMovable(cat, run(n), kinds);
    }
    StopsDone(cat, kinds, run, sched, n, 0);
    SoundDone(cat, run(n));
  }

  // ---------- owners that doom the call ----------

  lemma {:induction false} ObeyAppend(cat: Catalog, kinds: seq<PeerKind>, s: State, steps: seq<Step>, step: Step)
    requires CanRun(cat, s, steps) && Enabled(cat, Run(cat, s, steps), step)
    requires AllObey(cat, kinds, s, steps) && Obeys(kinds, Run(cat, s, steps), step)
    ensures CanRun(cat, s, steps + [step]) && AllObey(cat, kinds, s, steps + [step])
    decreases |steps|
  {
    hide Apply, Enabled, Obeys;
    RunAppend(cat, s, steps, step);
    if steps == [] {
      assert [] + [step] == [step] && [step][1..] == [];
      assert AllObey(cat, kinds, Apply(cat, s, step), []);
    } else {
      ObeyAppend(cat, kinds, Apply(cat, s, steps[0]), steps[1..], step);
      assert (steps + [step])[1..] == steps[1..] + [step];
    }
  }

  lemma NoSteps(cat: Catalog, kinds: seq<PeerKind>, s: State)
    ensures CanRun(cat, s, []) && AllObey(cat, kinds, s, []) && Run(cat, s, []) == s
  {
  }

  /** What is scheduled before moment n. */
  lemma {:induction false} Prefix(cat: Catalog, kinds: seq<PeerKind>, run: nat -> State, sched: nat -> Option<Step>,
                                  n: nat) returns (steps: seq<Step>)
    requires IsRun(cat, run, sched) && forall k: nat :: sched(k).Some? ==> Obeys(kinds, run(k), sched(k).value)
    ensures CanRun(cat, run(0), steps) && AllWorking(steps) && AllObey(cat, kinds, run(0), steps)
    ensures Run(cat, run(0), steps) == run(n)
  {
    hide IsRun, Apply, Enabled, Obeys, AllObey, CanRun, Run;
    if n == 0 {
      steps := [];
      NoSteps(cat, kinds, run(0));
    } else {
      steps := Prefix(cat, kinds, run, sched, n - 1);
      StepAt(cat, run, sched, n - 1);
      if sched(n - 1).Some? {
        ObeyAppend(cat, kinds, run(0), steps, sched(n - 1).value);
        RunAppend(cat, run(0), steps, sched(n - 1).value);
        steps := steps + [sched(n - 1).value];
      }
    }
  }

  lemma CallFresh(cat: Catalog, v: Version, s: State, kinds: seq<PeerKind>, run: nat -> State,
                  sched: nat -> Option<Step>)
    requires CallIn(cat, v, s, kinds, run, sched)
    ensures Enabled(cat, s, Begin(v, |kinds|, None)) && SizesOk(s.temps) && Fresh(s.temps, v) && 0 < |kinds|
    ensures run(0) == Apply(cat, s, Begin(v, |kinds|, None))
  {
  }

  /** A silent owner with a piece to send keeps the call for ever. */
  lemma SilentLeaveNothing(v: Version, len: nat, s: State, kinds: seq<PeerKind>, run: nat -> State,
                           sched: nat -> Option<Step>, i: nat)
    requires Call(len, v, s, kinds, run, sched)
    requires i < |kinds| && kinds[i] == Silent && 0 < PieceLen(len, i, |kinds|)
    ensures Leaves(run, None)
  {
    hide CallIn, Kept, Missing, AllObey, AllWorking, CanRun, Run, Fresh, IsRun, PieceLen, GoesOn, Obeys;
    var cat := One(v, Zeros(len));
    CallKnown(cat, v, s, kinds, run, sched);
    CallFresh(cat, v, s, kinds, run, sched);
    FreshMisses(cat, s.temps, v, i, |kinds|);
    KeptAtBegin(cat, s, v, |kinds|, i);
    forall n: nat
      ensures !run(n).pc.Done?
    {
      var steps := Prefix(cat, kinds, run, sched, n);
      KeptRun(cat, run(0), kinds, i, steps);
      KeptNotDone(cat, run(n), i);
    }
  }

  /** The version has a name that survives parsing, and its numbers fit their types. */
  predicate Carried(v: Version, len: nat) {
    TempName.GoodName(v.name) && v.timestamp < UINT_LIMIT && len < INT_LIMIT
  }

  lemma OneGood(v: Version, bytes: seq<byte>)
    requires Carried(v, |bytes|)
    ensures GoodCatalog(One(v, bytes))
  {
  }

  lemma StillMissing(cat: Catalog, s: State, v: Version, p: nat, i: nat)
    requires Enabled(cat, s, Begin(v, p, None)) && Missing(cat, s.temps, v, i, p)
    ensures var s' := Apply(cat, s, Begin(v, p, None));
            Running(cat, s') && !Whole(cat, s', i)
  {
  }

  /** If nobody sends, a call for a file with bytes never ends. */
  lemma NobodyLeavesNothing(v: Version, len: nat, s: State, kinds: seq<PeerKind>, run: nat -> State,
                            sched: nat -> Option<Step>)
    requires Call(len, v, s, kinds, run, sched) && Carried(v, len) && 0 < len && NoneServes(kinds)
    ensures Leaves(run, None)
  {
    hide CallIn, Missing, AllObey, AllWorking, CanRun, Run, Fresh, IsRun, PieceLen, GoesOn, Obeys, GoodCatalog;
    hide NoneServes, Inv;
    var cat := One(v, Zeros(len));
    OneGood(v, Zeros(len));
    CallKnown(cat, v, s, kinds, run, sched);
    CallFresh(cat, v, s, kinds, run, sched);
    KeepsBegin(cat, s, v, |kinds|, None);
    var i := SomePiece(len, |kinds|);
    FreshMisses(cat, s.temps, v, i, |kinds|);
    CallBegins(cat, v, s, kinds, run, sched);
    StillMissing(cat, s, v, |kinds|, i);
    forall n: nat
      ensures !run(n).pc.Done?
    {
      var steps := Prefix(cat, kinds, run, sched, n);
      NothingEverComes(cat, run(0), kinds, i, steps);
    }
  }

  // ---------- some owners refuse ----------

  /** Each owner refuses or sends the source. */
  ghost predicate SendOrRefuse(kinds: seq<PeerKind>, source: seq<byte>) {
    forall i :: 0 <= i < |kinds| ==>
      kinds[i].Refuses? || (kinds[i].Serves? && ReadAt(kinds[i].bytes, 0, |source|) == source)
  }

  /** No worker waits for an owner that refuses. */
  ghost predicate Answering(cat: Catalog, s: State, kinds: seq<PeerKind>) {
    && Sound(cat, s) && |kinds| == s.peers
    && forall t :: 0 <= t < |s.threads| && s.threads[t].phase.Receiving? ==>
         s.threads[t].peer < |kinds| && !kinds[s.threads[t].peer].Refuses?
  }

  lemma PartOfSource(bytes: seq<byte>, source: seq<byte>, from: nat, n: nat)
    requires ReadAt(bytes, 0, |source|) == source && from + n <= |source|
    ensures ReadAt(bytes, from, n) == ReadAt(source, from, n)
  {
    var a, b := ReadAt(bytes, from, n), ReadAt(source, from, n);
    forall k | 0 <= k < n
      ensures a[k] == b[k]
    {
      assert source[from + k] == ReadAt(bytes, 0, |source|)[from + k];
    }
  }

  lemma SendsSource(cat: Catalog, s: State, kinds: seq<PeerKind>, step: Step)
    requires Inv(cat, s) && Answering(cat, s, kinds) && CanWork(cat, s, step) && Smooth(cat, kinds, s, step)
    requires SendOrRefuse(kinds, cat[s.target])
    ensures Honest(cat, s, step)
  {
    hide Inv, Sound, Offset, PieceLen, Fits, ReadAt, Honest;
    if step.Block? {
      BlockInPiece(cat, s, step.t, step.data);
      var th := s.threads[step.t];
      PartOfSource(kinds[th.peer].bytes, cat[s.target], th.phase.from + th.phase.got, |step.data|);
      HonestBlock(cat, s, step.t, step.data);
    } else {
      OtherHonest(cat, s, step);
    }
  }

  lemma AnsweringStep(cat: Catalog, s: State, kinds: seq<PeerKind>, step: Step)
    requires Inv(cat, s) && Answering(cat, s, kinds) && CanWork(cat, s, step) && Smooth(cat, kinds, s, step)
    requires SendOrRefuse(kinds, cat[s.target])
    ensures Answering(cat, Apply(cat, s, step), kinds)
  {
    hide Sound, Inv, SendOrRefuse, Honest, Fits, Offset, PieceLen, MergePieces, Reparsed;
    SendsSource(cat, s, kinds, step);
    SoundStep(cat, kinds, s, step);
    WorkingEnabled(cat, s, step);
  }

  lemma BeginsAnswering(cat: Catalog, s: State, kinds: seq<PeerKind>)
    requires Sound(cat, s) && s.threads == [] && |kinds| == s.peers
    ensures Answering(cat, s, kinds)
  {
  }

  lemma {:induction false} AnsweringRun(cat: Catalog, v: Version, s: State, kinds: seq<PeerKind>, run: nat -> State,
                                        sched: nat -> Option<Step>, n: nat)
    requires CallIn(cat, v, s, kinds, run, sched) && cat.Keys == {v} && GoodCatalog(cat)
    requires SendOrRefuse(kinds, cat[v])
    ensures Answering(cat, run(n), kinds)
    decreases n
  {
    hide Answering, Smooth, SendOrRefuse, Enabled, Apply, GoesOn, IsRun, SizesOk, Fresh, GoodCatalog, Inv;
    CallBegins(cat, v, s, kinds, run, sched);
    FirstRoundInv(cat, run(0));
    if n == 0 {
      BeginsAnswering(cat, run(0), kinds);
    } else {
      AnsweringRun(cat, v, s, kinds, run, sched, n - 1);
      RunInv(cat, run, sched, n - 1);
      StepAt(cat, run, sched, n - 1);
      assert SmoothAt(cat, kinds, run, sched, n - 1);
      if sched(n - 1).Some? {
        AnsweringStep(cat, run(n - 1), kinds, sched(n - 1).value);
      }
    }
  }

  lemma AnsweringMovable(cat: Catalog, s: State, kinds: seq<PeerKind>)
    requires Inv(cat, s) && !s.pc.Idle? && Answering(cat, s, kinds)
    requires s.target in cat && SendOrRefuse(kinds, cat[s.target])
    ensures forall t :: 0 <= t < |s.threads| ==> Movable(kinds, s, t)
  {
    hide Sound, AllApart, PcOk, FlagsOk, TempFile, Offset, PieceLen;
    if !s.pc.Done? {
      forall t | 0 <= t < |s.threads|
        ensures Movable(kinds, s, t)
      {
        assert ThreadOk(cat, s, s.threads[t]);
      }
    }
  }

  lemma AnsweringSound(cat: Catalog, s: State, kinds: seq<PeerKind>)
    requires Answering(cat, s, kinds)
    ensures Sound(cat, s)
  {
  }

  /** If some owner sends the source, and all others send it or refuse, the source comes. */
  lemma HoldersLeave(v: Version, source: seq<byte>, s: State, kinds: seq<PeerKind>, run: nat -> State,
                     sched: nat -> Option<Step>, q: nat)
    requires Call(|source|, v, s, kinds, run, sched) && Carried(v, |source|)
    requires SendOrRefuse(kinds, source) && q < |kinds| && kinds[q].Serves?
    ensures Leaves(run, Some(source))
  {
    hide CallIn, SendOrRefuse, Answering, Sound, Movable, StopsAt, GoesOn, Inv, IsRun, Smooth, GoodCatalog, Obeys;
    var cat := One(v, source);
    OneGood(v, source);
    AnyBytes(v, s, kinds, run, sched, source);
    CallKnown(cat, v, s, kinds, run, sched);
    CallBegins(cat, v, s, kinds, run, sched);
    FirstRoundInv(cat, run(0));
    RunStops(cat, run, sched, 0);
    var n: nat :| StopsAt(sched, n);
    RunInv(cat, run, sched, n);
    AnsweringRun(cat, v, s, kinds, run, sched, n);
    ServerStaysAlive(cat, run, sched, kinds, q, n);
    AnsweringMovable(cat, run(n), kinds);
    StopsDone(cat, kinds, run, sched, n, q);
    AnsweringSound(cat, run(n), kinds);
    SoundDone(cat, run(n));
  }

  // ---------- there are such calls ----------

  /** If the peers allow anything to be done, they allow something that goes smoothly. */
  lemma SmoothStep(cat: Catalog, kinds: seq<PeerKind>, s: State, step: Step) returns (step': Step)
    requires CanWork(cat, s, step) && Obeys(kinds, s, step)
    ensures CanWork(cat, s, step') && Smooth(cat, kinds, s, step')
  {
    match step
    case Abort(t, _) =>
      var th := s.threads[t];
      if th.phase.Spawned? {
        step' := Open(t);
      } else {
        var ph := th.phase;
        var n := BlockLen(ph.want - ph.got);
        var bytes := if th.peer < |kinds| then BytesOf(kinds[th.peer]) else [];
        step' := Block(t, if 0 <= ph.from then ReadAt(bytes, ph.from + ph.got, n) else Zeros(n));
      }
    case Save(_) =>
      var len := FileLen(cat, s);
      forall j | 0 <= j < s.pieces
        ensures PieceLen(len, j, s.pieces) <= len
      {
        PieceInside(len, j, s.pieces);
      }
      step' := Save(Room(len));
    case _ => step' := step;
  }

  /** The next step of a call in which nobody waits without need. */
  ghost function Next(cat: Catalog, kinds: seq<PeerKind>, s: State): Option<Step> {
    if step :| CanWork(cat, s, step) && Smooth(cat, kinds, s, step) then Some(step) else None
  }

  ghost function Later(cat: Catalog, kinds: seq<PeerKind>, s: State, n: nat): State {
    if n == 0 then s
    else
      var s' := Later(cat, kinds, s, n - 1);
      match Next(cat, kinds, s')
      case None => s'
      case Some(step) => Apply(cat, s', step)
  }

  /** Whatever the owners are, there are such calls. */
  lemma SomeCall(len: nat, v: Version, s: State, kinds: seq<PeerKind>)
    returns (run: nat -> State, sched: nat -> Option<Step>)
    requires Enabled(One(v, Zeros(len)), s, Begin(v, |kinds|, None)) && SizesOk(s.temps) && Fresh(s.temps, v)
    ensures Call(len, v, s, kinds, run, sched)
  {
    hide Enabled, Apply, Obeys, Smooth, SizesOk, Fresh;
    var cat := One(v, Zeros(len));
    var s0 := Apply(cat, s, Begin(v, |kinds|, None));
    run := (n: nat) => Later(cat, kinds, s0, n);
    sched := (n: nat) => Next(cat, kinds, Later(cat, kinds, s0, n));
    forall n: nat
      ensures MovesAt(cat, run, sched, n) && SmoothAt(cat, kinds, run, sched, n)
    {
    }
    forall n: nat, step | CanWork(cat, run(n), step) && Obeys(kinds, run(n), step)
      ensures exists m: nat :: n <= m && sched(m).Some?
    {
      var step' := SmoothStep(cat, kinds, run(n), step);
      assert sched(n).Some?;
    }
  }

  lemma SaveSaves(cat: Catalog, kinds: seq<PeerKind>, s: State, step: Step)
    requires CanWork(cat, s, step) && Smooth(cat, kinds, s, step)
    ensures var s' := Apply(cat, s, step);
            s'.pc.Done? ==> s'.pc.saved.Saved?
  {
    hide Obeys, Fits, MergePieces, Reparsed;
  }

  lemma {:induction false} DoneSaved(cat: Catalog, kinds: seq<PeerKind>, run: nat -> State,
                                     sched: nat -> Option<Step>, n: nat)
    requires IsRun(cat, run, sched) && forall n: nat :: SmoothAt(cat, kinds, run, sched, n)
    requires !run(0).pc.Done?
    ensures run(n).pc.Done? ==> run(n).pc.saved.Saved?
  {
    hide IsRun;
    if n > 0 {
      DoneSaved(cat, kinds, run, sched, n - 1);
      StepAt(cat, run, sched, n - 1);
      assert SmoothAt(cat, kinds, run, sched, n - 1);
      if sched(n - 1).Some? {
        SaveSaves(cat, kinds, run(n - 1), sched(n - 1).value);
      }
    }
  }

  /** Every call leaves something, or nothing for ever, and not both. */
  lemma OneOutcome(v: Version, len: nat, s: State, kinds: seq<PeerKind>, run: nat -> State, sched: nat -> Option<Step>)
    requires Call(len, v, s, kinds, run, sched)
    ensures exists out :: Leaves(run, out)
    ensures forall out, out' :: Leaves(run, out) && Leaves(run, out') ==> out == out'
  {
    hide CallIn, IsRun, GoesOn, Obeys, SmoothAt;
    var cat := One(v, Zeros(len));
    CallKnown(cat, v, s, kinds, run, sched);
    CallBegins(cat, v, s, kinds, run, sched);
    if k: nat :| run(k).pc.Done? {
      DoneSaved(cat, kinds, run, sched, k);
      assert Leaves(run, Some(run(k).pc.saved.out));
    } else {
      assert Leaves(run, None);
    }
    forall j: nat, k: nat | run(j).pc.Done? && run(k).pc.Done?
      ensures run(j).pc == run(k).pc
    {
      DoneStays(cat, run, sched, if j < k then j else k, if j < k then k else j);
    }
  }

  /** No owner with a piece to send refuses. */
  ghost predicate NoneRefuse(kinds: seq<PeerKind>, len: nat) {
    forall i :: 0 <= i < |kinds| && 0 < PieceLen(len, i, |kinds|) ==> !kinds[i].Refuses?
  }

  /** What a fresh call leaves, exactly: if every owner with a piece can be reached, it ends if and
    * only if each of them sends, and then leaves the pieces they send. */
  lemma CallExactly(v: Version, len: nat, s: State, kinds: seq<PeerKind>, run: nat -> State,
                    sched: nat -> Option<Step>, out: Option<seq<byte>>)
    requires Call(len, v, s, kinds, run, sched) && 0 < |kinds| && NoneRefuse(kinds, len)
    ensures Leaves(run, out) <==> out == if AllSend(kinds, len) then Some(Mix(kinds, len)) else None
  {
    hide Call, Leaves, Mix, PieceLen;
    OneOutcome(v, len, s, kinds, run, sched);
    if AllSend(kinds, len) {
      SendersLeave(v, len, s, kinds, run, sched);
    } else {
      var i :| 0 <= i < |kinds| && 0 < PieceLen(len, i, |kinds|) && !kinds[i].Serves?;
      SilentLeaveNothing(v, len, s, kinds, run, sched, i);
    }
  }
}
