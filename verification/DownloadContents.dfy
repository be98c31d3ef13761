/** The bytes of a download: if the peers send what they should, every temporary file holds a
  * prefix of its piece, and the merged file is the source (utils/peer2peer.c). */
module DownloadContents {
  import opened Wrappers
  import opened Files
  import opened Partition
  import opened Merge
  import opened Download
  import opened DownloadSafety

  /** What the end of a download of the source leaves: nothing, if the file cannot be opened;
    * else the source, if and only if each of the n pieces fits the disk. */
  predicate EndsRight(source: seq<byte>, n: nat, target: Target, saved: Saved)
    requires 0 < n
  {
    match target
    case CannotOpen => saved == NotSaved
    case Room(room) => saved.Saved? && (saved.out == source <==> Fits(|source|, 0, n, room))
  }

  /** The next n bytes of what a receiving worker has asked for. */
  function Incoming(cat: Catalog, t: Thread, n: nat): seq<byte>
    requires t.phase.Receiving? && t.v in cat && 0 <= t.phase.from
  {
    ReadAt(cat[t.v], t.phase.from + t.phase.got, n)
  }

  /** The bytes that arrive with the step, if any, are those of the version. */
  predicate Honest(cat: Catalog, s: State, step: Step) {
    (step.Block? || step.Abort?) && step.t < |s.threads| ==>
      var th := s.threads[step.t];
      th.phase.Receiving? && th.v in cat && 0 <= th.phase.from ==> step.data == Incoming(cat, th, |step.data|)
  }

  ghost predicate AllHonest(cat: Catalog, s: State, steps: seq<Step>)
    requires CanRun(cat, s, steps)
    decreases |steps|
  {
    steps == [] || (Honest(cat, s, steps[0]) && AllHonest(cat, Apply(cat, s, steps[0]), steps[1..]))
  }

  /** All temporary files hold prefixes, and if the file was merged, it was merged right. */
  ghost predicate Contents(cat: Catalog, s: State) {
    && TempsOk(cat, s.temps)
    && (s.pc.Done? ==>
          s.target in cat && 0 < s.pieces && EndsRight(cat[s.target], s.pieces, s.pc.target, s.pc.saved))
  }

  lemma LongerPrefix(part: seq<byte>, whole: seq<byte>, start: nat, len: nat, n: nat)
    requires PrefixOf(part, whole, start, len) && |part| + n <= len
    ensures PrefixOf(part + ReadAt(whole, start + |part|, n), whole, start, len)
  {
    var at := start + |part|;
    assert part == whole[start..at];
    assert part + whole[at..at + n] == whole[start..at + n];
    assert whole[start..at + n] == whole[start..start + len][..|part| + n];
  }

  /** Appending some of what the worker asked for leaves a prefix of its piece. */
  lemma AppendPrefix(cat: Catalog, s: State, t: Thread, n: nat)
    requires Shape(cat, s) && ThreadOk(cat, s, t) && TempsOk(cat, s.temps)
    requires t.phase.Receiving? && n <= t.phase.want - t.phase.got
    ensures 0 <= t.phase.from
    ensures TempsOk(cat, Append(s.temps, ThreadFile(t), Incoming(cat, t, n)))
  {
    hide TempFile, Offset, PieceLen, FileLen;
    ThreadRange(cat, s, t);
    var file := s.temps[ThreadFile(t)];
    assert TempFile(t.v, t.start, t.len) in s.temps && PrefixOf(file, cat[t.v], t.start, t.len);
    LongerPrefix(file, cat[t.v], t.start, t.len, n);
    TempsOkUpdate(cat, s.temps, t.v, t.start, t.len, file + Incoming(cat, t, n));
  }

  /** When the scan finds nothing to do, every piece is ready to be merged. */
  lemma AllReady(cat: Catalog, s: State)
    requires Shape(cat, s) && TempsOk(cat, s.temps)
    requires forall j :: 0 <= j < s.pieces ==> Whole(cat, s, j)
    ensures forall j :: 0 <= j < s.pieces ==> PieceReady(s.temps, s.target, cat[s.target], j, s.pieces)
  {
    forall j | 0 <= j < s.pieces
      ensures PieceReady(s.temps, s.target, cat[s.target], j, s.pieces)
    {
      assert Whole(cat, s, j);
      var off, len := Offset(FileLen(cat, s), j, s.pieces), PieceLen(FileLen(cat, s), j, s.pieces);
      PieceInside(FileLen(cat, s), j, s.pieces);
      if PieceOfState(cat, s, j) in s.temps {
        assert TempFile(s.target, off, len) in s.temps;
        FullPrefix(s.temps[PieceOfState(cat, s, j)], cat[s.target], off, len);
      }
    }
  }

  lemma MergeGood(temps: Temps, target: Target, v: Version, source: seq<byte>, n: nat)
    requires 0 < n && forall j :: 0 <= j < n ==> PieceReady(temps, v, source, j, n)
    ensures var (saved, left) := Merged(temps, target, v, |source|, n);
            EndsRight(source, n, target, saved) && forall k :: k in left ==> k in temps && left[k] == temps[k]
  {
    hide MergePieces, PieceFile, PieceReady, Fits;
    if target.Room? {
      OffsetEnds(|source|, n);
      MergeExactly(temps, target.room, v, source, 0, n);
      MergeRemoves(temps, target.room, v, |source|, 0, n);
      assert source[0..] == source;
    }
  }

  lemma MergeKeepsTemps(cat: Catalog, temps: Temps, left: Temps)
    requires TempsOk(cat, temps)
    requires forall k :: k in left ==> k in temps && left[k] == temps[k]
    ensures TempsOk(cat, left)
  {
  }

  lemma SaveGood(cat: Catalog, s: State, target: Target)
    requires Inv(cat, s) && Contents(cat, s) && Enabled(cat, s, Save(target))
    ensures Contents(cat, Saving(cat, s, target))
  {
    hide MergePieces, PieceFile, Offset, PieceLen, Fits, TempsOk;
    AllReady(cat, s);
    MergeGood(s.temps, target, s.target, cat[s.target], s.pieces);
    MergeKeepsTemps(cat, s.temps, Saving(cat, s, target).temps);
  }

  lemma OpenGood(cat: Catalog, s: State, t: nat)
    requires Inv(cat, s) && Contents(cat, s) && Enabled(cat, s, Open(t))
    ensures Contents(cat, Opening(s, t))
  {
    hide AllApart, PcOk, FlagsOk, TempFile, PieceFile, Offset, PieceLen;
    var th := s.threads[t];
    assert ThreadOk(cat, s, th);
    ThreadRange(cat, s, th);
    var before := if ThreadFile(th) in s.temps then s.temps[ThreadFile(th)] else [];
    assert before + [] == before;
    TempsOkUpdate(cat, s.temps, th.v, th.start, th.len, before);
  }

  lemma DataGood(cat: Catalog, s: State, t: nat, data: seq<byte>)
    requires Inv(cat, s) && Contents(cat, s) && Running(cat, s) && InPhase(s, t, true)
    requires |data| <= s.threads[t].phase.want - s.threads[t].phase.got
    requires Honest(cat, s, Block(t, data))
    ensures TempsOk(cat, Append(s.temps, ThreadFile(s.threads[t]), data))
  {
    hide AllApart, PcOk, FlagsOk, TempFile, PieceFile, TempsOk;
    assert ThreadOk(cat, s, s.threads[t]);
    AppendPrefix(cat, s, s.threads[t], |data|);
  }

  lemma CoordinationTemps(cat: Catalog, s: State)
    requires Enabled(cat, s, Coordinate)
    ensures Coordination(cat, s).temps == s.temps && !Coordination(cat, s).pc.Done?
  {
  }

  /** Every step keeps the contents right, if what arrives is right. */
  lemma StepGood(cat: Catalog, s: State, step: Step)
    requires Inv(cat, s) && Contents(cat, s) && Enabled(cat, s, step) && Honest(cat, s, step)
    ensures Contents(cat, Apply(cat, s, step))
  {
    hide Inv, TempsOk, Reparsed, Coordination, Saving, Opening;
    match step
    case Save(target) => SaveGood(cat, s, target);
    case Open(t) => OpenGood(cat, s, t);
    case Block(t, data) => DataGood(cat, s, t, data);
    case Abort(t, data) =>
      if s.threads[t].phase.Receiving? {
        DataGood(cat, s, t, data);
      }
    case Sweep(keep) => MergeKeepsTemps(cat, s.temps, Apply(cat, s, step).temps);
    case Coordinate => CoordinationTemps(cat, s);
    case _ =>
  }

  lemma {:induction false} RunGood(cat: Catalog, s: State, steps: seq<Step>)
    requires GoodCatalog(cat) && Inv(cat, s) && Contents(cat, s) && CanRun(cat, s, steps) && AllHonest(cat, s, steps)
    ensures Contents(cat, Run(cat, s, steps))
    decreases |steps|
  {
    hide Inv, Contents, Apply, Enabled, Honest;
    if steps != [] {
      StepKeeps(cat, s, steps[0]);
      StepGood(cat, s, steps[0]);
      RunGood(cat, Apply(cat, s, steps[0]), steps[1..]);
    }
  }

  /** The download is correct: in every run from an empty directory in which the peers send what
    * they should, with any interleaving of coordinator and workers, any failures, any crashes
    * and any piece counts of the calls after them, a merge that is reached gives exactly the
    * source file if and only if each piece fits the disk; a write that does not fit is not
    * noticed. */
  lemma {:induction false} DownloadCorrect(cat: Catalog, v: Version, steps: seq<Step>)
    requires GoodCatalog(cat) && CanRun(cat, Start(v), steps) && AllHonest(cat, Start(v), steps)
    ensures var s := Run(cat, Start(v), steps);
            s.pc.Done? ==>
              s.target in cat && 0 < s.pieces && EndsRight(cat[s.target], s.pieces, s.pc.target, s.pc.saved)
  {
    RunGood(cat, Start(v), steps);
  }

  /** In every such run, at every moment, every temporary file of every version holds a prefix
    * of the range its name gives. */
  lemma {:induction false} TempFilesArePrefixes(cat: Catalog, v: Version, steps: seq<Step>)
    requires GoodCatalog(cat) && CanRun(cat, Start(v), steps) && AllHonest(cat, Start(v), steps)
    ensures TempsOk(cat, Run(cat, Start(v), steps).temps)
  {
    RunGood(cat, Start(v), steps);
  }
}
