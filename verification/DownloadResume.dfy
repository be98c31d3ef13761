/** Bytes that have come stay: across blocks, failures, crashes and new calls, until the pieces are
  * merged or the temporary files are deleted after a synchronisation; and a call asks only for
  * what they lack (utils/peer2peer.c). */
module DownloadResume {
  import opened Wrappers
  import opened Files
  import opened Partition
  import opened Merge
  import opened Download
  import opened DownloadSafety
  import opened DownloadTermination
  import opened DownloadOutcome

  /** The step does not delete the file: it is kept if the temporary files are deleted, and it is
    * not a piece that is merged. */
  ghost predicate Spares(cat: Catalog, s: State, step: Step, k: string)
    requires Enabled(cat, s, step)
  {
    && (step.Sweep? ==> k in step.keep)
    && (step.Save? && step.target.Room? ==> !PieceName(s.target, FileLen(cat, s), 0, s.pieces, k))
  }

  /** What becomes of a temporary file in one step: it goes if and only if it is swept away or
    * merged; else it keeps its bytes, behind which others may come. */
  lemma BytesStay(cat: Catalog, s: State, step: Step, k: string)
    requires Enabled(cat, s, step) && k in s.temps
    ensures k in Apply(cat, s, step).temps <==> Spares(cat, s, step, k)
    ensures Spares(cat, s, step, k) ==> s.temps[k] <= Apply(cat, s, step).temps[k]
  {
    hide MergePieces, PieceName, PieceFile, TempFile, Offset, PieceLen, Reparsed, FileLen;
    if step.Save? && step.target.Room? {
      MergeRemovesKey(s.temps, step.target.room, s.target, FileLen(cat, s), 0, s.pieces, k);
    }
  }

  ghost predicate AllSpare(cat: Catalog, s: State, steps: seq<Step>, k: string)
    requires CanRun(cat, s, steps)
    decreases |steps|
  {
    steps == [] || (Spares(cat, s, steps[0], k) && AllSpare(cat, Apply(cat, s, steps[0]), steps[1..], k))
  }

  /** In every run, with whatever crashes and new calls, a temporary file that is neither merged
    * nor swept away keeps its bytes. */
  lemma {:induction false} BytesSurvive(cat: Catalog, s: State, steps: seq<Step>, k: string)
    requires CanRun(cat, s, steps) && AllSpare(cat, s, steps, k) && k in s.temps
    ensures k in Run(cat, s, steps).temps && s.temps[k] <= Run(cat, s, steps).temps[k]
    decreases |steps|
  {
    hide Enabled, Apply, Spares;
    if steps != [] {
      BytesStay(cat, s, steps[0], k);
      BytesSurvive(cat, Apply(cat, s, steps[0]), steps[1..], k);
    }
  }

  lemma SavedIsDone(cat: Catalog, s: State, target: Target)
    requires Enabled(cat, s, Save(target))
    ensures Apply(cat, s, Save(target)).pc.Done?
  {
  }

  /** Inside a call that has not merged yet nothing is deleted. */
  lemma {:induction false} CallSpares(cat: Catalog, s: State, steps: seq<Step>, k: string)
    requires CanRun(cat, s, steps) && AllWorking(steps) && !Run(cat, s, steps).pc.Done?
    ensures AllSpare(cat, s, steps, k)
    decreases |steps|
  {
    hide Enabled, Apply;
    if steps != [] {
      var s' := Apply(cat, s, steps[0]);
      assert Working(steps[0]);
      if steps[0].Save? {
        SavedIsDone(cat, s, steps[0].target);
        if |steps| > 1 {
          assert Working(steps[1]) && steps[1..][0] == steps[1];
          WorkingEnabled(cat, s', steps[1]);
        }
      }
      CallSpares(cat, s', steps[1..], k);
    }
  }

  /** What a worker asks for when it opens its piece: the bytes behind those that are there, up to
    * the end of the piece. Its file is there from then on, with the bytes it had. */
  lemma AsksRest(cat: Catalog, s: State, t: nat)
    requires Inv(cat, s) && Enabled(cat, s, Open(t))
    ensures t < |s.threads| == |Apply(cat, s, Open(t)).threads| && s.target in cat && s.threads[t].idx < s.pieces
    ensures var i := s.threads[t].idx;
            var there := SizeOf(s.temps, PieceFile(s.target, FileLen(cat, s), i, s.pieces));
            && there <= PieceLen(FileLen(cat, s), i, s.pieces)
            && PieceFile(s.target, FileLen(cat, s), i, s.pieces) in Apply(cat, s, Open(t)).temps
            && |Apply(cat, s, Open(t)).temps[PieceFile(s.target, FileLen(cat, s), i, s.pieces)]| == there
            && Apply(cat, s, Open(t)).threads[t].phase ==
               Receiving(Offset(FileLen(cat, s), i, s.pieces) + there,
                         PieceLen(FileLen(cat, s), i, s.pieces) - there, 0)
  {
    hide AllApart, FlagsOk, PcOk, Offset, PieceLen;
    WorkerKnown(cat, s, t);
    var th := s.threads[t];
    assert TempFile(th.v, th.start, th.len) in s.temps ==> |s.temps[TempFile(th.v, th.start, th.len)]| <= th.len;
  }

  lemma OpenRuns(cat: Catalog, s: State, t: nat)
    requires Enabled(cat, s, Open(t))
    ensures Running(cat, s) && !s.pc.Done? && FileLen(cat, s) == |cat[s.target]|
  {
  }

  lemma {:induction false} SameCall(cat: Catalog, s: State, steps: seq<Step>)
    requires CanRun(cat, s, steps) && AllWorking(steps)
    ensures var s' := Run(cat, s, steps); s'.target == s.target && s'.pieces == s.pieces
    decreases |steps|
  {
    hide Enabled, Apply;
    if steps != [] {
      assert Working(steps[0]);
      WorkingEnabled(cat, s, steps[0]);
      SameCall(cat, Apply(cat, s, steps[0]), steps[1..]);
    }
  }

  lemma BeginFacts(cat: Catalog, s: State, v: Version, p: nat, resume: Option<nat>)
    requires Enabled(cat, s, Begin(v, p, resume))
    ensures v in cat && 0 < PieceCount(p, resume)
    ensures var s' := Apply(cat, s, Begin(v, p, resume)); s'.target == v && s'.pieces == PieceCount(p, resume)
  {
  }

  /** After any history, crashes among it, a call asks for nothing that was there when it began:
    * the bytes of each piece are still there whenever a worker opens it, and it asks for exactly
    * what the file lacks then. */
  lemma {:induction false} ResumeAsksRest(cat: Catalog, v0: Version, history: seq<Step>, v: Version, p: nat,
                                          resume: Option<nat>, steps: seq<Step>, t: nat)
    requires GoodCatalog(cat) && CanRun(cat, Start(v0), history)
    requires Enabled(cat, Run(cat, Start(v0), history), Begin(v, p, resume))
    requires var s0 := Apply(cat, Run(cat, Start(v0), history), Begin(v, p, resume));
             CanRun(cat, s0, steps) && AllWorking(steps) && Enabled(cat, Run(cat, s0, steps), Open(t))
    ensures v in cat && 0 < PieceCount(p, resume)
    ensures var temps, n := Run(cat, Start(v0), history).temps, PieceCount(p, resume);
            var s := Run(cat, Apply(cat, Run(cat, Start(v0), history), Begin(v, p, resume)), steps);
            && t < |s.threads| == |Apply(cat, s, Open(t)).threads| && s.threads[t].idx < n
            && var i := s.threads[t].idx;
               var name := PieceFile(v, |cat[v]|, i, n);
               var there := SizeOf(s.temps, name);
               && (name in temps ==> name in s.temps && temps[name] <= s.temps[name])
               && there <= PieceLen(|cat[v]|, i, n)
               && Apply(cat, s, Open(t)).threads[t].phase ==
                  Receiving(Offset(|cat[v]|, i, n) + there, PieceLen(|cat[v]|, i, n) - there, 0)
  {
    hide Inv, PieceFile, Offset, PieceLen, AllWorking, Apply, Enabled, Run, CanRun;
    var before := Run(cat, Start(v0), history);
    RunKeeps(cat, Start(v0), history);
    StepKeeps(cat, before, Begin(v, p, resume));
    var s0 := Apply(cat, before, Begin(v, p, resume));
    var s := Run(cat, s0, steps);
    RunKeeps(cat, s0, steps);
    BeginFacts(cat, before, v, p, resume);
    SameCall(cat, s0, steps);
    OpenRuns(cat, s, t);
    AsksRest(cat, s, t);
    var name := PieceFile(v, |cat[v]|, s.threads[t].idx, PieceCount(p, resume));
    if name in before.temps {
      BytesStay(cat, before, Begin(v, p, resume), name);
      CallSpares(cat, s0, steps, name);
      BytesSurvive(cat, s0, steps, name);
    }
  }

  // ---------- what can always happen ----------

  /** At every moment of a call the program may crash and be started again for any version, with
    * any number of owners; it then has all the bytes it had, and no workers. */
  lemma CrashAndResume(cat: Catalog, s: State, v: Version, p: nat, resume: Option<nat>)
    requires Running(cat, s) && v in cat && 0 < p <= MAX_PEERS && (resume.Some? ==> 0 < resume.value)
    ensures CanRun(cat, s, [Crash] + [Begin(v, p, resume)])
    ensures var s' := Run(cat, s, [Crash] + [Begin(v, p, resume)]);
            && s'.temps == s.temps && s'.target == v && s'.threads == []
            && |s'.flags| == p && s'.pieces == PieceCount(p, resume)
            && (forall q :: 0 <= q < p ==> s'.flags[q] == Free)
            && (s'.pc.Launching? <==> resume.None?)
  {
    var steps := [Crash] + [Begin(v, p, resume)];
    assert steps[0] == Crash && steps[1..] == [Begin(v, p, resume)];
    var s1 := Apply(cat, s, Crash);
    var s2 := Apply(cat, s1, Begin(v, p, resume));
    assert [Begin(v, p, resume)][0] == Begin(v, p, resume) && [Begin(v, p, resume)][1..] == [];
    assert CanRun(cat, s2, []) && Run(cat, s2, []) == s2;
    assert CanRun(cat, s1, [Begin(v, p, resume)]) && Run(cat, s1, [Begin(v, p, resume)]) == s2;
  }

  /** When a call is over, temporary files may be deleted, and another call may begin, with what files
    * there are. */
  lemma CallAfterCall(cat: Catalog, s: State, v: Version, p: nat, resume: Option<nat>, keep: set<string>)
    requires (s.pc.Done? || s.pc.Idle?) && v in cat && 0 < p <= MAX_PEERS && (resume.Some? ==> 0 < resume.value)
    ensures Enabled(cat, s, Sweep(keep)) && Enabled(cat, s, Begin(v, p, resume))
    ensures Apply(cat, s, Begin(v, p, resume)).temps == s.temps
    ensures forall k :: k in Apply(cat, s, Sweep(keep)).temps <==> k in s.temps && k in keep
  {
  }

  /** How a worker may go on: before its first byte it may find no connection, no room for its file,
    * or ask; while bytes are to come it may get any block, lose the connection, or write part
    * of a block; and when all have come it ends. */
  lemma WorkerMayFail(cat: Catalog, s: State, t: nat)
    requires Running(cat, s) && t < |s.threads| && s.threads[t].peer < |s.flags|
    ensures var ph := s.threads[t].phase;
            && (ph.Spawned? <==> Enabled(cat, s, Refuse(t)))
            && (ph.Spawned? <==> Enabled(cat, s, Open(t)))
            && (ph.Receiving? && ph.got < ph.want <==> Enabled(cat, s, Lose(t)))
            && (ph.Receiving? && ph.want <= ph.got <==> Enabled(cat, s, Finish(t)))
            && (forall data: seq<byte> :: Enabled(cat, s, Block(t, data)) <==>
                  ph.Receiving? && ph.got < ph.want &&
                  |data| == if ph.want - ph.got < 1024 then ph.want - ph.got else 1024)
            && (forall data: seq<byte> :: Enabled(cat, s, Abort(t, data)) <==>
                  || (ph.Spawned? && data == [])
                  || (ph.Receiving? && ph.got < ph.want && |data| < ph.want - ph.got && |data| < 1024))
  {
  }

  /** A failed step of a worker frees or closes its peer as the flags say, and leaves all files,
    * but for what an unfinished write has added to its own. */
  lemma FailureFlags(cat: Catalog, s: State, t: nat, step: Step)
    requires Enabled(cat, s, step)
    requires step == Refuse(t) || step == Lose(t) || step == Finish(t) || (step.Abort? && step.t == t)
    ensures var s', q := Apply(cat, s, step), s.threads[t].peer;
            && q < |s'.flags| == |s.flags|
            && s'.flags[q] == (if step.Refuse? || step.Lose? then Dead else Free)
            && (forall k :: 0 <= k < |s.flags| && k != q ==> s'.flags[k] == s.flags[k])
            && (!step.Abort? || s.threads[t].phase.Spawned? ==> s'.temps == s.temps)
            && s'.pc == s.pc && |s'.threads| == |s.threads| && !Active(s'.threads[t])
  {
  }

  /** After everything was swept away, no temporary file of any version is left, and the next call
    * for it is a fresh one. */
  lemma SweptIsFresh(cat: Catalog, s: State, v: Version)
    requires Enabled(cat, s, Sweep({}))
    ensures Fresh(Apply(cat, s, Sweep({})).temps, v) && SizesOk(Apply(cat, s, Sweep({})).temps)
  {
  }
}
