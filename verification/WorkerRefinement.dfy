/** The worker's code on a byte stream does exactly what the steps of the transition system
  * say: whole blocks, then an end that depends on whether the stream was whole. */
module WorkerRefinement {
  import opened Files
  import opened Transfer
  import opened Download
  import opened DownloadSafety

  /** Worker t is receiving, and has asked for as many bytes more as `data` has. */
  ghost predicate Expects(cat: Catalog, s: State, t: nat, data: seq<byte>) {
    && Inv(cat, s) && Running(cat, s) && InPhase(s, t, true)
    && s.threads[t].phase.got + |data| == s.threads[t].phase.want
  }

  /** One block taken off what is still to come. */
  lemma BlockTaken(cat: Catalog, s: State, t: nat, data: seq<byte>)
    requires Expects(cat, s, t, data) && data != []
    ensures Enabled(cat, s, Block(t, data[..BlockLen(|data|)]))
    ensures t < |s.threads| == |Apply(cat, s, Block(t, data[..BlockLen(|data|)])).threads|
    ensures var n := BlockLen(|data|);
            var s' := Apply(cat, s, Block(t, data[..n]));
            var name := ThreadFile(s.threads[t]);
            && Expects(cat, s', t, data[n..])
            && ThreadFile(s'.threads[t]) == name && name in s.temps && name in s'.temps
            && s'.temps[name] == s.temps[name] + data[..n]
  {
    hide AllApart, FlagsOk, PcOk, DoneOk, TempFile, PieceFile;
    var block := data[..BlockLen(|data|)];
    var s' := Apply(cat, s, Block(t, block));
    StepKeeps(cat, s, Block(t, block));
    assert ThreadOk(cat, s, s.threads[t]) && ThreadOk(cat, s', s'.threads[t]);
  }

  predicate OwnStep(step: Step, t: nat) {
    (step.Block? || step.Lose? || step.Finish? || step.Abort?) && step.t == t
  }

  function PhaseAfter(ending: Ending): Phase {
    match ending
    case Complete => Phase.Complete
    case Broken => Failed
    case NotWritten => Aborted
  }

  /** The steps are worker t's own, they can be taken, and they leave what the downloading
    * loop leaves: its bytes appended to the worker's file, and the right end. */
  ghost predicate Matches(cat: Catalog, s: State, t: nat, steps: seq<Step>, r: Received)
    requires t < |s.threads|
  {
    && CanRun(cat, s, steps)
    && (forall k :: 0 <= k < |steps| ==> OwnStep(steps[k], t))
    && var s' := Run(cat, s, steps);
       var name := ThreadFile(s.threads[t]);
       && |s'.threads| == |s.threads|
       && s'.threads[t].phase == PhaseAfter(r.ending)
       && name in s.temps && name in s'.temps && s'.temps[name] == s.temps[name] + r.data
  }

  lemma FirstStep(cat: Catalog, s: State, step: Step, more: seq<Step>) returns (steps: seq<Step>)
    requires Enabled(cat, s, step) && CanRun(cat, Apply(cat, s, step), more)
    ensures steps == [step] + more && CanRun(cat, s, steps)
    ensures Run(cat, s, steps) == Run(cat, Apply(cat, s, step), more)
  {
    steps := [step] + more;
    assert steps[1..] == more;
  }

  /** The stream is over: the worker finishes, or loses its connection. */
  lemma MatchesEnd(cat: Catalog, s: State, t: nat, data: seq<byte>) returns (steps: seq<Step>)
    requires Expects(cat, s, t, data)
    ensures Matches(cat, s, t, steps, Received([], if data == [] then Ending.Complete else Broken))
  {
    assert ThreadOk(cat, s, s.threads[t]);
    var name := ThreadFile(s.threads[t]);
    assert s.temps[name] + [] == s.temps[name];
    steps := FirstStep(cat, s, if data == [] then Finish(t) else Lose(t), []);
  }

  /** The next block does not fit the disk. */
  lemma MatchesFull(cat: Catalog, s: State, t: nat, data: seq<byte>, room: nat) returns (steps: seq<Step>)
    requires Expects(cat, s, t, data) && room < BlockLen(|data|)
    ensures Matches(cat, s, t, steps, Received(data[..room], NotWritten))
  {
    assert ThreadOk(cat, s, s.threads[t]);
    steps := FirstStep(cat, s, Abort(t, data[..room]), []);
  }

  lemma AppendedTwice(a: seq<byte>, b: seq<byte>, c: seq<byte>)
    ensures (a + b) + c == a + (b + c)
  {
  }

  lemma MatchesBlock(cat: Catalog, s: State, t: nat, block: seq<byte>, s': State, more: seq<Step>, r: Received)
    returns (steps: seq<Step>)
    requires Enabled(cat, s, Block(t, block)) && s' == Apply(cat, s, Block(t, block))
    requires t < |s.threads| == |s'.threads| && ThreadFile(s'.threads[t]) == ThreadFile(s.threads[t])
    requires ThreadFile(s.threads[t]) in s.temps && ThreadFile(s.threads[t]) in s'.temps
    requires s'.temps[ThreadFile(s.threads[t])] == s.temps[ThreadFile(s.threads[t])] + block
    requires Matches(cat, s', t, more, r)
    ensures Matches(cat, s, t, steps, Behind(block, r))
  {
    hide Apply, Enabled, ThreadFile;
    steps := FirstStep(cat, s, Block(t, block), more);
    AppendedTwice(s.temps[ThreadFile(s.threads[t])], block, r.data);
  }

  lemma NothingWanted(c: Codec, stream: seq<byte>, room: nat)
    ensures Receive(c, stream, 0, room) == Received([], Ending.Complete)
  {
  }

  /** Whatever bytes the peer encodes, for every stream its side may leave behind and every room
    * on the disk, the transition system has the steps the worker takes: its file grows by what
    * the downloading loop appends, and it ends as the loop does. */
  lemma {:induction false} WorkerRefines(cat: Catalog, s: State, t: nat, data: seq<byte>, c: Codec,
                                         stream: seq<byte>, room: nat)
    returns (steps: seq<Step>)
    requires GoodCodec(c) && Expects(cat, s, t, data)
    requires stream <= Encode(c, data)
    ensures Matches(cat, s, t, steps, Receive(c, stream, |data|, room))
    decreases |data|
  {
    hide Expects, Matches, Encode, GoodCodec, Apply, Enabled, Receive, Behind, Frame, ThreadFile, CanRun, Run;
    if data == [] {
      NothingWanted(c, stream, room);
      steps := MatchesEnd(cat, s, t, data);
    } else {
      var n := BlockLen(|data|);
      var k := |Frame(c, data[..n])|;
      ReceiveStream(c, data, stream, room);
      if |stream| < k {
        steps := MatchesEnd(cat, s, t, data);
      } else if room < n {
        steps := MatchesFull(cat, s, t, data, room);
      } else {
        BlockTaken(cat, s, t, data);
        var s' := Apply(cat, s, Block(t, data[..n]));
        var more := WorkerRefines(cat, s', t, data[n..], c, stream[k..], room - n);
        steps := MatchesBlock(cat, s, t, data[..n], s', more, Receive(c, stream[k..], |data| - n, room - n));
      }
    }
  }
}
