/** The piecewise download as a transition system: one coordinator
  * (download_file_multi_thread), its worker threads (download_handler), failing peers, and
  * crashes after which the download is started again (utils/peer2peer.c). Each step below is
  * atomic; a run is any interleaving of steps. What bytes a peer sends is part of the step that
  * receives them; of the catalog the system only takes the lengths. */
module Download {
  import opened Wrappers
  import opened Files
  import opened Partition
  import opened Merge
  import TempName

  const MAX_PEERS: nat := 200

  /** peer_flag[i]: 0, 1 and 2 in the source. */
  datatype Flag = Free | Busy | Dead

  datatype Phase =
    | Spawned                                    // created, has not looked at its temporary file yet
    | Receiving(from: int, want: nat, got: nat)  // asked for `want` bytes at offset `from`
    | Complete                                   // flag set back to 0
    | Failed                                     // no connection, or it broke: flag set to 2
    | Aborted                                    // local file not written: flag set back to 0

  /** A worker; `idx` is the number of the piece it was started for. */
  datatype Thread = Thread(peer: nat, idx: nat, v: Version, start: int, len: int, phase: Phase)

  datatype Pc =
    | Idle                             // not running: before the first call, or after a crash
    | Launching(i: nat)                // the first round: piece i goes to peer i
    | Polling                          // waiting until no flag is 1
    | Scanning(i: nat, mark: bool)     // looking at piece i; mark: some piece was handed out
    | Waiting(i: nat)                  // piece i is incomplete and waits for a free peer
    | Done(target: Target, saved: Saved) // the pieces are put together, if the file could be opened

  /** `threads` lists all workers of the current call in the order of their creation. */
  datatype State = State(temps: Temps, target: Version, peers: nat, pieces: nat,
                         flags: seq<Flag>, threads: seq<Thread>, pc: Pc)

  datatype Step =
    | Begin(v: Version, p: nat, resume: Option<nat>) // call; resume: the number of temporary files found
    | Sweep(keep: set<string>)                       // temporary files are deleted after a synchronisation
    | Crash
    | Coordinate                                     // the coordinator's next statement
    | Save(target: Target)                           // all pieces are there: the coordinator merges them
    | Dispatch(peer: nat)                            // a waiting piece is handed to a free peer
    | Refuse(t: nat)                                 // the worker has no connection
    | Open(t: nat)                                   // the worker asks for the rest of its piece
    | Block(t: nat, data: seq<byte>)                 // one block arrives and is appended
    | Lose(t: nat)                                   // the connection breaks
    | Abort(t: nat, data: seq<byte>)                 // the file cannot be opened or takes only part of a block
    | Finish(t: nat)                                 // everything asked for has arrived

  function FileLen(cat: Catalog, s: State): nat
    requires s.target in cat
  {
    |cat[s.target]|
  }

  function ThreadFile(t: Thread): string {
    TempFile(t.v, t.start, t.len)
  }

  predicate Active(t: Thread) {
    t.phase.Spawned? || t.phase.Receiving?
  }

  /** is_all_zero: no flag is 1. */
  predicate NoneBusy(flags: seq<Flag>) {
    forall p :: 0 <= p < |flags| ==> flags[p] != Busy
  }

  /** What comes back from printing and parsing the name of piece i again. */
  function Reparsed(cat: Catalog, s: State, i: nat): Option<TempName.PieceInfo>
    requires s.target in cat && 0 < s.pieces
  {
    TempName.Parse(PieceFile(s.target, FileLen(cat, s), i, s.pieces))
  }

  predicate Running(cat: Catalog, s: State) {
    && !s.pc.Idle? && !s.pc.Done?
    && s.target in cat && 0 < s.pieces && |s.flags| == s.peers
  }

  predicate InPhase(s: State, t: nat, receiving: bool) {
    t < |s.threads| && s.threads[t].peer < |s.flags| &&
    (if receiving then s.threads[t].phase.Receiving? else s.threads[t].phase.Spawned?)
  }

  predicate Enabled(cat: Catalog, s: State, step: Step) {
    match step
    case Begin(v, p, resume) =>
      && (s.pc.Idle? || s.pc.Done?)
      && v in cat && 0 < p <= MAX_PEERS
      && (resume.Some? ==> 0 < resume.value)
    case Sweep(_) => s.pc.Idle? || s.pc.Done?
    case Crash => Running(cat, s)
    case Coordinate =>
      && Running(cat, s)
      && (match s.pc
          case Launching(i) => i <= s.peers
          case Polling => NoneBusy(s.flags)
          case Scanning(i, mark) => i < s.pieces || (i == s.pieces && mark)
          case _ => false)
    case Save(_) => Running(cat, s) && s.pc == Scanning(s.pieces, false)
    case Dispatch(peer) =>
      && Running(cat, s) && s.pc.Waiting?
      && peer < s.peers && s.flags[peer] == Free
      && Reparsed(cat, s, s.pc.i).Some?
    case Refuse(t) => Running(cat, s) && InPhase(s, t, false)
    case Open(t) => Running(cat, s) && InPhase(s, t, false)
    case Block(t, data) =>
      && Running(cat, s) && InPhase(s, t, true)
      && s.threads[t].phase.got < s.threads[t].phase.want
      && |data| == BlockLen(s.threads[t].phase.want - s.threads[t].phase.got)
    case Lose(t) =>
      && Running(cat, s) && InPhase(s, t, true)
      && s.threads[t].phase.got < s.threads[t].phase.want
    case Abort(t, data) =>
      && Running(cat, s)
      && (|| (InPhase(s, t, false) && data == [])
          || (InPhase(s, t, true)
              && var ph := s.threads[t].phase;
                 ph.got < ph.want && |data| < BlockLen(ph.want - ph.got)))
    case Finish(t) =>
      && Running(cat, s) && InPhase(s, t, true)
      && s.threads[t].phase.got >= s.threads[t].phase.want
  }

  /** A worker moves to another phase. */
  function Move(s: State, t: nat, phase: Phase): State
    requires t < |s.threads|
  {
    s.(threads := s.threads[t := s.threads[t].(phase := phase)])
  }

  /** A worker ends: its last act is to set its peer's flag. */
  function End(s: State, t: nat, phase: Phase, flag: Flag): State
    requires t < |s.threads| && s.threads[t].peer < |s.flags|
  {
    Move(s, t, phase).(flags := s.flags[s.threads[t].peer := flag])
  }

  function Spawn(s: State, peer: nat, thread: Thread): State
    requires peer < |s.flags|
  {
    s.(flags := s.flags[peer := Busy], threads := s.threads + [thread])
  }

  /** Append-mode writing: the file is created if it is not there. */
  function Append(temps: Temps, name: string, data: seq<byte>): Temps {
    temps[name := (if name in temps then temps[name] else []) + data]
  }

  /** A new worker for piece i, as its parsed temporary name describes it. */
  function Dispatched(s: State, peer: nat, i: nat, info: TempName.PieceInfo): State
    requires peer < |s.flags|
  {
    var thread := Thread(peer, i, Version(info.fileName, info.timestamp), info.start, info.len, Spawned);
    Spawn(s, peer, thread).(pc := Scanning(i + 1, true))
  }

  /** The worker asks for what its file still lacks and opens the file for appending. */
  function Opening(s: State, t: nat): State
    requires t < |s.threads|
  {
    var th := s.threads[t];
    var size := SizeOf(s.temps, ThreadFile(th));
    var want := if size <= th.len then th.len - size else 0;
    Move(s, t, Receiving(th.start + size, want, 0)).(temps := Append(s.temps, ThreadFile(th), []))
  }

  /** The coordinator's own statements. */
  function Coordination(cat: Catalog, s: State): State
    requires Enabled(cat, s, Coordinate)
  {
    match s.pc
    case Launching(i) =>
      if i == s.peers then s.(pc := Polling)
      else
        var n := s.peers;
        var thread := Thread(i, i, s.target, Offset(FileLen(cat, s), i, n), PieceLen(FileLen(cat, s), i, n), Spawned);
        Spawn(s, i, thread).(pc := Launching(i + 1))
    case Polling => s.(pc := Scanning(0, false))
    case Scanning(i, mark) =>
      if i == s.pieces then s.(pc := Polling)
      else if SizeOf(s.temps, PieceFile(s.target, FileLen(cat, s), i, s.pieces))
              < PieceLen(FileLen(cat, s), i, s.pieces)
      then s.(pc := Waiting(i))
      else s.(pc := Scanning(i + 1, mark))
  }

  function Saving(cat: Catalog, s: State, target: Target): State
    requires Enabled(cat, s, Save(target))
  {
    var merged := Merged(s.temps, target, s.target, FileLen(cat, s), s.pieces);
    s.(temps := merged.1, pc := Done(target, merged.0))
  }

  function Apply(cat: Catalog, s: State, step: Step): State
    requires Enabled(cat, s, step)
  {
    match step
    case Begin(v, p, resume) =>
      State(s.temps, v, p, if resume.None? then p else resume.value,
            seq(p, _ => Free), [], if resume.None? then Launching(0) else Polling)
    case Sweep(keep) =>
      s.(temps := map k | k in s.temps && k in keep :: s.temps[k])
    case Crash =>
      s.(flags := [], threads := [], pc := Idle)
    case Coordinate => Coordination(cat, s)
    case Save(target) => Saving(cat, s, target)
    case Dispatch(peer) =>
      Dispatched(s, peer, s.pc.i, Reparsed(cat, s, s.pc.i).value)
    case Refuse(t) => End(s, t, Failed, Dead)
    case Open(t) => Opening(s, t)
    case Block(t, data) =>
      var th := s.threads[t];
      Move(s, t, th.phase.(got := th.phase.got + |data|)).(temps := Append(s.temps, ThreadFile(th), data))
    case Lose(t) => End(s, t, Failed, Dead)
    case Abort(t, data) =>
      var th := s.threads[t];
      if th.phase.Spawned? then End(s, t, Aborted, Free)
      else End(s, t, Aborted, Free).(temps := Append(s.temps, ThreadFile(th), data))
    case Finish(t) => End(s, t, Complete, Free)
  }

  /** Before the first download: no process, and no temporary files. */
  function Start(v: Version): State {
    State(map[], v, 0, 0, [], [], Idle)
  }

  /** The steps can be taken one after the other. */
  predicate CanRun(cat: Catalog, s: State, steps: seq<Step>)
    decreases |steps|
  {
    steps == [] || (Enabled(cat, s, steps[0]) && CanRun(cat, Apply(cat, s, steps[0]), steps[1..]))
  }

  function Run(cat: Catalog, s: State, steps: seq<Step>): State
    requires CanRun(cat, s, steps)
    decreases |steps|
  {
    if steps == [] then s else Run(cat, Apply(cat, s, steps[0]), steps[1..])
  }

  // ---------- the two scans over peer_flag ----------

  /** get_available_peer_idx: the first peer whose flag is 0, or -1. */
  method GetAvailablePeerIdx(peerFlag: array<Flag>, peerNum: nat) returns (idx: int)
    requires peerNum <= peerFlag.Length
    ensures idx == -1 <==> forall p :: 0 <= p < peerNum ==> peerFlag[p] != Free
    ensures idx != -1 ==> 0 <= idx < peerNum && peerFlag[idx] == Free
    ensures forall p :: 0 <= p < idx ==> peerFlag[p] != Free
  {
    var i := 0;
    while i < peerNum
      invariant 0 <= i <= peerNum
      invariant forall p :: 0 <= p < i ==> peerFlag[p] != Free
    {
      if peerFlag[i] == Free { return i; }
      i := i + 1;
    }
    idx := -1;
  }

  /** is_all_zero: despite its name it asks only that no flag is 1. */
  method IsAllZero(peerFlag: array<Flag>, peerNum: nat) returns (r: bool)
    requires peerNum <= peerFlag.Length
    ensures r == NoneBusy(peerFlag[..peerNum])
  {
    var i := 0;
    while i < peerNum
      invariant 0 <= i <= peerNum
      invariant forall p :: 0 <= p < i ==> peerFlag[p] != Busy
    {
      if peerFlag[i] == Busy {
        assert peerFlag[..peerNum][i] == Busy;
        return false;
      }
      i := i + 1;
    }
    r := true;
  }
}
