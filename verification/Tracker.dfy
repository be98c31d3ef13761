/** The tracker with all its clients: connections, reports and disconnects in any order
  * (handshake_handler in src/server.c over utils/file_monitor.c). Each event is atomic, and a
  * client has one connection. */
module Tracker {
  import opened Tables
  import opened FileTables

  /** `last` holds the latest report of every connected client. */
  datatype State = State(table: Table, connected: set<IP>, last: map<IP, Report>)

  datatype Event = Connect(ip: IP) | FileUpdate(ip: IP, r: Report) | Disconnect(ip: IP)

  predicate Enabled(s: State, ev: Event) {
    match ev
    case Connect(ip) => ip !in s.connected && |s.connected| < MAX_PEERS
    case FileUpdate(ip, _) => ip in s.connected
    case Disconnect(ip) => ip in s.connected
  }

  function Apply(s: State, ev: Event): State {
    match ev
    case Connect(ip) => State(s.table, s.connected + {ip}, s.last[ip := map[]])
    case FileUpdate(ip, r) => State(MergeMap(s.table, ip, AsTable(r, ip)), s.connected, s.last[ip := r])
    case Disconnect(ip) => State(DropMap(s.table, ip), s.connected - {ip}, s.last - {ip})
  }

  const START := State(map[], {}, map[])

  predicate CanRun(s: State, evs: seq<Event>)
    decreases |evs|
  {
    evs == [] || (Enabled(s, evs[0]) && CanRun(Apply(s, evs[0]), evs[1..]))
  }

  function Run(s: State, evs: seq<Event>): State
    decreases |evs|
  {
    if evs == [] then s else Run(Apply(s, evs[0]), evs[1..])
  }

  // ---------- owners are connected clients that reported the name ----------

  predicate OwnersKnown(s: State, x: Path)
    requires x in s.table
  {
    && NoDup(s.table[x].peers)
    && forall p :: p in s.table[x].peers ==> p in s.connected && p in s.last && x in s.last[p]
  }

  ghost predicate Inv(s: State) {
    && |s.connected| <= MAX_PEERS
    && (forall p :: p in s.connected <==> p in s.last)
    && (forall x :: x in s.table ==> OwnersKnown(s, x))
  }

  lemma InvFileUpdate(s: State, ip: IP, r: Report)
    requires Inv(s) && ip in s.connected
    ensures Inv(Apply(s, FileUpdate(ip, r)))
  {
    var s' := Apply(s, FileUpdate(ip, r));
    forall x | x in s'.table
      ensures OwnersKnown(s', x)
    {
      if x in s.table {
        assert OwnersKnown(s, x);
        if x in r {
          UpdatedOwners(s.table[x], ip, AsTable(r, ip)[x]);
        }
      }
    }
  }

  lemma InvDisconnect(s: State, ip: IP)
    requires Inv(s) && ip in s.connected
    ensures Inv(Apply(s, Disconnect(ip)))
  {
    var s' := Apply(s, Disconnect(ip));
    assert |s'.connected| == |s.connected| - 1;
    forall x | x in s'.table
      ensures OwnersKnown(s', x)
    {
      assert OwnersKnown(s, x);
      SwapRemoveExact(s.table[x].peers, ip);
    }
  }

  lemma StepKeeps(s: State, ev: Event)
    requires Inv(s) && Enabled(s, ev)
    ensures Inv(Apply(s, ev))
  {
    match ev
    case Connect(ip) =>
      var s' := Apply(s, ev);
      forall x | x in s'.table
        ensures OwnersKnown(s', x)
      {
        assert OwnersKnown(s, x);
      }
    case FileUpdate(ip, r) => InvFileUpdate(s, ip, r);
    case Disconnect(ip) => InvDisconnect(s, ip);
  }

  lemma {:induction false} RunKeeps(s: State, evs: seq<Event>)
    requires Inv(s) && CanRun(s, evs)
    ensures Inv(Run(s, evs))
    decreases |evs|
  {
    if evs != [] {
      StepKeeps(s, evs[0]);
      RunKeeps(Apply(s, evs[0]), evs[1..]);
    }
  }

  lemma LastKnown(s: State, ip: IP, x: Path)
    requires Inv(s) && ip in s.connected
    ensures ip in s.last
    ensures x in s.table && ip in s.table[x].peers ==> x in s.last[ip]
  {
    if x in s.table {
      assert OwnersKnown(s, x);
    }
  }

  /** A report deletes a name if and only if the client owned it and does not report it; in any
    * run that can only be a name of the client's previous report, so a client that never had a
    * file cannot delete it. */
  lemma {:induction false} NoSpuriousDeletion(evs: seq<Event>, ip: IP, r: Report, x: Path)
    requires CanRun(START, evs) && ip in Run(START, evs).connected
    ensures var s := Run(START, evs);
            && ip in s.last
            && (x in s.table && x !in Apply(s, FileUpdate(ip, r)).table <==>
                  x in s.table && ip in s.table[x].peers && x !in r)
            && (x in s.table && x !in Apply(s, FileUpdate(ip, r)).table ==> x in s.last[ip] && x !in r)
  {
    hide Inv, Run, CanRun, OwnersKnown;
    RunKeeps(START, evs);
    var s := Run(START, evs);
    LastKnown(s, ip, x);
  }

  // ---------- an owner stays an owner ----------

  /** What ends the ownership of p: it disconnects, an owner no longer reports the name, or a newer
    * version of it is reported by somebody else. */
  predicate EndsOwning(s: State, ev: Event, p: IP, x: Path)
    requires x in s.table
  {
    match ev
    case Connect(_) => false
    case Disconnect(ip) => ip == p
    case FileUpdate(ip, r) =>
      if x in r then ip != p && Newer(r[x], s.table[x].stat) else ip in s.table[x].peers
  }

  /** An owner stays listed in one event if and only if that is none of these. */
  lemma OwnerStays(s: State, ev: Event, p: IP, x: Path)
    requires Inv(s) && Enabled(s, ev) && x in s.table && p in s.table[x].peers
    ensures x in Apply(s, ev).table && p in Apply(s, ev).table[x].peers <==> !EndsOwning(s, ev, p, x)
  {
    assert OwnersKnown(s, x);
    match ev
    case Connect(_) =>
    case Disconnect(ip) => SwapRemoveExact(s.table[x].peers, ip);
    case FileUpdate(ip, r) =>
      if x in r {
        UpdatedOwners(s.table[x], ip, AsTable(r, ip)[x]);
      }
  }

  /** As long as p owns x, the event does not end that. */
  ghost predicate NoneEndsOwning(s: State, evs: seq<Event>, p: IP, x: Path)
    decreases |evs|
  {
    evs == [] ||
    ((x in s.table ==> !EndsOwning(s, evs[0], p, x)) && NoneEndsOwning(Apply(s, evs[0]), evs[1..], p, x))
  }

  /** In every run an owner stays listed until it disconnects, the entry is deleted, or somebody
    * else reports a newer version; reports of others of the same version do not push it out. */
  lemma {:induction false} OwnerStaysInRun(s: State, evs: seq<Event>, p: IP, x: Path)
    requires Inv(s) && CanRun(s, evs) && x in s.table && p in s.table[x].peers && NoneEndsOwning(s, evs, p, x)
    ensures x in Run(s, evs).table && p in Run(s, evs).table[x].peers
    decreases |evs|
  {
    if evs != [] {
      StepKeeps(s, evs[0]);
      OwnerStays(s, evs[0], p, x);
      OwnerStaysInRun(Apply(s, evs[0]), evs[1..], p, x);
    }
  }

  /** A client that reports a name is an owner afterwards if and only if it was one, the name is new,
    * or its state is not older than the tracker's; the entry has the newer state. */
  lemma ReporterOwns(s: State, ip: IP, r: Report, x: Path)
    requires Inv(s) && ip in s.connected && x in r
    ensures var t := Apply(s, FileUpdate(ip, r)).table;
            && x in t
            && (ip in t[x].peers <==>
                  || x !in s.table || ip in s.table[x].peers
                  || Newer(r[x], s.table[x].stat) || SameState(r[x], s.table[x].stat))
            && t[x].stat == if x in s.table && !Newer(r[x], s.table[x].stat) then s.table[x].stat else r[x]
  {
    if x in s.table {
      assert OwnersKnown(s, x);
      UpdatedOwners(s.table[x], ip, AsTable(r, ip)[x]);
    }
  }

  /** 200 clients may be connected, no more; reports come from connected clients, and each may leave. */
  lemma WhoMay(s: State, ip: IP, r: Report)
    ensures Enabled(s, Connect(ip)) <==> ip !in s.connected && |s.connected| < 200
    ensures Enabled(s, FileUpdate(ip, r)) <==> ip in s.connected
    ensures Enabled(s, Disconnect(ip)) <==> ip in s.connected
  {
  }

  // ---------- the owner arrays ----------

  lemma OwnersBound(s: State, x: Path)
    requires Inv(s) && x in s.table
    ensures |s.table[x].peers| <= MAX_PEERS
  {
    assert OwnersKnown(s, x);
    PigeonHole(s.table[x].peers, s.connected);
  }

  /** With at most 200 connected clients no owner array overflows: not now, and not by the
    * entry a report may append. */
  lemma {:induction false} ArrayBound(evs: seq<Event>, x: Path)
    requires CanRun(START, evs) && x in Run(START, evs).table
    ensures var s := Run(START, evs);
            && |s.table[x].peers| <= MAX_PEERS
            && forall ip :: ip in s.connected && ip !in s.table[x].peers ==> |s.table[x].peers| < MAX_PEERS
  {
    RunKeeps(START, evs);
    var s := Run(START, evs);
    assert OwnersKnown(s, x);
    OwnersBound(s, x);
    forall ip | ip in s.connected && ip !in s.table[x].peers
      ensures |s.table[x].peers| < MAX_PEERS
    {
      PigeonHole(s.table[x].peers, s.connected - {ip});
    }
  }

  /** After a disconnect nobody finds the peer among any file's owners. */
  lemma {:induction false} DisconnectForgets(evs: seq<Event>, ip: IP, x: Path)
    requires CanRun(START, evs) && ip in Run(START, evs).connected && x in Run(START, evs).table
    ensures var s := Run(START, evs);
            var s' := Apply(s, Disconnect(ip));
            x in s'.table && ip !in s'.table[x].peers &&
            forall p :: p != ip ==> (p in s'.table[x].peers <==> p in s.table[x].peers)
  {
    RunKeeps(START, evs);
    var s := Run(START, evs);
    assert OwnersKnown(s, x);
    SwapRemoveExact(s.table[x].peers, ip);
  }

  // ---------- owners have the newest version ----------

  predicate AccurateAt(s: State, x: Path)
    requires x in s.table
  {
    s.table[x].stat.kind == File ==>
      forall p :: p in s.table[x].peers ==>
        p in s.last && x in s.last[p] && s.last[p][x].timestamp == s.table[x].stat.timestamp
  }

  /** Every owner of a file last reported it with exactly the entry's timestamp. */
  ghost predicate Accurate(s: State) {
    forall x :: x in s.table ==> AccurateAt(s, x)
  }

  predicate OlderAt(s: State, ip: IP, r: Report, x: Path) {
    x in s.table && s.table[x].stat.kind == File && ip in s.table[x].peers &&
    x in r && r[x].timestamp < s.table[x].stat.timestamp
  }

  lemma AccurateAfter(s: State, ip: IP, r: Report, x: Path)
    requires Inv(s) && Accurate(s) && ip in s.connected && !OlderAt(s, ip, r, x)
    requires x in Apply(s, FileUpdate(ip, r)).table
    ensures AccurateAt(Apply(s, FileUpdate(ip, r)), x)
  {
    if x in s.table {
      assert AccurateAt(s, x) && OwnersKnown(s, x);
      if x in r {
        UpdatedOwners(s.table[x], ip, AsTable(r, ip)[x]);
      }
    }
  }

  /** A report keeps the owner lists accurate if and only if it gives no file the client owns
    * with an older timestamp than the tracker has. */
  lemma AccurateExactly(s: State, ip: IP, r: Report)
    requires Inv(s) && Accurate(s) && ip in s.connected
    ensures Accurate(Apply(s, FileUpdate(ip, r))) <==> !exists x :: OlderAt(s, ip, r, x)
  {
    var s' := Apply(s, FileUpdate(ip, r));
    forall x | OlderAt(s, ip, r, x)
      ensures x in s'.table && !AccurateAt(s', x)
    {
      assert s'.table[x] == s.table[x];
      assert ip in s'.table[x].peers;
    }
    if !exists x :: OlderAt(s, ip, r, x) {
      forall x | x in s'.table
        ensures AccurateAt(s', x)
      {
        AccurateAfter(s, ip, r, x);
      }
    }
  }

  /** A client never reports a name it still has with an older timestamp than before. */
  predicate Monotone(s: State, ev: Event) {
    ev.FileUpdate? && ev.ip in s.last ==>
      forall x :: x in ev.r && x in s.last[ev.ip] ==> s.last[ev.ip][x].timestamp <= ev.r[x].timestamp
  }

  predicate AllMonotone(s: State, evs: seq<Event>)
    decreases |evs|
  {
    evs == [] || (Monotone(s, evs[0]) && AllMonotone(Apply(s, evs[0]), evs[1..]))
  }

  lemma AccurateKept(s: State, ev: Event)
    requires Inv(s) && Accurate(s) && Enabled(s, ev) && Monotone(s, ev)
    ensures Accurate(Apply(s, ev))
  {
    var s' := Apply(s, ev);
    match ev
    case FileUpdate(ip, r) =>
      forall x
        ensures !OlderAt(s, ip, r, x)
      {
        if x in s.table {
          assert AccurateAt(s, x) && OwnersKnown(s, x);
        }
      }
      AccurateExactly(s, ip, r);
    case _ =>
      forall x | x in s'.table
        ensures AccurateAt(s', x)
      {
        assert AccurateAt(s, x) && OwnersKnown(s, x);
        SwapRemoveExact(s.table[x].peers, ev.ip);
      }
  }

  lemma {:induction false} AccurateRun(s: State, evs: seq<Event>)
    requires Inv(s) && Accurate(s) && CanRun(s, evs) && AllMonotone(s, evs)
    ensures Accurate(Run(s, evs))
    decreases |evs|
  {
    if evs != [] {
      StepKeeps(s, evs[0]);
      AccurateKept(s, evs[0]);
      AccurateRun(Apply(s, evs[0]), evs[1..]);
    }
  }

  /** In every run in which no client takes a timestamp back, the tracker names as owners of a
    * file only clients whose latest report has the file with the tracker's timestamp. */
  lemma {:induction false} OwnersHaveNewest(evs: seq<Event>)
    requires CanRun(START, evs) && AllMonotone(START, evs)
    ensures Accurate(Run(START, evs))
  {
    AccurateRun(START, evs);
  }

  lemma {:induction false} RunCons(s: State, ev: Event, evs: seq<Event>)
    ensures CanRun(s, [ev] + evs) <==> Enabled(s, ev) && CanRun(Apply(s, ev), evs)
    ensures Run(s, [ev] + evs) == Run(Apply(s, ev), evs)
  {
    assert ([ev] + evs)[1..] == evs;
  }

  /** A client that puts back an older copy of a file it has reported. */
  function OldCopyRun(ip: IP, x: Path): seq<Event> {
    [Connect(ip)] + ([FileUpdate(ip, map[x := Stat(File, 1, 5)])] +
                     ([FileUpdate(ip, map[x := Stat(File, 1, 3)])] + []))
  }

  lemma OldCopyHappens(ip: IP, x: Path)
    ensures CanRun(START, OldCopyRun(ip, x))
    ensures var s := Run(START, OldCopyRun(ip, x));
            && s.table == map[x := Info(Stat(File, 1, 5), [ip])]
            && s.last == map[ip := map[x := Stat(File, 1, 3)]]
  {
    var newer, older := map[x := Stat(File, 1, 5)], map[x := Stat(File, 1, 3)];
    var s1 := Apply(START, Connect(ip));
    var s2 := Apply(s1, FileUpdate(ip, newer));
    var s3 := Apply(s2, FileUpdate(ip, older));
    RunCons(s2, FileUpdate(ip, older), []);
    RunCons(s1, FileUpdate(ip, newer), [FileUpdate(ip, older)] + []);
    RunCons(START, Connect(ip), [FileUpdate(ip, newer)] + ([FileUpdate(ip, older)] + []));
    assert s2.table == map[x := Info(Stat(File, 1, 5), [ip])];
    assert s3.table == s2.table;
  }

  /** Without that the tracker can be fooled: the client stays listed as an owner of the newer
    * version. */
  lemma OldCopyStaysListed(ip: IP, x: Path)
    ensures CanRun(START, OldCopyRun(ip, x)) && !Accurate(Run(START, OldCopyRun(ip, x)))
  {
    hide Run, CanRun, OldCopyRun;
    OldCopyHappens(ip, x);
    var s := Run(START, OldCopyRun(ip, x));
    assert ip in s.table[x].peers;
    assert !AccurateAt(s, x);
  }

  /** When exactly an entry is left without an owner: its last one disconnects, or it had none
    * and nobody reports this or a newer version. */
  lemma OwnerlessExactly(s: State, ev: Event, x: Path)
    requires Inv(s) && Enabled(s, ev) && x in s.table && x in Apply(s, ev).table
    ensures Apply(s, ev).table[x].peers == [] <==>
            match ev
            case Connect(_) => s.table[x].peers == []
            case Disconnect(ip) => forall p :: p in s.table[x].peers ==> p == ip
            case FileUpdate(ip, r) =>
              && s.table[x].peers == []
              && (x in r ==> r[x].timestamp < s.table[x].stat.timestamp && !BothFolders(r[x], s.table[x].stat))
  {
    assert OwnersKnown(s, x);
    if ev.Disconnect? {
      SwapRemoveExact(s.table[x].peers, ev.ip);
      var left := Apply(s, ev).table[x].peers;
      if left != [] {
        assert left[0] in left;
      }
    }
  }

  /** It happens: one client reports a version and leaves, another comes with an older one. */
  function OwnerlessRun(a: IP, b: IP, x: Path): seq<Event> {
    [Connect(a)] + ([FileUpdate(a, map[x := Stat(File, 1, 5)])] + ([Disconnect(a)] +
      ([Connect(b)] + ([FileUpdate(b, map[x := Stat(File, 1, 3)])] + []))))
  }

  lemma OwnerlessSteps(a: IP, b: IP, x: Path) returns (s1: State, s2: State, s3: State, s4: State)
    ensures Enabled(START, Connect(a)) && s1 == Apply(START, Connect(a))
    ensures var ev := FileUpdate(a, map[x := Stat(File, 1, 5)]); Enabled(s1, ev) && s2 == Apply(s1, ev)
    ensures Enabled(s2, Disconnect(a)) && s3 == Apply(s2, Disconnect(a))
    ensures Enabled(s3, Connect(b)) && s4 == Apply(s3, Connect(b))
    ensures var ev := FileUpdate(b, map[x := Stat(File, 1, 3)]);
            Enabled(s4, ev) && Apply(s4, ev).table == map[x := Info(Stat(File, 1, 5), [])]
  {
    s1 := Apply(START, Connect(a));
    s2 := Apply(s1, FileUpdate(a, map[x := Stat(File, 1, 5)]));
    s3 := Apply(s2, Disconnect(a));
    s4 := Apply(s3, Connect(b));
    assert s1.connected == {a};
    assert s2.table == map[x := Info(Stat(File, 1, 5), [a])];
    assert s3.connected == {};
    assert s3.table == map[x := Info(Stat(File, 1, 5), [])];
    assert Apply(s4, FileUpdate(b, map[x := Stat(File, 1, 3)])).table == s4.table;
  }

  lemma OwnerlessHappens(a: IP, b: IP, x: Path)
    ensures CanRun(START, OwnerlessRun(a, b, x))
    ensures Run(START, OwnerlessRun(a, b, x)).table == map[x := Info(Stat(File, 1, 5), [])]
  {
    hide Apply, Enabled;
    var ev2, ev5 := FileUpdate(a, map[x := Stat(File, 1, 5)]), FileUpdate(b, map[x := Stat(File, 1, 3)]);
    var s1, s2, s3, s4 := OwnerlessSteps(a, b, x);
    RunCons(s4, ev5, []);
    RunCons(s3, Connect(b), [ev5] + []);
    RunCons(s2, Disconnect(a), [Connect(b)] + ([ev5] + []));
    RunCons(s1, ev2, [Disconnect(a)] + ([Connect(b)] + ([ev5] + [])));
    RunCons(START, Connect(a), [ev2] + ([Disconnect(a)] + ([Connect(b)] + ([ev5] + []))));
  }

  /** A client reports a file. */
  function ReportedRun(ip: IP, x: Path): seq<Event> {
    [Connect(ip)] + ([FileUpdate(ip, map[x := Stat(File, 1, 5)])] + [])
  }

  lemma ReportedHappens(ip: IP, x: Path)
    ensures CanRun(START, ReportedRun(ip, x))
    ensures Run(START, ReportedRun(ip, x)).table == map[x := Info(Stat(File, 1, 5), [ip])]
  {
    var ev := FileUpdate(ip, map[x := Stat(File, 1, 5)]);
    var s1 := Apply(START, Connect(ip));
    RunCons(s1, ev, []);
    RunCons(START, Connect(ip), [ev] + []);
    assert Apply(s1, ev).table == map[x := Info(Stat(File, 1, 5), [ip])];
  }

  // ---------- the tracker's list is the model's table ----------

  /** The list the program works on, and the table of the model. */
  ghost predicate Represents(es: seq<Entry>, s: State) {
    Unique(es) && Abs(es) == s.table
  }

  lemma RepresentsWithin(es: seq<Entry>, s: State)
    requires Represents(es, s) && Inv(s)
    ensures OwnersWithin(es, s.connected) && |s.connected| <= MAX_PEERS
  {
    forall i | 0 <= i < |es|
      ensures NoDup(es[i].info.peers) && forall p :: p in es[i].info.peers ==> p in s.connected
    {
      IndexUnique(es, i);
      AbsAt(es, es[i].name);
      assert OwnersKnown(s, es[i].name);
    }
  }

  /** What the merge makes of a report does not depend on the owners the report lists. */
  lemma ReportOwnersIgnored(m: Table, ip: IP, r: Table, r': Table)
    requires r.Keys == r'.Keys && forall x :: x in r ==> r[x].stat == r'[x].stat
    ensures MergeMap(m, ip, r) == MergeMap(m, ip, r')
  {
    forall x
      ensures MergePoint(At(m, x), ip, At(r, x)) == MergePoint(At(m, x), ip, At(r', x))
    {
    }
  }

  lemma SyncRepresents(es: seq<Entry>, s: State, ip: IP, cs: seq<Entry>)
    requires Represents(es, s) && Unique(cs)
    ensures Represents(Synced(es, ip, cs), Apply(s, FileUpdate(ip, StatsOf(cs))))
  {
    SyncRefinesMerge(es, ip, cs);
    ReportOwnersIgnored(Abs(es), ip, Abs(cs), AsTable(StatsOf(cs), ip));
  }

  lemma DropRepresents(es: seq<Entry>, s: State, ip: IP)
    requires Represents(es, s)
    ensures Represents(Dropped(es, ip), Apply(s, Disconnect(ip)))
  {
    DropRefines(es, ip);
  }

  /** The tracker process: its linked list follows the model's table through every event, and
    * the owner arrays never overflow. */
  class Server {
    const fileTable: FileTable
    ghost var state: State

    ghost predicate Valid()
      reads this, fileTable, fileTable.nodes, fileTable.Arrays()
    {
      fileTable.Valid() && Represents(fileTable.entries, state) && Inv(state)
    }

    constructor ()
      ensures Valid() && state == START
    {
      fileTable := new FileTable();
      state := START;
    }

    /** A client passes the handshake. */
    ghost method Connected(ip: IP)
      requires Valid() && Enabled(state, Connect(ip))
      modifies this
      ensures Valid() && state == Apply(old(state), Connect(ip))
    {
      StepKeeps(state, Connect(ip));
      state := Apply(state, Connect(ip));
    }

    /** SIGNAL_FILE_UPDATE: merge the report, then broadcast the table behind its head node. */
    method HandleFileUpdate(ip: IP, client: seq<Entry>) returns (numNodes: nat, broadcast: seq<Entry>)
      requires Valid() && ip in state.connected
      requires Unique(client) && forall c :: c in client ==> |c.info.peers| == 1
      modifies this, fileTable`nodes, fileTable`entries, fileTable.nodes, fileTable.Arrays()
      ensures Valid() && state == Apply(old(state), FileUpdate(ip, StatsOf(client)))
      ensures numNodes == |broadcast| > 0 && Unique(broadcast[1..]) && Abs(broadcast[1..]) == state.table
    {
      hide Represents, Inv, Apply, OwnersWithin, Synced;
      RepresentsWithin(fileTable.entries, state);
      SyncRepresents(fileTable.entries, state, ip, client);
      StepKeeps(state, FileUpdate(ip, StatsOf(client)));
      fileTable.SyncFromClient(ip, client, state.connected);
      state := Apply(state, FileUpdate(ip, StatsOf(client)));
      numNodes, broadcast := fileTable.SendFileTable();
    }

    /** The end of a connection. */
    method HandleDisconnect(ip: IP)
      requires Valid() && ip in state.connected
      modifies this, fileTable`entries, fileTable.nodes, fileTable.Arrays()
      ensures Valid() && state == Apply(old(state), Disconnect(ip))
    {
      hide Represents, Inv, Apply;
      DropRepresents(fileTable.entries, state, ip);
      StepKeeps(state, Disconnect(ip));
      fileTable.DeleteDisconnPeer(ip);
      state := Apply(state, Disconnect(ip));
    }
  }
}
