/** Tracker and clients together: what synchronising and reporting in turn leads to. */
module Convergence {
  import opened Wrappers
  import opened Tables
  import opened Tracker
  import opened Reconcile
  import opened Fetching
  import Detector
  import Download
  import Files
  import Partition

  /** A client and its directory; folders have times too, which nobody compares. */
  datatype Member = Member(ip: IP, disk: Disk, times: map<Path, nat>)

  /** Every download brings its version. */
  function AllCome(t: Table, src: Source): Answers {
    (x: Path) => if x in t then Saves(Right(src, t, x)) else NotSaved
  }

  /** The directory after table t was applied and every download brought its version. */
  function Synced(disk: Disk, t: Table, src: Source): Disk {
    Reconciled(disk, t, AllCome(t, src))
  }

  /** The report a client then sends. */
  function SyncedReport(c: Member, t: Table, src: Source): Report {
    ReportOf(Synced(c.disk, t, src), c.times)
  }

  /** Types agree, and what the client must fetch has owners. */
  ghost predicate Ready(c: Member, t: Table) {
    SameTypes(c.disk, t) && forall x :: NeedsFetch(c.disk, t, x) ==> t[x].peers != []
  }

  /** If the downloads bring what they should, the directory becomes the synchronised one. */
  lemma FetchedIsSynced(c: Member, t: Table, src: Source, f: Answers)
    requires TableOk(t) && SameTypes(c.disk, t) && CanFetch(c.disk, t, src, f)
    ensures Ready(c, t) && Ends(c.disk, t, f) && Reconciled(c.disk, t, f) == Synced(c.disk, t, src)
  {
    forall x | x in t
      ensures Result(NodeAt(c.disk, x), t[x], f(x)) == Result(NodeAt(c.disk, x), t[x], AllCome(t, src)(x))
    {
      assert t[x].stat.kind != Other;
      assert NeedsFetch(c.disk, t, x) ==> f(x) == Saves(Right(src, t, x));
    }
  }

  lemma AllComeFetch(c: Member, t: Table, src: Source)
    requires Ready(c, t)
    ensures CanFetch(c.disk, t, src, AllCome(t, src))
  {
  }

  /** The table still has t's names and kinds, and no file is older than in t. */
  ghost predicate Grown(t: Table, now: Table) {
    && now.Keys == t.Keys
    && forall x :: x in t ==>
         && now[x].stat.kind == t[x].stat.kind
         && (t[x].stat.kind == File ==> t[x].stat.timestamp <= now[x].stat.timestamp)
  }

  /** The time a client has for a file of its own; 0 if it has none. */
  function LocalStamp(disk: Disk, x: Path): nat {
    if x in disk && disk[x].Plain? then disk[x].timestamp else 0
  }

  function Max(a: nat, b: nat): nat {
    if a < b then b else a
  }

  /** The newest time of a file anywhere: in the table or at a client. */
  function NewestStamp(t: Table, cs: seq<Member>, x: Path): (r: nat)
    requires x in t
    ensures t[x].stat.timestamp <= r && forall i :: 0 <= i < |cs| ==> LocalStamp(cs[i].disk, x) <= r
    ensures r == t[x].stat.timestamp || exists i :: 0 <= i < |cs| && LocalStamp(cs[i].disk, x) == r
  {
    if cs == [] then t[x].stat.timestamp
    else
      var rest := NewestStamp(t, cs[1..], x);
      assert forall i :: 0 <= i < |cs| - 1 ==> cs[1..][i] == cs[i + 1];
      Max(LocalStamp(cs[0].disk, x), rest)
  }

  /** What a client reports after applying table t: t's names, with the newer time. */
  lemma SyncedStat(c: Member, t: Table, src: Source)
    requires TableOk(t) && Ready(c, t)
    ensures SyncedReport(c, t, src).Keys == t.Keys
    ensures forall x :: x in t ==>
              var stat := SyncedReport(c, t, src)[x];
              && stat.kind == t[x].stat.kind
              && (stat.kind == File ==> stat.timestamp == NewerStamp(c.disk, t, x))
  {
    AllComeFetch(c, t, src);
    ReconciledExactly(c.disk, t, src, AllCome(t, src));
    assert Synced(c.disk, t, src).Keys == t.Keys;
  }

  /** A report with all the table's names and kinds deletes and adds nothing. */
  lemma FullReport(m: Table, ip: IP, r: Report, x: Path)
    requires m.Keys == r.Keys && x in m
    requires m[x].stat.kind == r[x].kind && m[x].stat.kind != Other
    ensures var now := MergeMap(m, ip, AsTable(r, ip));
            && now.Keys == m.Keys
            && now[x].stat.kind == m[x].stat.kind
            && (m[x].stat.kind == File ==> now[x].stat.timestamp == Max(m[x].stat.timestamp, r[x].timestamp))
            && (m[x].stat.kind == Folder || m[x].stat.timestamp <= r[x].timestamp ==> ip in now[x].peers)
            && (m[x].peers != [] ==> now[x].peers != [])
  {
    assert MergeMap(m, ip, AsTable(r, ip)).Keys == m.Keys;
  }

  lemma ReportIs(c: Member, t: Table, src: Source)
    ensures SyncedReport(c, t, src) == ReportOf(Synced(c.disk, t, src), c.times)
  {
  }

  /** Synchronising and then reporting is a join: if the downloads bring what they should, no
    * name is deleted or added at the tracker, each file gets the newer time of tracker and
    * client, and the client becomes an owner of everything of which it has the tracker's newest
    * version. This holds also when others have reported in between. */
  lemma SyncThenReportJoins(t: Table, s: State, c: Member, src: Source, f: Answers, x: Path)
    requires TableOk(t) && Grown(t, s.table) && x in t
    requires SameTypes(c.disk, t) && CanFetch(c.disk, t, src, f)
    ensures var now := Apply(s, FileUpdate(c.ip, ReportOf(Reconciled(c.disk, t, f), c.times))).table;
            && now.Keys == s.table.Keys
            && now[x].stat.kind == t[x].stat.kind
            && (t[x].stat.kind == File ==>
                  now[x].stat.timestamp == Max(s.table[x].stat.timestamp, LocalStamp(c.disk, x)))
            && (t[x].stat.kind == Folder || s.table[x].stat.timestamp <= NewerStamp(c.disk, t, x) ==>
                  c.ip in now[x].peers)
  {
    hide SyncedReport, MergeMap, AsTable, TableOk, Ready, CanFetch, SameTypes;
    FetchedIsSynced(c, t, src, f);
    assert ReportOf(Reconciled(c.disk, t, f), c.times) == SyncedReport(c, t, src) by { ReportIs(c, t, src); }
    SyncedStat(c, t, src);
    KindKnown(t, x);
    FullReport(s.table, c.ip, SyncedReport(c, t, src), x);
  }

  lemma NoNewNames(m: Table, ip: IP, r: Report)
    requires m.Keys == r.Keys
    ensures MergeMap(m, ip, AsTable(r, ip)).Keys == m.Keys
  {
  }

  /** In particular, with the table just applied: the client owns every entry afterwards. */
  lemma SyncThenReportOwns(s: State, c: Member, src: Source, f: Answers)
    requires TableOk(s.table) && SameTypes(c.disk, s.table) && CanFetch(c.disk, s.table, src, f)
    ensures var now := Apply(s, FileUpdate(c.ip, ReportOf(Reconciled(c.disk, s.table, f), c.times))).table;
            now.Keys == s.table.Keys && forall x :: x in now ==> c.ip in now[x].peers
  {
    hide SyncedReport, CanFetch, SameTypes;
    FetchedIsSynced(c, s.table, src, f);
    ReportIs(c, s.table, src);
    SyncedStat(c, s.table, src);
    forall x | x in s.table
      ensures var now := Apply(s, FileUpdate(c.ip, SyncedReport(c, s.table, src))).table;
              now.Keys == s.table.Keys && c.ip in now[x].peers
    {
      FullReport(s.table, c.ip, SyncedReport(c, s.table, src), x);
    }
    NoNewNames(s.table, c.ip, SyncedReport(c, s.table, src));
  }

  // ---------- a quiet round ----------

  /** Every client has applied table t and reports, one after the other. */
  function Reports(t: Table, cs: seq<Member>, src: Source): seq<Event> {
    if cs == [] then [] else [FileUpdate(cs[0].ip, SyncedReport(cs[0], t, src))] + Reports(t, cs[1..], src)
  }

  ghost predicate AllReady(cs: seq<Member>, s: State, t: Table) {
    forall i :: 0 <= i < |cs| ==> cs[i].ip in s.connected && Ready(cs[i], t)
  }

  /** Every entry has an owner. */
  predicate Owned(m: Table) {
    forall x :: x in m ==> m[x].peers != []
  }

  /** One report of a round. */
  lemma OneReport(t: Table, s: State, c: Member, src: Source)
    requires TableOk(t) && Grown(t, s.table) && Ready(c, t)
    ensures var now := Apply(s, FileUpdate(c.ip, SyncedReport(c, t, src))).table;
            && Grown(t, now)
            && (Owned(s.table) || s.table == t ==> Owned(now))
            && forall x :: x in t && t[x].stat.kind == File ==>
                 now[x].stat.timestamp == Max(s.table[x].stat.timestamp, LocalStamp(c.disk, x))
  {
    var r := SyncedReport(c, t, src);
    var now := Apply(s, FileUpdate(c.ip, r)).table;
    hide SyncedReport, TableOk;
    SyncedStat(c, t, src);
    NoNewNames(s.table, c.ip, r);
    forall x | x in t
      ensures now[x].stat.kind == t[x].stat.kind
      ensures t[x].stat.kind == File ==>
                now[x].stat.timestamp == Max(s.table[x].stat.timestamp, LocalStamp(c.disk, x))
      ensures Owned(s.table) || s.table == t ==> now[x].peers != []
    {
      KindKnown(t, x);
      FullReport(s.table, c.ip, r, x);
    }
  }

  /** It does not matter whether a time counts before or after the others. */
  lemma {:induction false} NewestShift(t: Table, now: Table, cs: seq<Member>, a: nat, x: Path)
    requires x in t && x in now && now[x].stat.timestamp == Max(t[x].stat.timestamp, a)
    ensures NewestStamp(now, cs, x) == Max(a, NewestStamp(t, cs, x))
    decreases |cs|
  {
    if cs != [] {
      NewestShift(t, now, cs[1..], a, x);
    }
  }

  /** After the reports the tracker has t's names, and of each file the newest version there was
    * anywhere. */
  lemma {:induction false} RoundResult(t: Table, s: State, cs: seq<Member>, src: Source)
    requires TableOk(t) && Grown(t, s.table) && AllReady(cs, s, t)
    ensures CanRun(s, Reports(t, cs, src))
    ensures var now := Run(s, Reports(t, cs, src)).table;
            && Grown(t, now)
            && (Owned(s.table) || (s.table == t && cs != []) ==> Owned(now))
            && forall x :: x in t && t[x].stat.kind == File ==>
                 now[x].stat.timestamp == NewestStamp(s.table, cs, x)
    decreases |cs|
  {
    hide SyncedReport, AsTable, MergeMap, TableOk, Ready, Owned, Max;
    if cs != [] {
      var ev := FileUpdate(cs[0].ip, SyncedReport(cs[0], t, src));
      var s1 := Apply(s, ev);
      OneReport(t, s, cs[0], src);
      assert forall i :: 0 <= i < |cs| - 1 ==> cs[1..][i] == cs[i + 1];
      RoundResult(t, s1, cs[1..], src);
      assert Reports(t, cs, src)[0] == ev && Reports(t, cs, src)[1..] == Reports(t, cs[1..], src);
      forall x | x in t && t[x].stat.kind == File
        ensures NewestStamp(s1.table, cs[1..], x) == NewestStamp(s.table, cs, x)
      {
        NewestShift(s.table, s1.table, cs[1..], LocalStamp(cs[0].disk, x), x);
      }
    }
  }

  /** The two sides agree: the directory has the table's names, and each file with the table's
    * timestamp. */
  ghost predicate Agree(disk: Disk, m: Table) {
    && disk.Keys == m.Keys
    && forall x :: x in m ==>
         if m[x].stat.kind == Folder then disk[x] == Dir
         else disk[x].Plain? && disk[x].timestamp == m[x].stat.timestamp
  }

  lemma GrownOk(t: Table, now: Table)
    requires TableOk(t) && Grown(t, now)
    ensures TableOk(now)
  {
  }

  lemma SyncedTypes(c: Member, t: Table, now: Table, src: Source)
    requires TableOk(t) && Ready(c, t) && Grown(t, now)
    ensures SameTypes(Synced(c.disk, t, src), now)
  {
    AllComeFetch(c, t, src);
    ReconciledExactly(c.disk, t, src, AllCome(t, src));
    forall x | x in t
      ensures FollowsAt(Synced(c.disk, t, src), c.disk, t, src, x)
    {
    }
  }

  lemma AgreeAt(t: Table, now: Table, c: Member, x: Path, src: Source)
    requires TableOk(t) && Grown(t, now) && Ready(c, t) && x in now && now[x].peers != []
    requires t[x].stat.kind == File ==> LocalStamp(c.disk, x) <= now[x].stat.timestamp
    ensures var out := Synced(Synced(c.disk, t, src), now, src);
            x in out && (if now[x].stat.kind == Folder then out[x] == Dir
                         else out[x].Plain? && out[x].timestamp == now[x].stat.timestamp)
  {
    GrownOk(t, now);
    SyncedTypes(c, t, now, src);
    hide TableOk, SameTypes;
    ReconciledAt(c.disk, t, src, AllCome(t, src), x);
    ReconciledAt(Synced(c.disk, t, src), now, src, AllCome(now, src), x);
    KindKnown(t, x);
  }

  lemma AgreeAfterRound(t: Table, now: Table, cs: seq<Member>, i: nat, src: Source)
    requires TableOk(t) && Grown(t, now) && Owned(now) && i < |cs| && Ready(cs[i], t)
    requires forall x :: x in t && t[x].stat.kind == File ==> now[x].stat.timestamp == NewestStamp(t, cs, x)
    ensures Agree(Synced(Synced(cs[i].disk, t, src), now, src), now)
  {
    hide TableOk, Ready;
    var out := Synced(Synced(cs[i].disk, t, src), now, src);
    forall x | x in now
      ensures x in out && (if now[x].stat.kind == Folder then out[x] == Dir
                           else out[x].Plain? && out[x].timestamp == now[x].stat.timestamp)
    {
      assert LocalStamp(cs[i].disk, x) <= NewestStamp(t, cs, x);
      AgreeAt(t, now, cs[i], x, src);
    }
    assert out.Keys == now.Keys;
  }

  // ---------- the clients serve each other ----------

  /** No client has bytes under a time that is not theirs. */
  predicate Genuine(disk: Disk, src: Source) {
    forall x :: x in disk && disk[x].Plain? ==> disk[x].bytes == src(x, disk[x].timestamp)
  }

  /** The sizes in a report are those of the versions. */
  predicate SizesRight(r: Report, src: Source) {
    forall x :: x in r && r[x].kind == File ==> r[x].size == |src(x, r[x].timestamp)|
  }

  predicate TableSizes(m: Table, src: Source) {
    forall x :: x in m && m[x].stat.kind == File ==> m[x].stat.size == |Right(src, m, x)|
  }

  lemma ReportSizes(disk: Disk, times: map<Path, nat>, src: Source)
    requires Genuine(disk, src)
    ensures SizesRight(ReportOf(disk, times), src)
  {
  }

  lemma EventSizes(s: State, ev: Event, src: Source)
    requires TableSizes(s.table, src) && (ev.FileUpdate? ==> SizesRight(ev.r, src))
    ensures TableSizes(Apply(s, ev).table, src)
  {
  }

  /** If all reports give the versions' sizes, so does the table. */
  lemma {:induction false} RunSizes(s: State, evs: seq<Event>, src: Source)
    requires TableSizes(s.table, src)
    requires forall i :: 0 <= i < |evs| && evs[i].FileUpdate? ==> SizesRight(evs[i].r, src)
    ensures TableSizes(Run(s, evs).table, src)
    decreases |evs|
  {
    hide TableSizes, SizesRight, Apply;
    if evs != [] {
      EventSizes(s, evs[0], src);
      RunSizes(Apply(s, evs[0]), evs[1..], src);
    }
  }

  predicate Distinct(cs: seq<Member>) {
    forall i, j :: 0 <= i < j < |cs| ==> cs[i].ip != cs[j].ip
  }

  /** The members are all the connected clients. */
  ghost predicate Everyone(cs: seq<Member>, s: State) {
    && Distinct(cs)
    && (forall i :: 0 <= i < |cs| ==> cs[i].ip in s.connected)
    && (forall p :: p in s.connected ==> exists i :: 0 <= i < |cs| && cs[i].ip == p)
  }

  /** The directories of the members. */
  function NetOf(cs: seq<Member>): Peers {
    if cs == [] then map[] else NetOf(cs[1..])[cs[0].ip := cs[0].disk]
  }

  lemma {:induction false} NetAt(cs: seq<Member>, i: nat)
    requires Distinct(cs) && i < |cs|
    ensures cs[i].ip in NetOf(cs) && NetOf(cs)[cs[i].ip] == cs[i].disk
    decreases |cs|
  {
    if i > 0 {
      assert cs[1..][i - 1] == cs[i];
      NetAt(cs[1..], i - 1);
    }
  }

  /** What the members last reported is what they have. */
  ghost predicate Reported(cs: seq<Member>, s: State) {
    forall i :: 0 <= i < |cs| ==> cs[i].ip in s.last && s.last[cs[i].ip] == ReportOf(cs[i].disk, cs[i].times)
  }

  ghost predicate AllProper(cs: seq<Member>, t: Table, src: Source) {
    forall i :: 0 <= i < |cs| ==> SameTypes(cs[i].disk, t) && Genuine(cs[i].disk, src)
  }

  /** An owner that reported what it has, has the version it is listed for. */
  lemma OwnerHas(s: State, cs: seq<Member>, x: Path, j: nat, src: Source)
    requires Inv(s) && Accurate(s) && Distinct(cs) && Reported(cs, s) && AllProper(cs, s.table, src)
    requires x in s.table && s.table[x].stat.kind == File && j < |cs| && cs[j].ip in s.table[x].peers
    ensures HasVersion(NetOf(cs), cs[j].ip, x, s.table[x], src)
  {
    hide Inv;
    assert AccurateAt(s, x);
    NetAt(cs, j);
  }

  /** While the owner lists are accurate and everybody has what it last reported, what a client
    * must fetch is held by all owners that are listed, and the client is none of them. */
  lemma OwnersHold(s: State, cs: seq<Member>, i: nat, x: Path, src: Source)
    requires Inv(s) && Accurate(s) && Everyone(cs, s) && Reported(cs, s) && AllProper(cs, s.table, src)
    requires i < |cs| && NeedsFetch(cs[i].disk, s.table, x) && s.table[x].peers != []
    ensures Held(NetOf(cs), cs[i].ip, x, s.table[x], src)
  {
    forall q | q in s.table[x].peers
      ensures q != cs[i].ip && HasVersion(NetOf(cs), q, x, s.table[x], src)
    {
      assert OwnersKnown(s, x);
      var j :| 0 <= j < |cs| && cs[j].ip == q;
      OwnerHas(s, cs, x, j, src);
      NetAt(cs, i);
    }
  }

  /** The owners have answers, and whatever they are, the client's call ends and leaves this
    * directory. */
  ghost predicate Applies(net: Peers, c: Member, t: Table, out: Disk) {
    && (exists f: Answers :: AllAnswered(net, c.ip, t, f))
    && forall f: Answers :: AllAnswered(net, c.ip, t, f) ==> Ends(c.disk, t, f) && Reconciled(c.disk, t, f) == out
  }

  predicate FewOwners(t: Table) {
    forall x :: x in t ==> |t[x].peers| <= Download.MAX_PEERS
  }

  /** The client is ready, and what it must fetch can be had from the owners. */
  ghost predicate ReadyIn(net: Peers, c: Member, t: Table, src: Source) {
    && Ready(c, t) && FewOwners(t)
    && forall x :: NeedsFetch(c.disk, t, x) ==> Supplied(net, c.ip, None, x, t[x], Right(src, t, x))
  }

  lemma ReadyApplies(net: Peers, c: Member, t: Table, src: Source)
    requires TableOk(t) && ReadyIn(net, c, t, src)
    ensures Applies(net, c, t, Synced(c.disk, t, src))
  {
    hide Supplied, Answered, Ends, Follows, TableOk, AllAnswered;
    var f0 := SomeAnswers(net, c.ip, t);
    forall f: Answers | AllAnswered(net, c.ip, t, f)
      ensures Ends(c.disk, t, f) && Reconciled(c.disk, t, f) == Synced(c.disk, t, src)
    {
      HeldIsFetched(net, c.ip, c.disk, t, src, f);
      FetchedIsSynced(c, t, src, f);
    }
  }

  lemma OwnersFew(s: State)
    requires Inv(s)
    ensures FewOwners(s.table)
  {
    forall x | x in s.table
      ensures |s.table[x].peers| <= Download.MAX_PEERS
    {
      OwnersBound(s, x);
    }
  }

  lemma HeldIsReady(s: State, cs: seq<Member>, i: nat, src: Source)
    requires Inv(s) && Accurate(s) && Everyone(cs, s) && Reported(cs, s) && AllProper(cs, s.table, src)
    requires i < |cs| && Ready(cs[i], s.table) && TableSizes(s.table, src)
    ensures ReadyIn(NetOf(cs), cs[i], s.table, src)
  {
    hide Inv, Accurate, Everyone, Reported, AllProper, Held, Supplied, FewOwners;
    OwnersFew(s);
    forall x | NeedsFetch(cs[i].disk, s.table, x)
      ensures Supplied(NetOf(cs), cs[i].ip, None, x, s.table[x], Right(src, s.table, x))
    {
      OwnersHold(s, cs, i, x, src);
      HeldIsSupplied(NetOf(cs), cs[i].ip, None, x, s.table[x], src);
    }
  }

  // ---------- owners stay accurate in a round ----------

  /** The client's report after the table takes no time back. */
  ghost predicate Forward(s: State, c: Member, t: Table, src: Source) {
    c.ip in s.last && forall x :: x in s.last[c.ip] && x in SyncedReport(c, t, src) ==>
                        s.last[c.ip][x].timestamp <= SyncedReport(c, t, src)[x].timestamp
  }

  ghost predicate AllForward(s: State, cs: seq<Member>, t: Table, src: Source) {
    forall i :: 0 <= i < |cs| ==> cs[i].ip in s.connected && Forward(s, cs[i], t, src)
  }

  /** The latest reports of everybody else are as before. */
  ghost predicate LastKept(s: State, s': State, cs: seq<Member>) {
    forall p :: p in s.last && (forall i :: 0 <= i < |cs| ==> cs[i].ip != p) ==> p in s'.last && s'.last[p] == s.last[p]
  }

  /** The latest report of each member is the one after table t. */
  ghost predicate LastIs(s: State, cs: seq<Member>, t: Table, src: Source) {
    forall i :: 0 <= i < |cs| ==> cs[i].ip in s.last && s.last[cs[i].ip] == SyncedReport(cs[i], t, src)
  }

  lemma LastOfRound(t: Table, s1: State, s: State, cs: seq<Member>, s': State, src: Source)
    requires cs != [] && Distinct(cs) && s1.last == s.last[cs[0].ip := SyncedReport(cs[0], t, src)]
    requires var rest := cs[1..];
             LastKept(s1, s', rest) && LastIs(s', rest, t, src)
    ensures LastKept(s, s', cs) && LastIs(s', cs, t, src)
  {
    var rest := cs[1..];
    assert forall i :: 0 <= i < |rest| ==> rest[i] == cs[i + 1];
    forall i | 0 <= i < |cs|
      ensures cs[i].ip in s'.last && s'.last[cs[i].ip] == SyncedReport(cs[i], t, src)
    {
      if i > 0 {
        assert rest[i - 1] == cs[i];
      }
    }
  }

  /** After the reports of a round the owner lists are accurate, and the latest report of each
    * member is that of the round. */
  lemma {:induction false} RoundAccurate(t: Table, s: State, cs: seq<Member>, src: Source)
    requires Inv(s) && Accurate(s) && Distinct(cs) && AllForward(s, cs, t, src)
    ensures var s' := Run(s, Reports(t, cs, src));
            && Inv(s') && Accurate(s') && s'.connected == s.connected
            && LastKept(s, s', cs)
            && LastIs(s', cs, t, src)
    decreases |cs|
  {
    hide Inv, Accurate, SyncedReport, MergeMap, AsTable;
    if cs != [] {
      var c, rest := cs[0], cs[1..];
      var ev := FileUpdate(c.ip, SyncedReport(c, t, src));
      var s1 := Apply(s, ev);
      assert Reports(t, cs, src)[0] == ev && Reports(t, cs, src)[1..] == Reports(t, rest, src);
      assert Forward(s, c, t, src);
      StepKeeps(s, ev);
      AccurateKept(s, ev);
      forall i | 0 <= i < |rest|
        ensures rest[i].ip in s1.connected && Forward(s1, rest[i], t, src)
      {
        assert rest[i] == cs[i + 1];
        assert Forward(s, cs[i + 1], t, src);
      }
      assert Distinct(rest) by { assert forall i :: 0 <= i < |rest| ==> rest[i] == cs[i + 1]; }
      RoundAccurate(t, s1, rest, src);
      LastOfRound(t, s1, s, cs, Run(s1, Reports(t, rest, src)), src);
    }
  }

  /** The members with the directories they have after applying t. */
  function After(cs: seq<Member>, t: Table, src: Source): (r: seq<Member>)
    ensures |r| == |cs| && forall i :: 0 <= i < |cs| ==> r[i].ip == cs[i].ip
  {
    seq(|cs|, i requires 0 <= i < |cs| => cs[i].(disk := Synced(cs[i].disk, t, src)))
  }

  lemma SyncedGenuine(c: Member, t: Table, src: Source)
    requires Genuine(c.disk, src)
    ensures Genuine(Synced(c.disk, t, src), src)
  {
  }

  lemma AfterProper(cs: seq<Member>, t: Table, now: Table, src: Source)
    requires TableOk(t) && Grown(t, now)
    requires forall i :: 0 <= i < |cs| ==> Ready(cs[i], t) && Genuine(cs[i].disk, src)
    ensures AllProper(After(cs, t, src), now, src)
  {
    hide TableOk, Ready, Genuine, Synced, Grown;
    forall i | 0 <= i < |cs|
      ensures SameTypes(After(cs, t, src)[i].disk, now) && Genuine(After(cs, t, src)[i].disk, src)
    {
      SyncedTypes(cs[i], t, now, src);
      SyncedGenuine(cs[i], t, src);
    }
  }

  lemma OwnedReady(cs: seq<Member>, t: Table, now: Table, i: nat, src: Source)
    requires i < |cs| && SameTypes(After(cs, t, src)[i].disk, now) && Owned(now)
    ensures Ready(After(cs, t, src)[i], now)
  {
  }

  lemma GrownSame(t: Table)
    ensures Grown(t, t)
  {
  }

  lemma AfterReported(s1: State, cs: seq<Member>, t: Table, src: Source)
    requires Everyone(cs, s1)
    requires LastIs(s1, cs, t, src)
    ensures Everyone(After(cs, t, src), s1) && Reported(After(cs, t, src), s1)
  {
    forall p | p in s1.connected
      ensures exists i :: 0 <= i < |After(cs, t, src)| && After(cs, t, src)[i].ip == p
    {
      var i :| 0 <= i < |cs| && cs[i].ip == p;
      assert After(cs, t, src)[i].ip == p;
    }
  }

  lemma {:induction false} ReportsRight(t: Table, cs: seq<Member>, src: Source)
    requires forall i :: 0 <= i < |cs| ==> Genuine(cs[i].disk, src)
    ensures forall i :: 0 <= i < |Reports(t, cs, src)| && Reports(t, cs, src)[i].FileUpdate? ==>
                          SizesRight(Reports(t, cs, src)[i].r, src)
    decreases |cs|
  {
    hide Genuine, SizesRight, SyncedReport;
    if cs != [] {
      SyncedGenuine(cs[0], t, src);
      ReportIs(cs[0], t, src);
      ReportSizes(Synced(cs[0].disk, t, src), cs[0].times, src);
      ReportsRight(t, cs[1..], src);
    }
  }

  /** After the reports, every member can fetch from the others what it lacks of the new table. */
  lemma SecondTable(s: State, cs: seq<Member>, i: nat, src: Source)
    requires TableOk(s.table) && TableSizes(s.table, src) && Inv(s) && Accurate(s) && Everyone(cs, s) && i < |cs|
    requires forall j :: 0 <= j < |cs| ==>
               Ready(cs[j], s.table) && Genuine(cs[j].disk, src) && Forward(s, cs[j], s.table, src)
    ensures var now := Run(s, Reports(s.table, cs, src)).table;
            ReadyIn(NetOf(After(cs, s.table, src)), After(cs, s.table, src)[i], now, src)
  {
    hide TableOk, Inv, Accurate, Ready, Genuine, Forward, Grown, Owned, NewestStamp, SyncedReport, SameTypes;
    hide NetOf, Reports, SizesRight, TableSizes;
    var t := s.table;
    var s1 := Run(s, Reports(t, cs, src));
    GrownSame(t);
    RoundResult(t, s, cs, src);
    RoundAccurate(t, s, cs, src);
    ReportsRight(t, cs, src);
    RunSizes(s, Reports(t, cs, src), src);
    AfterProper(cs, t, s1.table, src);
    AfterReported(s1, cs, t, src);
    OwnedReady(cs, t, s1.table, i, src);
    HeldIsReady(s1, After(cs, t, src), i, src);
  }

  // ---------- the round ----------

  /** Where a round may start: the owner lists are accurate, the members are all that are
    * connected, each can apply the table with what the others have, and no report takes a time
    * back. */
  ghost predicate Settling(s: State, cs: seq<Member>, src: Source) {
    && TableOk(s.table) && TableSizes(s.table, src) && Inv(s) && Accurate(s) && Everyone(cs, s) && cs != []
    && forall i :: 0 <= i < |cs| ==>
         ReadyIn(NetOf(cs), cs[i], s.table, src) && Genuine(cs[i].disk, src) && Forward(s, cs[i], s.table, src)
  }

  /** What a round makes of member i. */
  ghost predicate MemberSettled(t: Table, now: Table, cs: seq<Member>, i: nat, src: Source)
    requires i < |cs|
  {
    var c, d := cs[i], After(cs, t, src)[i];
    && Applies(NetOf(cs), c, t, d.disk)
    && Applies(NetOf(After(cs, t, src)), d, now, Synced(d.disk, now, src))
    && Agree(Synced(d.disk, now, src), now) && Genuine(Synced(d.disk, now, src), src)
  }

  lemma AllAreReady(s: State, cs: seq<Member>, src: Source)
    requires Settling(s, cs, src)
    ensures AllReady(cs, s, s.table)
    ensures forall i :: 0 <= i < |cs| ==> Ready(cs[i], s.table)
  {
  }

  /** A quiet round converges: every client applies the tracker's table t, fetching from the
    * others, all report in some order, and all apply the table that results, fetching again.
    * Then all these calls end, and tracker and clients agree on the names, which are t's, and
    * on the time of every file, which is the newest there was in t or at any client. */
  lemma QuietRound(s: State, cs: seq<Member>, src: Source)
    requires Settling(s, cs, src)
    ensures CanRun(s, Reports(s.table, cs, src))
    ensures var t := s.table;
            var now := Run(s, Reports(t, cs, src)).table;
            && now.Keys == t.Keys
            && (forall x :: x in t && t[x].stat.kind == File ==> now[x].stat.timestamp == NewestStamp(t, cs, x))
            && (forall i :: 0 <= i < |cs| ==> MemberSettled(t, now, cs, i, src))
  {
    hide TableOk, Inv, Accurate, ReadyIn, Forward, Owned, NewestStamp, Applies, NetOf, Reports, Agree, Genuine;
    var t := s.table;
    AllAreReady(s, cs, src);
    GrownSame(t);
    RoundResult(t, s, cs, src);
    var now := Run(s, Reports(t, cs, src)).table;
    GrownOk(t, now);
    forall i | 0 <= i < |cs|
      ensures MemberSettled(t, now, cs, i, src)
    {
      ReadyApplies(NetOf(cs), cs[i], t, src);
      SecondTable(s, cs, i, src);
      ReadyApplies(NetOf(After(cs, t, src)), After(cs, t, src)[i], now, src);
      AgreeAfterRound(t, now, cs, i, src);
      SyncedGenuine(cs[i], t, src);
      SyncedGenuine(After(cs, t, src)[i], now, src);
    }
  }

  /** The members with the times their folders have later. */
  function Later(cs: seq<Member>, times: seq<map<Path, nat>>): (r: seq<Member>)
    requires |times| == |cs|
    ensures |r| == |cs| && forall i :: 0 <= i < |cs| ==> r[i] == cs[i].(times := times[i])
  {
    seq(|cs|, i requires 0 <= i < |cs| => cs[i].(times := times[i]))
  }

  lemma {:induction false} SameNet(cs: seq<Member>, times: seq<map<Path, nat>>)
    requires |times| == |cs|
    ensures NetOf(Later(cs, times)) == NetOf(cs)
    decreases |cs|
  {
    if cs != [] {
      SameNet(cs[1..], times[1..]);
      assert Later(cs, times)[1..] == Later(cs[1..], times[1..]);
    }
  }

  lemma LaterReady(net: Peers, c: Member, t: Table, times: map<Path, nat>, src: Source)
    requires ReadyIn(net, c, t, src)
    ensures ReadyIn(net, c.(times := times), t, src)
  {
  }

  lemma LaterForward(s: State, c: Member, times: map<Path, nat>, src: Source)
    requires TableOk(s.table) && Ready(c, s.table)
    requires c.ip in s.last && s.last[c.ip] == ReportOf(c.disk, c.times)
    requires forall x :: TimeOf(c.times, x) <= TimeOf(times, x)
    ensures Forward(s, c.(times := times), s.table, src)
  {
  }

  /** A round may start after every run in which no client took a time back, if everybody has
    * what it last reported, but perhaps newer folder times, and every file that is needed has an
    * owner. */
  lemma {:induction false} MaySettle(evs: seq<Event>, cs: seq<Member>, times: seq<map<Path, nat>>, src: Source)
    requires CanRun(START, evs) && AllMonotone(START, evs)
    requires var s := Run(START, evs);
             && TableOk(s.table) && Everyone(cs, s) && cs != [] && AllProper(cs, s.table, src) && Reported(cs, s)
             && forall i :: 0 <= i < |cs| ==> Ready(cs[i], s.table)
    requires forall k :: 0 <= k < |evs| && evs[k].FileUpdate? ==> SizesRight(evs[k].r, src)
    requires |times| == |cs| && forall i, x :: 0 <= i < |cs| ==> TimeOf(cs[i].times, x) <= TimeOf(times[i], x)
    ensures Settling(Run(START, evs), Later(cs, times), src)
  {
    hide Inv, Accurate, AllMonotone, ReadyIn, Genuine, Ready, TableOk, SameTypes, NetOf, ReportOf, SyncedReport, TimeOf;
    hide SizesRight;
    RunKeeps(START, evs);
    OwnersHaveNewest(evs);
    RunSizes(START, evs, src);
    var s := Run(START, evs);
    var ds := Later(cs, times);
    SameNet(cs, times);
    forall p | p in s.connected
      ensures exists i :: 0 <= i < |ds| && ds[i].ip == p
    {
      var i :| 0 <= i < |cs| && cs[i].ip == p;
      assert ds[i].ip == p;
    }
    forall i | 0 <= i < |cs|
      ensures ReadyIn(NetOf(ds), ds[i], s.table, src) && Genuine(ds[i].disk, src) && Forward(s, ds[i], s.table, src)
    {
      HeldIsReady(s, cs, i, src);
      LaterReady(NetOf(cs), cs[i], s.table, times[i], src);
      LaterForward(s, cs[i], times[i], src);
    }
  }

  // ---------- and then it is quiet ----------

  /** The same names with the same state; only owners may differ. */
  ghost predicate SameStats(m: Table, m': Table) {
    m'.Keys == m.Keys && forall x :: x in m ==> m'[x].stat == m[x].stat
  }

  /** The event is a connection, a disconnect, or a report of a directory that agrees with the
    * table. */
  ghost predicate Quiet(m: Table, ev: Event) {
    ev.FileUpdate? ==> exists disk, times :: Agree(disk, m) && ev.r == ReportOf(disk, times)
  }

  lemma AgreesAsWell(disk: Disk, m: Table, m': Table)
    requires Agree(disk, m) && SameStats(m, m')
    ensures Agree(disk, m')
  {
  }

  /** Where both sides agree there is nothing to do. */
  lemma AgreeIsDone(disk: Disk, m: Table)
    requires Agree(disk, m)
    ensures !Updates(disk, m)
  {
    forall x
      ensures !Wants(disk, m, x)
    {
    }
  }

  lemma QuietReport(m: Table, ip: IP, disk: Disk, times: map<Path, nat>, x: Path)
    requires TableOk(m) && Agree(disk, m) && x in m
    ensures var now := MergeMap(m, ip, AsTable(ReportOf(disk, times), ip)); x in now && now[x].stat == m[x].stat
  {
    hide TableOk;
    KindKnown(m, x);
    assert x in disk;
  }

  lemma SameReportKeys(m: Table, disk: Disk, times: map<Path, nat>)
    requires Agree(disk, m)
    ensures ReportOf(disk, times).Keys == m.Keys
  {
  }

  /** A report of what the tracker knows changes owners at most. */
  lemma QuietEvent(s: State, ev: Event)
    requires TableOk(s.table) && Quiet(s.table, ev)
    ensures SameStats(s.table, Apply(s, ev).table)
  {
    if ev.FileUpdate? {
      hide TableOk, ReportOf, MergeMap, AsTable;
      var disk, times :| Agree(disk, s.table) && ev.r == ReportOf(disk, times);
      forall x | x in s.table
        ensures x in Apply(s, ev).table && Apply(s, ev).table[x].stat == s.table[x].stat
      {
        QuietReport(s.table, ev.ip, disk, times, x);
      }
      SameReportKeys(s.table, disk, times);
      NoNewNames(s.table, ev.ip, ev.r);
    }
  }

  lemma {:induction false} QuietRun(s: State, evs: seq<Event>)
    requires TableOk(s.table) && forall i :: 0 <= i < |evs| ==> Quiet(s.table, evs[i])
    ensures SameStats(s.table, Run(s, evs).table)
    decreases |evs|
  {
    if evs != [] {
      var s' := Apply(s, evs[0]);
      QuietEvent(s, evs[0]);
      forall i | 0 <= i < |evs| - 1
        ensures Quiet(s'.table, evs[1..][i])
      {
        assert Quiet(s.table, evs[i + 1]);
        if evs[i + 1].FileUpdate? {
          var disk, times :| Agree(disk, s.table) && evs[i + 1].r == ReportOf(disk, times);
          AgreesAsWell(disk, s.table, s'.table);
        }
      }
      QuietRun(s', evs[1..]);
    }
  }

  /** The event is none, or reports one of these directories. */
  ghost predicate From(ds: seq<Disk>, ev: Event) {
    ev.FileUpdate? ==> exists d, times :: d in ds && ev.r == ReportOf(d, times)
  }

  lemma {:induction false} SettledStays(s: State, ds: seq<Disk>, evs: seq<Event>)
    requires TableOk(s.table) && forall d :: d in ds ==> Agree(d, s.table)
    requires forall k :: 0 <= k < |evs| ==> From(ds, evs[k])
    ensures var later := Run(s, evs).table;
            && SameStats(s.table, later)
            && forall d :: d in ds ==> Agree(d, later) && !Updates(d, later)
  {
    hide TableOk, Agree, Updates, ReportOf, SameStats, Run;
    forall k | 0 <= k < |evs|
      ensures Quiet(s.table, evs[k])
    {
      assert From(ds, evs[k]);
    }
    QuietRun(s, evs);
    forall d | d in ds
      ensures Agree(d, Run(s, evs).table) && !Updates(d, Run(s, evs).table)
    {
      AgreesAsWell(d, s.table, Run(s, evs).table);
      AgreeIsDone(d, Run(s, evs).table);
    }
  }

  /** The clients' directories when they have applied t, and then the table of the round's end. */
  function Settled(cs: seq<Member>, t: Table, now: Table, src: Source): seq<Disk> {
    seq(|cs|, i requires 0 <= i < |cs| => Synced(After(cs, t, src)[i].disk, now, src))
  }

  /** After a quiet round it stays quiet: whatever connections, disconnects and reports of the
    * settled directories follow, no name and no state changes at the tracker any more, and no
    * client finds anything to do in any table that is broadcast, so that its list and the time
    * of its last scan stay too. */
  lemma {:induction false} QuietForever(s: State, cs: seq<Member>, evs: seq<Event>, src: Source)
    requires Settling(s, cs, src)
    requires forall k :: 0 <= k < |evs| ==>
               From(Settled(cs, s.table, Run(s, Reports(s.table, cs, src)).table, src), evs[k])
    ensures var s1 := Run(s, Reports(s.table, cs, src));
            var later := Run(s1, evs).table;
            && SameStats(s1.table, later)
            && forall d :: d in Settled(cs, s.table, s1.table, src) ==> Agree(d, later) && !Updates(d, later)
  {
    hide Synced, Agree, AllReady, Reports, From, Updates, SameStats, Run, TableOk, Applies, Grown, Owned;
    QuietRound(s, cs, src);
    AllAreReady(s, cs, src);
    GrownSame(s.table);
    RoundResult(s.table, s, cs, src);
    var s1 := Run(s, Reports(s.table, cs, src));
    GrownOk(s.table, s1.table);
    forall i | 0 <= i < |cs|
      ensures Agree(Synced(After(cs, s.table, src)[i].disk, s1.table, src), s1.table)
    {
      assert MemberSettled(s.table, s1.table, cs, i, src);
    }
    SettledStays(s1, Settled(cs, s.table, s1.table, src), evs);
  }

  // ---------- files that cannot be had ----------

  /** A client can receive a table with a file that has no owner, and then loses its older copy
    * of it, in a run in which its own report is that of its directory. */
  lemma OwnerlessFileIsLost(a: IP, b: IP, name: string, byte: Files.byte, f: Answers)
    requires Detector.Shown(name)
    ensures var x := [name];
            var disk := map[x := Plain(3, [byte])];
            var m := Run(START, OwnerlessRun(a, b, x)).table;
            && CanRun(START, OwnerlessRun(a, b, x))
            && ReportOf(disk, map[]) == map[x := Stat(File, 1, 3)]
            && DiskOk(disk) && TableOk(m) && SameTypes(disk, m)
            && NeedsFetch(disk, m, x) && x !in Reconciled(disk, m, f)
  {
    hide Run, CanRun, OwnerlessRun;
    var x := [name];
    var disk: Disk := map[x := Plain(3, [byte])];
    OwnerlessHappens(a, b, x);
    assert Detector.Visible(x);
    assert ReportOf(disk, map[]) == map[x := Stat(File, 1, 3)];
  }

  lemma OneByte()
    ensures 0 < Partition.PieceLen(1, 0, 1)
  {
    Partition.OffsetEnds(1, 1);
  }

  /** A table with one small file that has one owner. */
  lemma OneOwner(net: Peers, me: IP, q: IP, disk: Disk, name: string, byte: Files.byte, f: Answers)
    requires var m: Table := map[[name] := Info(Stat(File, 1, 5), [q])];
             AllAnswered(net, me, m, f) && NeedsFetch(disk, m, [name])
    ensures q == me || (q in net && [name] !in net[q]) ==>
              !Ends(disk, map[[name] := Info(Stat(File, 1, 5), [q])], f)
    ensures q != me && q in net && [name] in net[q] && net[q][[name]].Plain? && net[q][[name]].bytes == [byte] ==>
              f([name]) == Saves([byte])
  {
    hide Answered, Partition.PieceLen;
    var x := [name];
    var e := Info(Stat(File, 1, 5), [q]);
    var m: Table := map[x := e];
    OneByte();
    if q == me || (q in net && x !in net[q]) {
      LackingHangs(net, me, disk, m, f, x, 0);
    }
    if q != me && q in net && x in net[q] && net[q][x].Plain? && net[q][x].bytes == [byte] {
      assert Answered(net, me, None, x, e, f(x));
      SuppliedComes(net, me, None, x, e, f(x), [byte]);
    }
  }

  /** A client that has reported a file and deletes it before the table that its report has
    * caused comes back, asks itself for the file and waits for ever. */
  lemma OwnFileHangs(a: IP, name: string, net: Peers, f: Answers)
    requires Detector.Shown(name)
    requires AllAnswered(net, a, Run(START, ReportedRun(a, [name])).table, f)
    ensures var m := Run(START, ReportedRun(a, [name])).table;
            && CanRun(START, ReportedRun(a, [name]))
            && TableOk(m) && DiskOk(map[]) && SameTypes(map[], m) && !Ends(map[], m, f)
  {
    hide Run, CanRun, ReportedRun;
    ReportedHappens(a, [name]);
    assert Detector.Visible([name]);
    OneOwner(net, a, a, map[], name, 0, f);
  }

  /** A client that has put back an older copy of a file and reported it asks itself for the
    * newer version, deletes the copy, and waits for ever; another client that has nothing gets
    * the older bytes from it, with the newer time. */
  lemma OldCopyHangsOrSpoils(a: IP, name: string, byte: Files.byte, net: Peers, me: IP, f: Answers)
    requires Detector.Shown(name)
    requires a in net && net[a] == map[[name] := Plain(3, [byte])]
    requires AllAnswered(net, me, Run(START, OldCopyRun(a, [name])).table, f)
    ensures var m := Run(START, OldCopyRun(a, [name])).table;
            && CanRun(START, OldCopyRun(a, [name])) && TableOk(m)
            && (me == a ==> SameTypes(net[a], m) && !Ends(net[a], m, f))
            && (me != a ==> Reconciled(map[], m, f) == map[[name] := Plain(5, [byte])])
  {
    hide Run, CanRun, OldCopyRun;
    OldCopyHappens(a, [name]);
    assert Detector.Visible([name]);
    OneOwner(net, me, a, if me == a then net[a] else map[], name, byte, f);
  }
}
