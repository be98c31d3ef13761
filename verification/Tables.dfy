/** The tracker's file table as values: lists of entries, what a report and a disconnect do to
  * them, and the same as maps from names (utils/file_monitor.c). */
module Tables {
  import opened Wrappers

  /** A name is its list of path components below the shared directory. */
  type Path = seq<string>

  type IP = nat

  datatype Kind = Folder | File | Other

  datatype Stat = Stat(kind: Kind, size: int, timestamp: nat)

  datatype Info = Info(stat: Stat, peers: seq<IP>)

  datatype Entry = Entry(name: Path, info: Info)

  type Table = map<Path, Info>

  /** What a client says about its files. */
  type Report = map<Path, Stat>

  /** A client's report as a table: it lists itself as the one owner. */
  function AsTable(r: Report, ip: IP): Table {
    map x | x in r :: Info(r[x], [ip])
  }

  // ---------- lists of entries ----------

  predicate Unique(es: seq<Entry>) {
    forall i, j :: 0 <= i < j < |es| ==> es[i].name != es[j].name
  }

  predicate NoDup(peers: seq<IP>) {
    forall i, j :: 0 <= i < j < |peers| ==> peers[i] != peers[j]
  }

  function Names(es: seq<Entry>): set<Path> {
    set e | e in es :: e.name
  }

  /** The position of the first entry with this name. */
  function IndexOf(es: seq<Entry>, x: Path): (r: Option<nat>)
    ensures r.Some? ==> r.value < |es| && es[r.value].name == x
    ensures r.Some? ==> forall j :: 0 <= j < r.value ==> es[j].name != x
    ensures r.None? ==> forall j :: 0 <= j < |es| ==> es[j].name != x
  {
    if es == [] then None
    else if es[0].name == x then Some(0)
    else match IndexOf(es[1..], x)
      case None => None
      case Some(k) => Some(k + 1)
  }

  function Lookup(es: seq<Entry>, x: Path): Option<Info> {
    match IndexOf(es, x)
    case None => None
    case Some(k) => Some(es[k].info)
  }

  /** The list as a map. */
  function Abs(es: seq<Entry>): Table {
    map x | x in Names(es) && Lookup(es, x).Some? :: Lookup(es, x).value
  }

  /** What a list says about the files, apart from their owners. */
  function StatsOf(es: seq<Entry>): Report {
    map x | x in Abs(es) :: Abs(es)[x].stat
  }

  function At(m: Table, x: Path): Option<Info> {
    if x in m then Some(m[x]) else None
  }

  lemma AbsAt(es: seq<Entry>, x: Path)
    ensures At(Abs(es), x) == Lookup(es, x)
  {
    if IndexOf(es, x).Some? {
      assert es[IndexOf(es, x).value] in es;
    }
  }

  // ---------- what a report does ----------

  predicate BothFolders(a: Stat, b: Stat) {
    a.kind == Folder && b.kind == Folder
  }

  /** An entry that is already there, when the client reports the name with this state. */
  function Updated(o: Info, ip: IP, c: Info): Info {
    if c.stat.timestamp < o.stat.timestamp && !BothFolders(c.stat, o.stat) then o
    else if c.stat.timestamp > o.stat.timestamp && !BothFolders(c.stat, o.stat) then Info(c.stat, [ip])
    else if ip in o.peers then o
    else o.(peers := o.peers + [ip])
  }

  /** First phase: an entry the client owned and no longer reports is deleted. */
  function Purge(es: seq<Entry>, ip: IP, names: set<Path>): seq<Entry> {
    if es == [] then []
    else
      var last := es[|es| - 1];
      Purge(es[..|es| - 1], ip, names) +
      (if last.name in names || ip !in last.info.peers then [last] else [])
  }

  /** Second phase, one reported entry: inserted at the front, or merged in place. */
  function MergeOne(es: seq<Entry>, ip: IP, c: Entry): seq<Entry> {
    match IndexOf(es, c.name)
    case None => [Entry(c.name, Info(c.info.stat, [ip]))] + es
    case Some(k) => es[k := Entry(c.name, Updated(es[k].info, ip, c.info))]
  }

  function MergeAll(es: seq<Entry>, ip: IP, cs: seq<Entry>): seq<Entry> {
    if cs == [] then es else MergeOne(MergeAll(es, ip, cs[..|cs| - 1]), ip, cs[|cs| - 1])
  }

  /** sync_from_client on lists. */
  function Synced(es: seq<Entry>, ip: IP, cs: seq<Entry>): seq<Entry> {
    MergeAll(Purge(es, ip, Names(cs)), ip, cs)
  }

  /** The same for one name, whatever the lists' order: no entry, an entry taken over, an entry
    * deleted, or an entry merged. */
  function MergePoint(o: Option<Info>, ip: IP, c: Option<Info>): Option<Info> {
    match (o, c)
    case (None, None) => None
    case (None, Some(ci)) => Some(Info(ci.stat, [ip]))
    case (Some(oi), None) => if ip in oi.peers then None else Some(oi)
    case (Some(oi), Some(ci)) => Some(Updated(oi, ip, ci))
  }

  /** A report merged into the table, as maps. */
  function MergeMap(m: Table, ip: IP, r: Table): Table {
    map x | x in m.Keys + r.Keys && MergePoint(At(m, x), ip, At(r, x)).Some? ::
      MergePoint(At(m, x), ip, At(r, x)).value
  }

  // ---------- lists and maps agree ----------

  lemma IndexUnique(es: seq<Entry>, k: nat)
    requires Unique(es) && k < |es|
    ensures IndexOf(es, es[k].name) == Some(k)
  {
  }

  lemma LookupAppend(es: seq<Entry>, e: Entry, x: Path)
    ensures Lookup(es + [e], x) ==
            if Lookup(es, x).Some? then Lookup(es, x) else if e.name == x then Some(e.info) else None
  {
    var all := es + [e];
    assert forall j :: 0 <= j < |es| ==> all[j] == es[j];
    assert all[|es|] == e;
  }

  /** The purge keeps the names unique and acts on each name by itself. */
  lemma {:induction false} PurgePoint(es: seq<Entry>, ip: IP, names: set<Path>, x: Path)
    requires Unique(es)
    ensures Lookup(Purge(es, ip, names), x) ==
            if Lookup(es, x).Some? && x !in names && ip in Lookup(es, x).value.peers then None else Lookup(es, x)
    decreases |es|
  {
    if es != [] {
      var init, last := es[..|es| - 1], es[|es| - 1];
      PurgePoint(init, ip, names, x);
      assert es == init + [last];
      LookupAppend(init, last, x);
      LookupAppend(Purge(init, ip, names), last, x);
      assert Purge(init, ip, names) + [] == Purge(init, ip, names);
    }
  }

  lemma {:induction false} PurgeUnique(es: seq<Entry>, ip: IP, names: set<Path>)
    requires Unique(es)
    ensures Unique(Purge(es, ip, names))
    ensures forall e :: e in Purge(es, ip, names) ==> e in es
    decreases |es|
  {
    if es != [] {
      var init, last := es[..|es| - 1], es[|es| - 1];
      PurgeUnique(init, ip, names);
      assert forall e :: e in init ==> e in es && e.name != last.name;
    }
  }

  lemma {:induction false} SameNames(es: seq<Entry>, fs: seq<Entry>, x: Path)
    requires |es| == |fs| && forall j :: 0 <= j < |es| ==> fs[j].name == es[j].name
    ensures IndexOf(es, x) == IndexOf(fs, x)
  {
  }

  lemma LookupFront(es: seq<Entry>, e: Entry, x: Path)
    requires Unique(es) && IndexOf(es, e.name).None?
    ensures Unique([e] + es)
    ensures Lookup([e] + es, x) == if x == e.name then Some(e.info) else Lookup(es, x)
  {
    assert ([e] + es)[1..] == es;
  }

  lemma LookupReplaced(es: seq<Entry>, k: nat, info: Info, x: Path)
    requires Unique(es) && k < |es|
    ensures Unique(es[k := Entry(es[k].name, info)])
    ensures Lookup(es[k := Entry(es[k].name, info)], x) == if x == es[k].name then Some(info) else Lookup(es, x)
  {
    var out := es[k := Entry(es[k].name, info)];
    assert forall j :: 0 <= j < |es| ==> out[j].name == es[j].name;
    SameNames(es, out, x);
    IndexUnique(es, k);
  }

  lemma MergeOnePoint(es: seq<Entry>, ip: IP, c: Entry, x: Path)
    requires Unique(es)
    ensures Unique(MergeOne(es, ip, c))
    ensures Lookup(MergeOne(es, ip, c), x) ==
            if x == c.name then MergePoint(Lookup(es, x), ip, Some(c.info)) else Lookup(es, x)
  {
    hide Unique, Updated, IndexOf;
    match IndexOf(es, c.name)
    case None => LookupFront(es, Entry(c.name, Info(c.info.stat, [ip])), x);
    case Some(k) => LookupReplaced(es, k, Updated(es[k].info, ip, c.info), x);
  }

  lemma {:induction false} MergeAllPoint(es: seq<Entry>, ip: IP, cs: seq<Entry>, x: Path)
    requires Unique(es) && Unique(cs)
    ensures Unique(MergeAll(es, ip, cs))
    ensures Lookup(MergeAll(es, ip, cs), x) ==
            if Lookup(cs, x).Some? then MergePoint(Lookup(es, x), ip, Lookup(cs, x)) else Lookup(es, x)
    decreases |cs|
  {
    hide MergeOne, MergePoint;
    if cs != [] {
      var init, last := cs[..|cs| - 1], cs[|cs| - 1];
      MergeAllPoint(es, ip, init, x);
      MergeOnePoint(MergeAll(es, ip, init), ip, last, x);
      assert cs == init + [last];
      LookupAppend(init, last, x);
    }
  }

  lemma NamesLookup(es: seq<Entry>, x: Path)
    ensures x in Names(es) <==> Lookup(es, x).Some?
  {
    if IndexOf(es, x).Some? {
      assert es[IndexOf(es, x).value] in es;
    }
  }

  /** The merge acts on each name by itself. */
  lemma SyncedPoint(es: seq<Entry>, ip: IP, cs: seq<Entry>, x: Path)
    requires Unique(es) && Unique(cs)
    ensures Unique(Synced(es, ip, cs))
    ensures Lookup(Synced(es, ip, cs), x) == MergePoint(Lookup(es, x), ip, Lookup(cs, x))
  {
    PurgeUnique(es, ip, Names(cs));
    PurgePoint(es, ip, Names(cs), x);
    MergeAllPoint(Purge(es, ip, Names(cs)), ip, cs, x);
    NamesLookup(cs, x);
  }

  lemma SameAt(m: Table, m': Table)
    requires forall x :: At(m, x) == At(m', x)
    ensures m == m'
  {
    forall x
      ensures x in m <==> x in m'
      ensures x in m ==> m[x] == m'[x]
    {
      assert At(m, x) == At(m', x);
    }
  }

  /** The two-phase list merge is the merge of maps, and keeps names unique. */
  lemma SyncRefinesMerge(es: seq<Entry>, ip: IP, cs: seq<Entry>)
    requires Unique(es) && Unique(cs)
    ensures Unique(Synced(es, ip, cs))
    ensures Abs(Synced(es, ip, cs)) == MergeMap(Abs(es), ip, Abs(cs))
  {
    SyncedPoint(es, ip, cs, []);
    forall x
      ensures At(Abs(Synced(es, ip, cs)), x) == At(MergeMap(Abs(es), ip, Abs(cs)), x)
    {
      SyncedPoint(es, ip, cs, x);
      AbsAt(es, x);
      AbsAt(cs, x);
      AbsAt(Synced(es, ip, cs), x);
    }
    SameAt(Abs(Synced(es, ip, cs)), MergeMap(Abs(es), ip, Abs(cs)));
  }

  lemma {:induction false} PermutedLookup(es: seq<Entry>, fs: seq<Entry>, x: Path)
    requires Unique(es) && Unique(fs) && multiset(es) == multiset(fs)
    ensures Lookup(es, x).Some? ==> Lookup(fs, x) == Lookup(es, x)
  {
    if IndexOf(es, x).Some? {
      var e := es[IndexOf(es, x).value];
      assert e in multiset(es);
      assert e in fs;
      var k :| 0 <= k < |fs| && fs[k] == e;
      IndexUnique(fs, k);
    }
  }

  lemma {:induction false} PermutedAbs(es: seq<Entry>, fs: seq<Entry>)
    requires Unique(es) && Unique(fs) && multiset(es) == multiset(fs)
    ensures Abs(es) == Abs(fs)
  {
    forall x
      ensures At(Abs(es), x) == At(Abs(fs), x)
    {
      AbsAt(es, x);
      AbsAt(fs, x);
      PermutedLookup(es, fs, x);
      PermutedLookup(fs, es, x);
    }
    SameAt(Abs(es), Abs(fs));
  }

  /** As a map, the result does not depend on the order in which the client lists its files,
    * nor on the order of the tracker's list. */
  lemma OrderIrrelevant(es: seq<Entry>, es': seq<Entry>, ip: IP, cs: seq<Entry>, cs': seq<Entry>)
    requires Unique(es) && Unique(es') && multiset(es) == multiset(es')
    requires Unique(cs) && Unique(cs') && multiset(cs) == multiset(cs')
    ensures Abs(Synced(es, ip, cs)) == Abs(Synced(es', ip, cs'))
  {
    SyncRefinesMerge(es, ip, cs);
    SyncRefinesMerge(es', ip, cs');
    PermutedAbs(es, es');
    PermutedAbs(cs, cs');
  }

  // ---------- owners ----------

  /** The report has a newer state of the name; folders have no newer state. */
  predicate Newer(c: Stat, o: Stat) {
    o.timestamp < c.timestamp && !(c.kind == Folder && o.kind == Folder)
  }

  /** The report has the same state. */
  predicate SameState(c: Stat, o: Stat) {
    c.timestamp == o.timestamp || (c.kind == Folder && o.kind == Folder)
  }

  /** Merging keeps an entry's owners free of duplicates. With a newer version the client is the
    * only owner; else all owners stay, in their order, and the client is one more if and only if
    * it has the same version. */
  lemma UpdatedOwners(o: Info, ip: IP, c: Info)
    requires NoDup(o.peers)
    ensures NoDup(Updated(o, ip, c).peers)
    ensures Updated(o, ip, c).stat == if Newer(c.stat, o.stat) then c.stat else o.stat
    ensures Newer(c.stat, o.stat) ==> Updated(o, ip, c).peers == [ip]
    ensures !Newer(c.stat, o.stat) ==> o.peers <= Updated(o, ip, c).peers
    ensures !Newer(c.stat, o.stat) ==>
              forall p :: p in Updated(o, ip, c).peers <==> p in o.peers || (p == ip && SameState(c.stat, o.stat))
  {
  }

  /** What a report makes of a list, said of one name: it is there afterwards if it is reported, or
    * was there and was not the client's; it has the newer state; and its owners are those it
    * had and the client, if that has the same version, or the client alone, if its version is
    * newer. */
  lemma SyncedExactly(es: seq<Entry>, ip: IP, cs: seq<Entry>, x: Path)
    requires Unique(es) && Unique(cs)
    ensures var o, c, n := Lookup(es, x), Lookup(cs, x), Lookup(Synced(es, ip, cs), x);
            && (n.Some? <==> c.Some? || (o.Some? && ip !in o.value.peers))
            && (n.Some? ==>
                  var newer := c.Some? && (o.None? || Newer(c.value.stat, o.value.stat));
                  && n.value.stat == (if newer then c.value.stat else o.value.stat)
                  && (newer ==> n.value.peers == [ip])
                  && (!newer ==> o.value.peers <= n.value.peers)
                  && (!newer ==>
                        forall p :: p in n.value.peers <==>
                          p in o.value.peers || (p == ip && c.Some? && SameState(c.value.stat, o.value.stat))))
  {
    SyncedPoint(es, ip, cs, x);
  }

  /** Owners are listed once and are connected peers. */
  predicate OwnersWithin(es: seq<Entry>, conn: set<IP>) {
    forall i :: 0 <= i < |es| ==> NoDup(es[i].info.peers) && forall p :: p in es[i].info.peers ==> p in conn
  }

  lemma PurgeWithin(es: seq<Entry>, ip: IP, names: set<Path>, conn: set<IP>)
    requires OwnersWithin(es, conn)
    ensures OwnersWithin(Purge(es, ip, names), conn)
    decreases |es|
  {
    if es != [] {
      PurgeWithin(es[..|es| - 1], ip, names, conn);
    }
  }

  lemma MergeWithin(es: seq<Entry>, ip: IP, c: Entry, conn: set<IP>)
    requires OwnersWithin(es, conn) && ip in conn
    ensures OwnersWithin(MergeOne(es, ip, c), conn)
  {
    match IndexOf(es, c.name)
    case None =>
    case Some(k) => UpdatedOwners(es[k].info, ip, c.info);
  }

  /** A duplicate-free list out of a set is no longer than the set is large. */
  lemma {:induction false} PigeonHole(peers: seq<IP>, conn: set<IP>)
    requires NoDup(peers) && forall p :: p in peers ==> p in conn
    ensures |peers| <= |conn|
    decreases |peers|
  {
    if peers != [] {
      var init, last := peers[..|peers| - 1], peers[|peers| - 1];
      assert last in peers;
      forall p | p in init
        ensures p in conn - {last}
      {
        assert p in peers;
      }
      PigeonHole(init, conn - {last});
    }
  }

  /** Every entry the client does not own has room for one more owner. */
  lemma RoomFor(es: seq<Entry>, ip: IP, conn: set<IP>)
    requires OwnersWithin(es, conn) && ip in conn
    ensures forall e :: e in es && ip !in e.info.peers ==> |e.info.peers| < |conn|
  {
    forall e | e in es && ip !in e.info.peers
      ensures |e.info.peers| < |conn|
    {
      PigeonHole(e.info.peers, conn - {ip});
    }
  }

  /** The position of a peer among the owners. */
  function PeerIndex(peers: seq<IP>, ip: IP): (r: Option<nat>)
    ensures r.None? <==> ip !in peers
    ensures r.Some? ==> r.value < |peers| && peers[r.value] == ip &&
                        forall j :: 0 <= j < r.value ==> peers[j] != ip
  {
    if peers == [] then None
    else if peers[0] == ip then Some(0)
    else match PeerIndex(peers[1..], ip)
      case None => None
      case Some(k) => Some(k + 1)
  }

  /** Removal of a disconnected peer: the last owner moves to its place. */
  function SwapRemove(peers: seq<IP>, ip: IP): seq<IP> {
    match PeerIndex(peers, ip)
    case None => peers
    case Some(k) => peers[k := peers[|peers| - 1]][..|peers| - 1]
  }

  /** Swap-remove takes a peer out completely if and only if it was listed at most once; of a
    * duplicate-free list it leaves the others, each once. */
  lemma SwapRemoveExact(peers: seq<IP>, ip: IP)
    ensures ip !in SwapRemove(peers, ip) <==>
            forall i, j :: 0 <= i < j < |peers| ==> !(peers[i] == ip && peers[j] == ip)
    ensures NoDup(peers) ==> NoDup(SwapRemove(peers, ip))
    ensures NoDup(peers) ==> forall p :: p in SwapRemove(peers, ip) <==> p in peers && p != ip
  {
    match PeerIndex(peers, ip)
    case None =>
    case Some(k) =>
      var n := |peers| - 1;
      var out := SwapRemove(peers, ip);
      assert forall j :: 0 <= j < n ==> out[j] == if j == k then peers[n] else peers[j];
      forall p | p in peers && p != ip
        ensures p in out
      {
        var j :| 0 <= j < |peers| && peers[j] == p;
        assert out[if j == n then k else j] == p;
      }
      if j :| k < j <= n && peers[j] == ip {
        assert out[if j == n then k else j] == ip;
      }
  }

  /** The last owner takes the place of the first entry of the peer; the others keep theirs. */
  lemma SwapRemoveMoves(peers: seq<IP>, ip: IP, k: nat)
    requires k < |peers| && peers[k] == ip && forall j :: 0 <= j < k ==> peers[j] != ip
    ensures var out := SwapRemove(peers, ip);
            |out| == |peers| - 1 &&
            forall j :: 0 <= j < |out| ==> out[j] == peers[if j == k then |peers| - 1 else j]
  {
    assert PeerIndex(peers, ip).Some?;
  }

  /** delete_disconn_peer on lists. */
  function Dropped(es: seq<Entry>, ip: IP): (r: seq<Entry>)
    ensures |r| == |es|
  {
    seq(|es|, i requires 0 <= i < |es| =>
      es[i].(info := es[i].info.(peers := SwapRemove(es[i].info.peers, ip))))
  }

  /** The same on maps. */
  function DropMap(m: Table, ip: IP): Table {
    map x | x in m :: m[x].(peers := SwapRemove(m[x].peers, ip))
  }

  lemma DropRefines(es: seq<Entry>, ip: IP)
    requires Unique(es)
    ensures Unique(Dropped(es, ip)) && Abs(Dropped(es, ip)) == DropMap(Abs(es), ip)
  {
    forall x
      ensures At(Abs(Dropped(es, ip)), x) == At(DropMap(Abs(es), ip), x)
    {
      AbsAt(es, x);
      AbsAt(Dropped(es, ip), x);
      SameNames(es, Dropped(es, ip), x);
    }
    SameAt(Abs(Dropped(es, ip)), DropMap(Abs(es), ip));
  }
}
