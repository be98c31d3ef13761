/** The tracker's table of connected peers: a linked list behind a head node, with the time of
  * each peer's last heartbeat (utils/tracker_peer_table.c). */
module PeerTables {
  const HEARTBEAT_INTERVAL_SEC: int := 10

  datatype Peer = Peer(ip: nat, stamp: int, sockfd: int)

  class PeerNode {
    var ip: nat
    var lastTimeStamp: int
    var sockfd: int
    var next: PeerNode?

    constructor (ip: nat, stamp: int, sockfd: int)
      ensures View() == Peer(ip, stamp, sockfd) && next == null
    {
      this.ip, lastTimeStamp, this.sockfd, next := ip, stamp, sockfd, null;
    }

    ghost function View(): Peer
      reads this
    {
      Peer(ip, lastTimeStamp, sockfd)
    }
  }

  /** The peers that are still alive at a time: the last heartbeat is not more than one second
    * later than it should be. */
  predicate Alive(p: Peer, now: int) {
    now - p.stamp <= HEARTBEAT_INTERVAL_SEC + 1
  }

  function Filtered(ps: seq<Peer>, now: int): seq<Peer> {
    if ps == [] then []
    else Filtered(ps[..|ps| - 1], now) + (if Alive(ps[|ps| - 1], now) then [ps[|ps| - 1]] else [])
  }

  /** The first entry of a peer gets a new time. */
  function Stamped(ps: seq<Peer>, ip: nat, now: int): seq<Peer> {
    if ps == [] then []
    else if ps[0].ip == ip then [ps[0].(stamp := now)] + ps[1..]
    else [ps[0]] + Stamped(ps[1..], ip, now)
  }

  /** The first entry of a peer is gone. */
  function Unlisted(ps: seq<Peer>, ip: nat): seq<Peer> {
    if ps == [] then [] else if ps[0].ip == ip then ps[1..] else [ps[0]] + Unlisted(ps[1..], ip)
  }

  predicate Absent(ps: seq<Peer>, ip: nat) {
    forall j :: 0 <= j < |ps| ==> ps[j].ip != ip
  }

  lemma {:induction false} FirstOf(ps: seq<Peer>, ip: nat, k: nat, now: int)
    requires k <= |ps| && Absent(ps[..k], ip) && (k < |ps| ==> ps[k].ip == ip)
    ensures Stamped(ps, ip, now) == if k < |ps| then ps[k := ps[k].(stamp := now)] else ps
    ensures Unlisted(ps, ip) == if k < |ps| then ps[..k] + ps[k + 1..] else ps
  {
    if k > 0 {
      assert ps[..k][0] == ps[0];
      assert ps[1..][..k - 1] == ps[..k][1..];
      FirstOf(ps[1..], ip, k - 1, now);
    }
  }

  lemma FilterNone(now: int)
    ensures Filtered([], now) == []
  {
  }

  lemma FilterSnoc(ps: seq<Peer>, m: nat, now: int)
    requires m < |ps|
    ensures var done := Filtered(ps[..m], now);
            var all := done + ps[m..];
            && all[|done|] == ps[m]
            && (if Alive(ps[m], now)
                then Filtered(ps[..m + 1], now) == done + [ps[m]] && all == done + [ps[m]] + ps[m + 1..]
                else Filtered(ps[..m + 1], now) == done && all[..|done|] + all[|done| + 1..] == done + ps[m + 1..])
  {
    assert ps[..m + 1][..m] == ps[..m];
    assert ps[m..] == [ps[m]] + ps[m + 1..];
    var done := Filtered(ps[..m], now);
    assert done + [] == done;
  }

  class PeerTable {
    const head: PeerNode
    ghost var nodes: seq<PeerNode>
    ghost var peers: seq<Peer>

    ghost predicate Valid()
      reads this, nodes
    {
      && nodes != [] && nodes[0] == head
      && (forall i :: 0 <= i < |nodes| - 1 ==> nodes[i].next == nodes[i + 1])
      && nodes[|nodes| - 1].next == null
      && (forall i, j :: 0 <= i < j < |nodes| ==> nodes[i] != nodes[j])
      && |peers| == |nodes| - 1
      && (forall i :: 0 <= i < |peers| ==> nodes[i + 1].View() == peers[i])
    }

    constructor ()
      ensures Valid() && peers == [] && fresh(nodes)
    {
      var n := new PeerNode(0, 0, 0);
      head, nodes, peers := n, [n], [];
    }

    lemma NotEmpty()
      requires Valid()
      ensures nodes != [] && nodes[0] == head && |peers| == |nodes| - 1
    {
    }

    lemma EndOfList(k: nat)
      requires Valid() && k < |nodes|
      ensures k < |nodes| - 1 ==> nodes[k].next == nodes[k + 1] && nodes[k + 1].View() == peers[k]
      ensures nodes[k].next == null <==> k == |nodes| - 1
    {
    }

    /** peer_table_add: a new peer goes to the front. */
    method Add(ip: nat, socket: int, now: int)
      requires Valid()
      modifies this`nodes, this`peers, head`next
      ensures Valid() && peers == [Peer(ip, now, socket)] + old(peers)
      ensures forall n :: n in nodes ==> n in old(nodes) || fresh(n)
    {
      var entry := new PeerNode(ip, now, socket);
      entry.next := head.next;
      head.next := entry;
      nodes := [nodes[0], entry] + nodes[1..];
      peers := [Peer(ip, now, socket)] + peers;
    }

    /** The loop of peer_table_update_timestamp: the first node of the peer. */
    method FindNode(ip: nat) returns (runner: PeerNode?, ghost k: nat)
      requires Valid()
      ensures k <= |peers| && Absent(peers[..k], ip)
      ensures if runner == null then k == |peers| else k < |peers| && runner == nodes[k + 1] && peers[k].ip == ip
    {
      EndOfList(0);
      runner := head.next;
      k := 0;
      while runner != null && runner.ip != ip
        invariant k < |nodes| && nodes[k].next == runner && Absent(peers[..k], ip)
        decreases |nodes| - k
      {
        EndOfList(k);
        EndOfList(k + 1);
        runner := runner.next;
        k := k + 1;
      }
      EndOfList(k);
    }

    /** peer_table_update_timestamp: the first entry of the peer gets the present time; a peer
      * that is not in the table is not added. */
    method UpdateTimestamp(ip: nat, now: int)
      requires Valid()
      modifies this`peers, nodes
      ensures Valid() && nodes == old(nodes)
      ensures peers == Stamped(old(peers), ip, now)
    {
      hide Stamped, Unlisted, Absent;
      var runner, k := FindNode(ip);
      FirstOf(peers, ip, k, now);
      if runner != null {
        runner.lastTimeStamp := now;
        peers := peers[k := peers[k].(stamp := now)];
      }
    }

    /** Takes out the node behind `runner`. */
    method UnlinkAfter(runner: PeerNode, ghost k: nat)
      requires Valid() && k + 1 < |nodes| && nodes[k] == runner
      modifies this`nodes, this`peers, runner`next
      ensures Valid()
      ensures nodes == old(nodes)[..k + 1] + old(nodes)[k + 2..]
      ensures peers == old(peers)[..k] + old(peers)[k + 1..]
    {
      EndOfList(k);
      runner.next := runner.next.next;
      nodes := nodes[..k + 1] + nodes[k + 2..];
      peers := peers[..k] + peers[k + 1..];
    }

    /** peer_table_delete: the first entry of the peer is taken out. */
    method Delete(ip: nat)
      requires Valid()
      modifies this`nodes, this`peers, nodes
      ensures Valid() && forall n :: n in nodes ==> n in old(nodes)
      ensures peers == Unlisted(old(peers), ip)
    {
      var runner := head;
      ghost var k: nat := 0;
      EndOfList(0);
      while runner.next != null && runner.next.ip != ip
        invariant Valid() && nodes == old(nodes) && peers == old(peers)
        invariant k < |nodes| && nodes[k] == runner && Absent(peers[..k], ip)
        decreases |nodes| - k
      {
        EndOfList(k);
        runner := runner.next;
        k := k + 1;
      }
      EndOfList(k);
      FirstOf(peers, ip, k, 0);
      if runner.next != null {
        UnlinkAfter(runner, k);
      }
    }

    /** peer_live_check: exactly the peers that are not alive are taken out, the others keep
      * their order. */
    method LiveCheck(now: int)
      requires Valid()
      modifies this`nodes, this`peers, nodes
      ensures Valid() && forall n :: n in nodes ==> n in old(nodes)
      ensures peers == Filtered(old(peers), now)
    {
      hide Filtered, Valid, Alive;
      FilterNone(now);
      NotEmpty();
      var runner := head;
      ghost var k: nat, m: nat := 0, 0;
      ghost var ps := peers;
      assert ps[..0] == [] && ps[0..] == ps;
      while runner.next != null
        invariant Valid() && forall n :: n in nodes ==> n in old(nodes)
        invariant k < |nodes| && nodes[k] == runner && m <= |ps| && |nodes| - k == |ps| + 1 - m
        invariant k == |Filtered(ps[..m], now)| && peers == Filtered(ps[..m], now) + ps[m..]
        decreases |nodes| - k
      {
        EndOfList(k);
        FilterSnoc(ps, m, now);
        assert runner in nodes;
        runner, k := CheckNext(runner, k, now);
        m := m + 1;
      }
      EndOfList(k);
      assert ps[..m] == ps && ps[m..] == [];
    }

    /** One round of the loop: the node behind `runner` is unlinked if it is late. */
    method CheckNext(runner: PeerNode, ghost k: nat, now: int) returns (runner': PeerNode, ghost k': nat)
      requires Valid() && k + 1 < |nodes| && nodes[k] == runner
      modifies this`nodes, this`peers, runner`next
      ensures Valid() && k' < |nodes| && nodes[k'] == runner' && forall n :: n in nodes ==> n in old(nodes)
      ensures if Alive(old(peers)[k], now)
              then k' == k + 1 && nodes == old(nodes) && peers == old(peers)
              else k' == k && |nodes| == |old(nodes)| - 1 && peers == old(peers)[..k] + old(peers)[k + 1..]
    {
      EndOfList(k);
      if now - runner.next.lastTimeStamp > HEARTBEAT_INTERVAL_SEC + 1 {
        UnlinkAfter(runner, k);
        return runner, k;
      }
      return runner.next, k + 1;
    }
  }

  // ---------- runs ----------

  /** What happens to the table, with the time at which it happens. */
  datatype Event = Joined(ip: nat, sockfd: int) | Heartbeat(ip: nat) | Left(ip: nat) | Check

  datatype Timed = Timed(now: int, ev: Event)

  function Apply(ps: seq<Peer>, t: Timed): seq<Peer> {
    match t.ev
    case Joined(ip, fd) => [Peer(ip, t.now, fd)] + ps
    case Heartbeat(ip) => Stamped(ps, ip, t.now)
    case Left(ip) => Unlisted(ps, ip)
    case Check => Filtered(ps, t.now)
  }

  function Run(ps: seq<Peer>, ts: seq<Timed>): seq<Peer>
    decreases |ts|
  {
    if ts == [] then ps else Run(Apply(ps, ts[0]), ts[1..])
  }

  predicate Unique(ps: seq<Peer>) {
    forall i, j :: 0 <= i < j < |ps| ==> ps[i].ip != ps[j].ip
  }

  /** No peer joins that is already listed: there is one connection for each address. */
  predicate Single(ps: seq<Peer>, ts: seq<Timed>)
    decreases |ts|
  {
    ts == [] || ((ts[0].ev.Joined? ==> Absent(ps, ts[0].ev.ip)) && Single(Apply(ps, ts[0]), ts[1..]))
  }

  predicate Listed(ps: seq<Peer>, ip: nat, beat: int) {
    exists k :: 0 <= k < |ps| && ps[k].ip == ip && ps[k].stamp == beat
  }

  lemma {:induction false} StampedSame(ps: seq<Peer>, ip: nat, now: int)
    ensures var out := Stamped(ps, ip, now);
            |out| == |ps| && (forall j :: 0 <= j < |ps| ==> out[j].ip == ps[j].ip)
    ensures Unique(ps) ==> forall j :: 0 <= j < |ps| ==>
              Stamped(ps, ip, now)[j] == if ps[j].ip == ip then ps[j].(stamp := now) else ps[j]
  {
    if ps != [] {
      StampedSame(ps[1..], ip, now);
    }
  }

  lemma {:induction false} UnlistedSome(ps: seq<Peer>, ip: nat)
    requires Unique(ps)
    ensures Unique(Unlisted(ps, ip))
    ensures forall p :: p in Unlisted(ps, ip) <==> p in ps && p.ip != ip
  {
    if ps != [] {
      UnlistedSome(ps[1..], ip);
      assert forall p :: p in ps <==> p == ps[0] || p in ps[1..];
      assert forall p :: p in ps[1..] ==> p.ip != ps[0].ip;
    }
  }

  lemma {:induction false} FilteredSome(ps: seq<Peer>, now: int)
    ensures Unique(ps) ==> Unique(Filtered(ps, now))
    ensures forall p :: p in Filtered(ps, now) <==> p in ps && Alive(p, now)
    decreases |ps|
  {
    if ps != [] {
      var init, last := ps[..|ps| - 1], ps[|ps| - 1];
      FilteredSome(init, now);
      assert forall p :: p in ps <==> p in init || p == last;
      assert Unique(ps) ==> forall p :: p in init ==> p.ip != last.ip;
    }
  }

  /** Joining, stamping and leaving of others, and a check in time, leave a peer listed; its own
    * heartbeat moves its time. */
  lemma ListedAfter(ps: seq<Peer>, t: Timed, ip: nat, beat: int)
    requires Unique(ps) && (t.ev.Joined? ==> Absent(ps, t.ev.ip))
    requires t.ev.Left? ==> t.ev.ip != ip
    requires Listed(ps, ip, beat)
    ensures Unique(Apply(ps, t))
    ensures if t.ev == Heartbeat(ip) then Listed(Apply(ps, t), ip, t.now)
            else if t.ev.Check? && t.now - beat > HEARTBEAT_INTERVAL_SEC + 1 then Absent(Apply(ps, t), ip)
            else Listed(Apply(ps, t), ip, beat)
  {
    var k :| 0 <= k < |ps| && ps[k].ip == ip && ps[k].stamp == beat;
    var out := Apply(ps, t);
    match t.ev
    case Joined(q, fd) => assert out[k + 1] == ps[k];
    case Heartbeat(q) =>
      StampedSame(ps, q, t.now);
      assert out[k].ip == ip;
    case Left(q) =>
      UnlistedSome(ps, q);
      assert ps[k] in out;
    case Check =>
      FilteredSome(ps, t.now);
      if Alive(ps[k], t.now) {
        assert ps[k] in out;
      } else {
        forall j | 0 <= j < |out|
          ensures out[j].ip != ip
        {
          assert out[j] in out && out[j] in ps && out[j] != ps[k];
        }
      }
  }

  lemma NothingNew(ps: seq<Peer>, out: seq<Peer>, ip: nat)
    requires Absent(ps, ip) && forall p :: p in out ==> p in ps
    ensures Absent(out, ip)
  {
    forall j | 0 <= j < |out|
      ensures out[j].ip != ip
    {
      assert out[j] in out;
    }
  }

  lemma AbsentAfter(ps: seq<Peer>, t: Timed, ip: nat)
    requires Unique(ps) && Absent(ps, ip) && (t.ev.Joined? ==> t.ev.ip != ip && Absent(ps, t.ev.ip))
    ensures Unique(Apply(ps, t)) && Absent(Apply(ps, t), ip)
  {
    var out := Apply(ps, t);
    match t.ev
    case Joined(_, _) =>
    case Heartbeat(q) => StampedSame(ps, q, t.now);
    case Left(q) =>
      UnlistedSome(ps, q);
      NothingNew(ps, out, ip);
    case Check =>
      FilteredSome(ps, t.now);
      NothingNew(ps, out, ip);
  }

  /** The peer neither joins again nor leaves. */
  predicate Stays(ts: seq<Timed>, ip: nat) {
    forall j :: 0 <= j < |ts| ==> (ts[j].ev.Joined? || ts[j].ev.Left? ==> ts[j].ev.ip != ip)
  }

  /** At no check is the peer's last heartbeat more than 11 seconds old. */
  predicate InTime(ts: seq<Timed>, ip: nat, beat: int) {
    ts == [] ||
    ((ts[0].ev.Check? ==> ts[0].now - beat <= 11) &&
     InTime(ts[1..], ip, if ts[0].ev == Heartbeat(ip) then ts[0].now else beat))
  }

  /** A peer that is not listed is not brought back by heartbeats, nor by anything else. */
  lemma {:induction false} NeverReadded(ps: seq<Peer>, ts: seq<Timed>, ip: nat)
    requires Unique(ps) && Single(ps, ts) && Stays(ts, ip) && Absent(ps, ip)
    ensures Absent(Run(ps, ts), ip)
    decreases |ts|
  {
    if ts != [] {
      AbsentAfter(ps, ts[0], ip);
      NeverReadded(Apply(ps, ts[0]), ts[1..], ip);
    }
  }

  /** In every run a peer that stays connected is still listed at the end if and only if no
    * check ever found its last heartbeat more than 11 seconds old. */
  lemma {:induction false} EvictedExactly(ps: seq<Peer>, ts: seq<Timed>, ip: nat, beat: int)
    requires Unique(ps) && Single(ps, ts) && Stays(ts, ip) && Listed(ps, ip, beat)
    ensures !Absent(Run(ps, ts), ip) <==> InTime(ts, ip, beat)
    decreases |ts|
  {
    if ts != [] {
      var t, ps' := ts[0], Apply(ps, ts[0]);
      ListedAfter(ps, t, ip, beat);
      if t.ev == Heartbeat(ip) {
        EvictedExactly(ps', ts[1..], ip, t.now);
      } else if t.ev.Check? && t.now - beat > 11 {
        NeverReadded(ps', ts[1..], ip);
      } else {
        EvictedExactly(ps', ts[1..], ip, beat);
      }
    }
  }

  lemma StampedEntry(ps: seq<Peer>, ip: nat, now: int, p: Peer)
    requires Unique(ps)
    ensures p in Stamped(ps, ip, now) <==>
            (p in ps && p.ip != ip) || (p.ip == ip && p.stamp == now && exists s :: p.(stamp := s) in ps)
  {
    var out := Stamped(ps, ip, now);
    StampedSame(ps, ip, now);
    if p in out {
      var j :| 0 <= j < |out| && out[j] == p;
      if p.ip == ip {
        assert p.(stamp := ps[j].stamp) == ps[j];
      }
    }
    if p in ps && p.ip != ip {
      var j :| 0 <= j < |ps| && ps[j] == p;
      assert out[j] == p;
    }
    if p.ip == ip && p.stamp == now && exists s :: p.(stamp := s) in ps {
      var s :| p.(stamp := s) in ps;
      var j :| 0 <= j < |ps| && ps[j] == p.(stamp := s);
      assert out[j] == p;
    }
  }

  /** What becomes of every entry: a heartbeat changes nothing but the peer's own time, a leaving peer
    * takes its own entry with it, a check those whose last heartbeat is more than 11 seconds
    * old; and nothing comes in but a peer that joins, with the present time. */
  lemma EntryAfter(ps: seq<Peer>, t: Timed, p: Peer)
    requires Unique(ps) && (t.ev.Joined? ==> Absent(ps, t.ev.ip))
    ensures p in Apply(ps, t) <==>
            match t.ev
            case Joined(ip, fd) => p in ps || p == Peer(ip, t.now, fd)
            case Heartbeat(ip) =>
              (p in ps && p.ip != ip) || (p.ip == ip && p.stamp == t.now && exists s :: p.(stamp := s) in ps)
            case Left(ip) => p in ps && p.ip != ip
            case Check => p in ps && t.now - p.stamp <= 11
  {
    match t.ev
    case Joined(_, _) =>
    case Heartbeat(ip) => StampedEntry(ps, ip, t.now, p);
    case Left(ip) => UnlistedSome(ps, ip);
    case Check => FilteredSome(ps, t.now);
  }
}
