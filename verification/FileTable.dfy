/** The file table as the programs hold it: a linked list behind a head node, each node with an
  * array of 200 owners of which the first numPeers count (utils/file_monitor.c). */
module FileTables {
  import opened Wrappers
  import opened Tables

  const MAX_PEERS: nat := 200

  class FileNode {
    var size: int
    var name: Path
    var kind: Kind
    var timestamp: nat
    var numPeers: nat
    const peers: array<IP>
    var next: FileNode?

    /** malloc and bzero. */
    constructor ()
      ensures fresh(peers) && peers.Length == MAX_PEERS
      ensures numPeers == 0 && next == null
    {
      size, name, kind, timestamp, numPeers, next := 0, [], Other, 0, 0, null;
      peers := new IP[MAX_PEERS](_ => 0);
    }

    ghost predicate Fits()
      reads this
    {
      peers.Length == MAX_PEERS && numPeers <= MAX_PEERS
    }

    ghost function View(): Entry
      requires Fits()
      reads this, peers
    {
      Entry(name, Info(Stat(kind, size, timestamp), peers[..numPeers]))
    }

    /** What a node says when it is sent. */
    method Copy() returns (e: Entry)
      requires Fits()
      ensures e == View()
    {
      e := Entry(name, Info(Stat(kind, size, timestamp), peers[..numPeers]));
    }

    /** The loops that look a peer up among the owners. */
    method FindPeer(ip: IP) returns (i: nat, found: bool)
      requires Fits()
      ensures if found then PeerIndex(peers[..numPeers], ip) == Some(i) else ip !in peers[..numPeers]
    {
      i := 0;
      while i < numPeers
        invariant i <= numPeers
        invariant ip !in peers[..i]
      {
        if peers[i] == ip {
          assert peers[..numPeers][i] == ip;
          assert forall j :: 0 <= j < i ==> peers[..numPeers][j] == peers[..i][j];
          return i, true;
        }
        assert peers[..i + 1] == peers[..i] + [peers[i]];
        i := i + 1;
      }
      found := false;
    }

    /** The three branches for a name both sides have. The write behind the last owner stays
      * inside the array because of the second precondition. */
    method MergeReport(ip: IP, c: Info)
      requires Fits() && |c.peers| == 1
      requires ip !in peers[..numPeers] ==> numPeers < MAX_PEERS
      modifies this, peers
      ensures Fits() && next == old(next)
      ensures View() == Entry(old(View()).name, Updated(old(View()).info, ip, c))
      ensures Newer(c.stat, old(View()).info.stat) ==> peers[..numPeers] == [ip]
      ensures !Newer(c.stat, old(View()).info.stat) ==>
                old(peers[..numPeers]) <= peers[..numPeers] &&
                (SameState(c.stat, old(View()).info.stat) ==> ip in peers[..numPeers])
    {
      if c.stat.timestamp < timestamp && (c.stat.kind != Folder || kind != Folder) {
      } else if c.stat.timestamp > timestamp && (c.stat.kind != Folder || kind != Folder) {
        size := c.stat.size;
        kind := c.stat.kind;
        timestamp := c.stat.timestamp;
        numPeers := |c.peers|;
        peers[0] := ip;
        assert peers[..numPeers] == [ip];
      } else {
        var i, peerExist := FindPeer(ip);
        if !peerExist {
          peers[numPeers] := ip;
          numPeers := numPeers + 1;
          assert peers[..numPeers] == old(peers[..numPeers]) + [ip];
        }
      }
    }

    /** One node's part of delete_disconn_peer. */
    method DropPeer(ip: IP)
      requires Fits()
      modifies this, peers
      ensures Fits() && next == old(next)
      ensures View() == old(View()).(info := old(View()).info.(peers := SwapRemove(old(peers[..numPeers]), ip)))
    {
      var i, peerExist := FindPeer(ip);
      if peerExist {
        numPeers := numPeers - 1;
        peers[i] := peers[numPeers];
        assert peers[..numPeers] == SwapRemove(old(peers[..numPeers]), ip);
      }
    }
  }

  /** The entries the first loop leaves. */
  predicate Kept(e: Entry, ip: IP, names: set<Path>) {
    e.name in names || ip !in e.info.peers
  }

  /** The loops that look a name up in the report. */
  method InReport(client: seq<Entry>, x: Path) returns (isExist: bool)
    ensures isExist == (x in Names(client))
  {
    var i := 0;
    while i < |client|
      invariant 0 <= i <= |client|
      invariant forall j :: 0 <= j < i ==> client[j].name != x
    {
      if client[i].name == x {
        assert client[i] in client;
        return true;
      }
      i := i + 1;
    }
    isExist := false;
  }

  lemma PurgeNone(ip: IP, names: set<Path>)
    ensures Purge([], ip, names) == []
  {
  }

  lemma PurgeSnoc(es: seq<Entry>, m: nat, ip: IP, names: set<Path>)
    requires m < |es|
    ensures var done := Purge(es[..m], ip, names);
            var all := done + es[m..];
            && all[|done|] == es[m]
            && (if Kept(es[m], ip, names)
                then Purge(es[..m + 1], ip, names) == done + [es[m]] && all == done + [es[m]] + es[m + 1..]
                else Purge(es[..m + 1], ip, names) == done && all[..|done|] + all[|done| + 1..] == done + es[m + 1..])
  {
    assert es[..m + 1][..m] == es[..m];
    assert es[m..] == [es[m]] + es[m + 1..];
    var done := Purge(es[..m], ip, names);
    assert done + [] == done;
  }

  /** A list of nodes behind a head node. `nodes` is the list with its head, `entries` what the
    * nodes behind the head hold. */
  class FileTable {
    const head: FileNode
    ghost var nodes: seq<FileNode>
    ghost var entries: seq<Entry>

    ghost function Arrays(): set<array<IP>>
      reads this
    {
      set n: FileNode | n in nodes :: n.peers
    }

    ghost predicate Linked()
      reads this, nodes
    {
      && nodes != [] && nodes[0] == head
      && (forall i :: 0 <= i < |nodes| - 1 ==> nodes[i].next == nodes[i + 1])
      && nodes[|nodes| - 1].next == null
    }

    ghost predicate Separate()
      reads this
    {
      forall i, j :: 0 <= i < j < |nodes| ==> nodes[i] != nodes[j] && nodes[i].peers != nodes[j].peers
    }

    ghost predicate Valid()
      reads this, nodes, Arrays()
    {
      && Linked() && Separate()
      && (forall i :: 0 <= i < |nodes| ==> nodes[i].Fits())
      && |entries| == |nodes| - 1
      && (forall i :: 0 <= i < |entries| ==> nodes[i + 1].View() == entries[i])
    }

    lemma NotEmpty()
      requires Valid()
      ensures nodes != [] && nodes[0] == head && |entries| == |nodes| - 1
    {
    }

    /** Only the last node has no successor. */
    lemma EndOfList(k: nat)
      requires Valid() && k < |nodes|
      ensures |entries| == |nodes| - 1 && nodes[0] == head
      ensures k < |nodes| - 1 ==> nodes[k].next == nodes[k + 1]
      ensures nodes[k].next == null <==> k == |nodes| - 1
    {
    }

    lemma AllSent(sent: seq<Entry>)
      requires Valid() && |sent| == |nodes|
      requires forall j :: 0 <= j < |nodes| ==> nodes[j].Fits() && sent[j] == nodes[j].View()
      ensures head.Fits() && |sent| == |entries| + 1 && sent == [head.View()] + entries
    {
      assert nodes[0].Fits();
    }

    lemma NodeAt(k: nat)
      requires Valid() && k + 1 < |nodes|
      ensures |entries| == |nodes| - 1 && nodes[k].next == nodes[k + 1]
      ensures nodes[k + 1].Fits() && nodes[k + 1].View() == entries[k]
    {
    }

    /** file_table_initial. */
    constructor ()
      ensures Valid() && entries == [] && fresh(nodes) && fresh(Arrays())
    {
      var n := new FileNode();
      head := n;
      nodes := [n];
      entries := [];
    }

    /** The loops that look a name up: the node before the first one with the name. */
    method FindBefore(x: Path) returns (runner: FileNode?, ghost k: nat)
      requires Valid()
      ensures if runner == null then IndexOf(entries, x) == None
              else IndexOf(entries, x) == Some(k) && nodes[k] == runner && runner.next == nodes[k + 1]
    {
      var r := head;
      k := 0;
      while r.next != null
        invariant k < |nodes| && nodes[k] == r
        invariant forall j :: 0 <= j < k ==> entries[j].name != x
        decreases |nodes| - k
      {
        assert r.next == nodes[k + 1];
        assert nodes[k + 1].View() == entries[k];
        if r.next.name == x {
          runner := r;
          return;
        }
        r := r.next;
        k := k + 1;
      }
      EndOfList(k);
      runner := null;
    }

    /** Takes out the node behind `runner`. */
    method UnlinkAfter(runner: FileNode, ghost k: nat)
      requires Valid() && k + 1 < |nodes| && nodes[k] == runner
      modifies this`nodes, this`entries, runner`next
      ensures Valid()
      ensures nodes == old(nodes)[..k + 1] + old(nodes)[k + 2..]
      ensures entries == old(entries)[..k] + old(entries)[k + 1..]
    {
      EndOfList(k);
      var temp := runner.next;
      runner.next := temp.next;
      nodes := nodes[..k + 1] + nodes[k + 2..];
      entries := entries[..k] + entries[k + 1..];
    }

    /** Puts a node right behind the head. */
    method InsertFront(temp: FileNode)
      requires Valid() && temp.Fits()
      requires temp !in nodes && temp.peers !in Arrays()
      modifies this`nodes, this`entries, head`next, temp`next
      ensures Valid()
      ensures nodes == [old(nodes)[0], temp] + old(nodes)[1..]
      ensures entries == [temp.View()] + old(entries)
    {
      temp.next := head.next;
      head.next := temp;
      entries := [temp.View()] + entries;
      nodes := [nodes[0], temp] + nodes[1..];
    }

    /** The first loop of send_file_table: how many nodes there are, with the head. */
    method CountNodes() returns (numNodes: nat)
      requires Valid()
      ensures numNodes == |entries| + 1
    {
      numNodes := 1;
      var runner := head;
      while runner.next != null
        invariant 0 < numNodes <= |nodes| && nodes[numNodes - 1] == runner
        decreases |nodes| - numNodes
      {
        EndOfList(numNodes - 1);
        runner := runner.next;
        numNodes := numNodes + 1;
      }
      EndOfList(numNodes - 1);
    }

    /** send_file_table: the number of nodes, and the nodes in list order, the head first. */
    method SendFileTable() returns (numNodes: nat, sent: seq<Entry>)
      requires Valid()
      ensures head.Fits() && numNodes == |sent| && sent == [head.View()] + entries
    {
      hide Linked, Separate;
      numNodes := CountNodes();
      sent := [];
      var runner: FileNode? := head;
      ghost var k: nat := 0;
      EndOfList(0);
      while runner != null
        invariant k <= |nodes| && runner == (if k < |nodes| then nodes[k] else null)
        invariant |sent| == k && forall j :: 0 <= j < k ==> nodes[j].Fits() && sent[j] == nodes[j].View()
        decreases |nodes| - k
      {
        EndOfList(k);
        var node := runner.Copy();
        sent := sent + [node];
        runner := runner.next;
        k := k + 1;
      }
      AllSent(sent);
    }

    /** The second loop for a name found behind `runner`. */
    method MergeAt(runner: FileNode, ghost k: nat, ip: IP, c: Info)
      requires Valid() && k + 1 < |nodes| && nodes[k] == runner && |c.peers| == 1
      requires ip !in entries[k].info.peers ==> |entries[k].info.peers| < MAX_PEERS
      modifies this`entries, nodes[k + 1], nodes[k + 1].peers
      ensures Valid() && nodes == old(nodes)
      ensures entries == old(entries)[k := Entry(old(entries)[k].name, Updated(old(entries)[k].info, ip, c))]
    {
      NodeAt(k);
      var node := runner.next;
      node.MergeReport(ip, c);
      entries := entries[k := node.View()];
    }

    /** A new node for a name the tracker does not have. */
    method AddReported(ip: IP, c: Entry)
      requires Valid() && |c.info.peers| == 1
      modifies this`nodes, this`entries, head`next
      ensures Valid()
      ensures entries == [Entry(c.name, Info(c.info.stat, [ip]))] + old(entries)
      ensures |nodes| == |old(nodes)| + 1 && fresh(nodes[1]) && fresh(nodes[1].peers)
      ensures nodes == [old(nodes)[0], nodes[1]] + old(nodes)[1..]
    {
      var temp := new FileNode();
      temp.size := c.info.stat.size;
      temp.kind := c.info.stat.kind;
      temp.name := c.name;
      temp.timestamp := c.info.stat.timestamp;
      temp.numPeers := |c.info.peers|;
      temp.peers[0] := ip;
      assert temp.peers[..temp.numPeers] == [ip];
      InsertFront(temp);
    }

    /** One round of the loop of delete_disconn_peer. */
    method DropAt(runner: FileNode, ghost k: nat, ip: IP)
      requires Valid() && k + 1 < |nodes| && nodes[k] == runner
      modifies this`entries, nodes[k + 1], nodes[k + 1].peers
      ensures Valid() && nodes == old(nodes)
      ensures var e := old(entries)[k];
              entries == old(entries)[k := e.(info := e.info.(peers := SwapRemove(e.info.peers, ip)))]
    {
      NodeAt(k);
      var node := runner.next;
      node.DropPeer(ip);
      entries := entries[k := node.View()];
    }

    /** delete_disconn_peer. */
    method DeleteDisconnPeer(ip: IP)
      requires Valid()
      modifies this`entries, nodes, Arrays()
      ensures Valid() && nodes == old(nodes)
      ensures entries == Dropped(old(entries), ip)
    {
      var runner := head;
      ghost var k := 0;
      ghost var es := entries;
      while runner.next != null
        invariant Valid() && nodes == old(nodes)
        invariant k < |nodes| && nodes[k] == runner && |es| == |entries|
        invariant forall j :: 0 <= j < |es| ==> entries[j] == (if j < k then Dropped(es, ip)[j] else es[j])
        decreases |nodes| - k
      {
        EndOfList(k);
        DropAt(runner, k, ip);
        EndOfList(k);
        runner := runner.next;
        k := k + 1;
      }
      EndOfList(k);
    }

    /** The node behind `runner` is unlinked if the client does not have it and owned it, and
      * passed otherwise. */
    method PassOrUnlink(runner: FileNode, ghost k: nat, isExist: bool, ip: IP)
      returns (runner': FileNode, ghost k': nat)
      requires Valid() && k + 1 < |nodes| && nodes[k] == runner
      modifies this`nodes, this`entries, runner`next
      ensures Valid() && k' < |nodes| && nodes[k'] == runner'
      ensures if isExist || ip !in old(entries)[k].info.peers
              then k' == k + 1 && nodes == old(nodes) && entries == old(entries)
              else k' == k && nodes == old(nodes)[..k + 1] + old(nodes)[k + 2..] &&
                   entries == old(entries)[..k] + old(entries)[k + 1..]
    {
      NodeAt(k);
      var node := runner.next;
      var peerExist := false;
      if !isExist {
        var i;
        i, peerExist := node.FindPeer(ip);
      }
      if peerExist {
        UnlinkAfter(runner, k);
        return runner, k;
      } else {
        return node, k + 1;
      }
    }

    /** One round of the first loop of sync_from_client. */
    method PurgeNext(runner: FileNode, ghost k: nat, ip: IP, client: seq<Entry>)
      returns (runner': FileNode, ghost k': nat)
      requires Valid() && k + 1 < |nodes| && nodes[k] == runner
      modifies this`nodes, this`entries, runner`next
      ensures Valid() && k' < |nodes| && nodes[k'] == runner'
      ensures forall n :: n in nodes ==> n in old(nodes)
      ensures if Kept(old(entries)[k], ip, Names(client))
              then k' == k + 1 && nodes == old(nodes) && entries == old(entries)
              else k' == k && nodes == old(nodes)[..k + 1] + old(nodes)[k + 2..] &&
                   entries == old(entries)[..k] + old(entries)[k + 1..]
    {
      NodeAt(k);
      var isExist := InReport(client, runner.next.name);
      runner', k' := PassOrUnlink(runner, k, isExist, ip);
    }

    /** First loop of sync_from_client: what the client owned and no longer reports goes. */
    method PurgeFor(ip: IP, client: seq<Entry>)
      requires Valid()
      modifies this`nodes, this`entries, nodes
      ensures Valid()
      ensures entries == Purge(old(entries), ip, Names(client))
      ensures forall n :: n in nodes ==> n in old(nodes)
    {
      hide Valid, Kept, Purge, Names;
      NotEmpty();
      PurgeNone(ip, Names(client));
      var runner := head;
      ghost var k: nat, m: nat := 0, 0;
      ghost var es, names := entries, Names(client);
      assert es[..0] == [] && es[0..] == es;
      while runner.next != null
        invariant Valid()
        invariant forall n :: n in nodes ==> n in old(nodes)
        invariant k < |nodes| && nodes[k] == runner && m <= |es| && |nodes| - k == |es| + 1 - m
        invariant k == |Purge(es[..m], ip, names)|
        invariant entries == Purge(es[..m], ip, names) + es[m..]
        decreases |nodes| - k
      {
        EndOfList(k);
        PurgeSnoc(es, m, ip, names);
        assert runner in nodes;
        runner, k := PurgeNext(runner, k, ip, client);
        m := m + 1;
      }
      EndOfList(k);
      assert es[..m] == es && es[m..] == [];
    }

    /** One round of the second loop of sync_from_client: one reported entry is inserted or
      * merged. */
    method MergeNext(ip: IP, c: Entry)
      requires Valid() && |c.info.peers| == 1
      requires forall e :: e in entries && e.name == c.name && ip !in e.info.peers ==> |e.info.peers| < MAX_PEERS
      modifies this`nodes, this`entries, nodes, Arrays()
      ensures Valid()
      ensures entries == MergeOne(old(entries), ip, c)
      ensures forall n :: n in nodes ==> n in old(nodes) || (fresh(n) && fresh(n.peers))
    {
      var runner, k := FindBefore(c.name);
      if runner == null {
        AddReported(ip, c);
      } else {
        assert entries[k] in entries;
        MergeAt(runner, k, ip, c.info);
      }
    }

    /** sync_from_client: a report is merged into the tracker's list. If all owners are among
      * at most 200 connected peers, and the client is one of them, no array overflows. */
    method SyncFromClient(ip: IP, client: seq<Entry>, ghost conn: set<IP>)
      requires Valid()
      requires forall c :: c in client ==> |c.info.peers| == 1
      requires OwnersWithin(entries, conn) && ip in conn && |conn| <= MAX_PEERS
      modifies this`nodes, this`entries, nodes, Arrays()
      ensures Valid()
      ensures entries == Synced(old(entries), ip, client)
      ensures OwnersWithin(entries, conn)
      ensures forall n :: n in nodes ==> n in old(nodes) || (fresh(n) && fresh(n.peers))
    {
      hide Valid, OwnersWithin, MergeOne, Purge, Names;
      assert forall n :: n in nodes ==> n.peers in Arrays();
      PurgeWithin(entries, ip, Names(client), conn);
      PurgeFor(ip, client);
      ghost var es := entries;
      var j := 0;
      assert client[..0] == [];
      while j < |client|
        invariant 0 <= j <= |client|
        invariant Valid()
        invariant entries == MergeAll(es, ip, client[..j]) && OwnersWithin(entries, conn)
        invariant forall n :: n in nodes ==> n in old(nodes) || (fresh(n) && fresh(n.peers))
      {
        assert forall i :: 0 <= i < |nodes| ==> nodes[i] in old(nodes) || fresh(nodes[i]);
        RoomFor(entries, ip, conn);
        MergeWithin(entries, ip, client[j], conn);
        assert client[..j + 1][..j] == client[..j] && client[..j + 1][j] == client[j];
        MergeNext(ip, client[j]);
        j := j + 1;
      }
      assert client[..j] == client;
    }
  }
}
