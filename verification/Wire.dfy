/** The messages a client sends to the tracker, and how the tracker reads them again from the
  * byte stream (send_file_table and recv_file_table in utils/file_monitor.c, the receive loop
  * in src/server.c). A node travels as its raw bytes without the pointer. */
module Wire {
  import opened Wrappers
  import opened CTypes
  import opened Files
  import opened Net

  /** size 4, name 256, type 4, timestamp 4, num_peers 4, and 200 peers of 4 bytes each. */
  const NODE_SIZE: nat := 1072
  const FIRST_PEER: nat := 272    // where peers[0] stands

  const SIGNAL_HEARTBEAT: nat := 1
  const SIGNAL_FILE_UPDATE: nat := 2

  type Body = seq<byte>

  datatype Message = Heartbeat | FileUpdate(nodes: seq<Body>)

  /** A table has its head node and as many nodes as an int can count. */
  predicate GoodMessage(m: Message) {
    m.FileUpdate? ==> 0 < |m.nodes| < INT_LIMIT && forall i :: 0 <= i < |m.nodes| ==> |m.nodes[i]| == NODE_SIZE
  }

  function Flat(nodes: seq<Body>): seq<byte> {
    if nodes == [] then [] else nodes[0] + Flat(nodes[1..])
  }

  function Encode(m: Message): seq<byte> {
    match m
    case Heartbeat => ToBytes(SIGNAL_HEARTBEAT, 4)
    case FileUpdate(nodes) => ToBytes(SIGNAL_FILE_UPDATE, 4) + (ToBytes(|nodes|, 4) + Flat(nodes))
  }

  function EncodeAll(ms: seq<Message>): seq<byte> {
    if ms == [] then [] else Encode(ms[0]) + EncodeAll(ms[1..])
  }

  /** The receiver writes the sender's address into the head's peers[0]. */
  function Stamp(nodes: seq<Body>, ip: nat): (r: seq<Body>)
    ensures |r| == |nodes|
    ensures forall i :: 1 <= i < |nodes| ==> r[i] == nodes[i]
    ensures nodes != [] && |nodes[0]| == NODE_SIZE ==>
              |r[0]| == NODE_SIZE &&
              forall k :: 0 <= k < NODE_SIZE && !(FIRST_PEER <= k < FIRST_PEER + 4) ==> r[0][k] == nodes[0][k]
  {
    if nodes == [] || |nodes[0]| < FIRST_PEER + 4 then nodes
    else [nodes[0][..FIRST_PEER] + ToBytes(ip, 4) + nodes[0][FIRST_PEER + 4..]] + nodes[1..]
  }

  /** A table as it arrives: the nodes that were sent, but for the sender's address in the head's
    * peers[0]. */
  predicate ArrivedAs(sent: seq<Body>, got: seq<Body>, ip: nat) {
    && |got| == |sent|
    && (forall i :: 1 <= i < |sent| ==> got[i] == sent[i])
    && (sent != [] ==>
          && |got[0]| == |sent[0]| == 1072
          && (forall k :: 0 <= k < 1072 && !(272 <= k < 276) ==> got[0][k] == sent[0][k])
          && FromBytes(got[0][272..276]) == ip)
  }

  /** Four bytes carry any int. */
  lemma FourBytes(x: nat)
    requires x < UINT_LIMIT
    ensures FromBytes(ToBytes(x, 4)) == x
  {
    assert Power256(4) == UINT_LIMIT;
    BytesRoundTrip(x, 4);
  }

  lemma StampArrives(nodes: seq<Body>, ip: nat)
    requires ip < UINT_LIMIT && (nodes != [] ==> |nodes[0]| == NODE_SIZE)
    ensures ArrivedAs(nodes, Stamp(nodes, ip), ip)
  {
    hide ToBytes, FromBytes;
    FourBytes(ip);
    if nodes != [] {
      assert Stamp(nodes, ip)[0][272..276] == ToBytes(ip, 4);
    }
  }

  // ---------- reading ----------

  /** What the handler makes of a message. */
  datatype Event = GotHeartbeat | GotTable(nodes: seq<Body>) | GotUnknown(state: nat)

  /** How the handler ends: the connection is over, it follows a null table, or it waits for
    * ever for the rest of a table, since at the end of the stream recv returns 0, not less. */
  datatype End = Closed | NullTable | Spins

  datatype Handled = Handled(events: seq<Event>, end: End)

  /** The client's address; what happens to be in the memory of num_nodes, which nobody sets
    * before recv does; and whether the stream ends with an error instead of in order. */
  datatype Env = Env(ip: nat, junk: Word, broken: bool)

  /** n node bodies from the front of a stream. */
  function TakeNodes(s: seq<byte>, n: nat): (r: Option<(seq<Body>, seq<byte>)>)
    ensures r.Some? ==> |r.value.0| == n && |r.value.1| <= |s|
  {
    if n == 0 then Some(([], s))
    else if |s| < NODE_SIZE then None
    else match TakeNodes(s[NODE_SIZE..], n - 1)
      case None => None
      case Some((nodes, rest)) => Some(([s[..NODE_SIZE]] + nodes, rest))
  }

  lemma {:induction false} TakenSize(s: seq<byte>, n: nat)
    ensures TakeNodes(s, n).Some? ==> forall i :: 0 <= i < n ==> |TakeNodes(s, n).value.0[i]| == NODE_SIZE
    decreases n
  {
    if n > 0 && NODE_SIZE <= |s| {
      TakenSize(s[NODE_SIZE..], n - 1);
    }
  }

  /** One round of the handler: it stops, or it has seen a message, and the variable `state`
    * and the stream go on. */
  datatype Round = Stop(end: End) | Next(event: Event, state: Word, rest: seq<byte>)

  /** The int in a word. */
  function IntOf(w: Word): int {
    SignedInt(FromBytes(w))
  }

  /** What follows the signal of a file update: the table and the rest of the stream, or the
    * reason to stop. */
  datatype TableRead = NoTable(end: End) | GotNodes(nodes: seq<Body>, rest: seq<byte>)

  function ReadTable(s: seq<byte>, env: Env): (r: TableRead)
    ensures r.GotNodes? ==> |r.rest| <= |s|
  {
    if s == [] then NoTable(NullTable)
    else
      var n := IntOf(Arrived(env.junk, s));
      if n <= 0 then NoTable(NullTable)
      else match TakeNodes(After(s, 4), n)
        case None => NoTable(if env.broken then NullTable else Spins)
        case Some((nodes, rest)) => GotNodes(Stamp(nodes, env.ip), rest)
  }

  function ReadMessage(s: seq<byte>, before: Word, env: Env): (r: Round)
    ensures r.Next? ==> |r.rest| < |s|
  {
    if s == [] then Stop(Closed)
    else
      var state := Arrived(before, s);
      var signal := FromBytes(state);
      if signal == SIGNAL_HEARTBEAT then Next(GotHeartbeat, state, After(s, 4))
      else if signal == SIGNAL_FILE_UPDATE then
        match ReadTable(After(s, 4), env)
        case NoTable(end) => Stop(end)
        case GotNodes(nodes, rest) => Next(GotTable(nodes), state, rest)
      else Next(GotUnknown(signal), state, After(s, 4))
  }

  function More(e: Event, h: Handled): Handled {
    Handled([e] + h.events, h.end)
  }

  /** The receive loop of the handler over a stream that ends after these bytes, with `state`
    * in the variable of that name. */
  function Handle(s: seq<byte>, state: Word, env: Env): Handled
    decreases |s|
  {
    match ReadMessage(s, state, env)
    case Stop(end) => Handled([], end)
    case Next(event, state', rest) => More(event, Handle(rest, state', env))
  }

  /** recv_file_table once the number of nodes is read; None if it never returns. */
  method RecvNodes(sock: Socket, n: nat, ip: nat) returns (table: Option<seq<Body>>)
    modifies sock
    ensures match TakeNodes(old(sock.pending), n)
            case None => table == None
            case Some((nodes, rest)) =>
              && table == Some(Stamp(nodes, ip)) && sock.pending == rest
              && (ip < UINT_LIMIT ==> ArrivedAs(nodes, table.value, ip))
    ensures |sock.pending| <= |old(sock.pending)|
  {
    hide ArrivedAs, Stamp;
    var nodes: seq<Body> := [];
    var left := n;
    ghost var s := sock.pending;
    ghost var all := TakeNodes(s, n);
    assert all.Some? ==> [] + all.value.0 == all.value.0;
    while left > 0
      invariant 0 <= left <= n
      invariant |sock.pending| <= |s|
      invariant match TakeNodes(sock.pending, left)
                case None => all == None
                case Some((more, rest)) => all == Some((nodes + more, rest))
    {
      ghost var before := sock.pending;
      ghost var had := nodes;
      var body := sock.RecvAll(NODE_SIZE);
      if body.None? { return None; }
      nodes := nodes + [body.value];
      left := left - 1;
      assert TakeNodes(before, left + 1).Some? ==>
          had + TakeNodes(before, left + 1).value.0 == nodes + TakeNodes(sock.pending, left).value.0;
    }
    assert nodes + [] == nodes;
    table := Some(Stamp(nodes, ip));
    TakenSize(s, n);
    if ip < UINT_LIMIT {
      StampArrives(nodes, ip);
    }
  }

  /** SIGNAL_FILE_UPDATE: recv_file_table, whose result is then merged. */
  method RecvFileTable(sock: Socket, env: Env) returns (end: Option<End>, table: seq<Body>)
    modifies sock
    ensures match ReadTable(old(sock.pending), env)
            case NoTable(e) => end == Some(e)
            case GotNodes(nodes, rest) => end == None && table == nodes && sock.pending == rest
  {
    table := [];
    var got, word := sock.RecvInt(env.junk);
    if got == 0 { return Some(NullTable), []; }
    var n := IntOf(word);
    if n <= 0 { return Some(NullTable), []; }
    var nodes := RecvNodes(sock, n, env.ip);
    if nodes.None? { return Some(if env.broken then NullTable else Spins), []; }
    end, table := None, nodes.value;
  }

  /** One round of the receive loop: the event of the next message, or the reason to stop. */
  method NextMessage(sock: Socket, before: Word, env: Env) returns (event: Option<Event>, state: Word, end: End)
    modifies sock
    ensures match ReadMessage(old(sock.pending), before, env)
            case Stop(e) => event == None && end == e
            case Next(ev, st, rest) => event == Some(ev) && state == st && sock.pending == rest
  {
    end := Closed;
    var got;
    got, state := sock.RecvInt(before);
    if got == 0 { return None, state, Closed; }
    var signal := FromBytes(state);
    if signal == SIGNAL_HEARTBEAT {
      event := Some(GotHeartbeat);
    } else if signal == SIGNAL_FILE_UPDATE {
      var stop, table := RecvFileTable(sock, env);
      if stop.Some? { return None, state, stop.value; }
      event := Some(GotTable(table));
    } else {
      event := Some(GotUnknown(signal));
    }
  }

  /** The receive loop of handshake_handler; `state` is not set before the first recv. */
  method HandleStream(sock: Socket, before: Word, env: Env) returns (h: Handled)
    modifies sock
    ensures h == Handle(old(sock.pending), before, env)
  {
    hide ReadMessage;
    var events: seq<Event> := [];
    var state := before;
    ghost var all := Handle(sock.pending, state, env);
    assert [] + all.events == all.events;
    while true
      invariant var rest := Handle(sock.pending, state, env); all == Handled(events + rest.events, rest.end)
      decreases |sock.pending|
    {
      ghost var had := events;
      var event, next, end := NextMessage(sock, state, env);
      if event.None? {
        assert events + [] == events;
        return Handled(events, end);
      }
      events := events + [event.value];
      state := next;
      ghost var rest := Handle(sock.pending, state, env);
      assert had + ([event.value] + rest.events) == events + rest.events;
    }
  }

  // ---------- the round trip ----------

  function Understood(m: Message, ip: nat): Event {
    match m
    case Heartbeat => GotHeartbeat
    case FileUpdate(nodes) => GotTable(Stamp(nodes, ip))
  }

  function UnderstoodAll(ms: seq<Message>, ip: nat): seq<Event> {
    if ms == [] then [] else [Understood(ms[0], ip)] + UnderstoodAll(ms[1..], ip)
  }

  lemma {:induction false} TakeFlat(nodes: seq<Body>, rest: seq<byte>)
    requires forall i :: 0 <= i < |nodes| ==> |nodes[i]| == NODE_SIZE
    ensures TakeNodes(Flat(nodes) + rest, |nodes|) == Some((nodes, rest))
  {
    if nodes == [] {
      assert [] + rest == rest;
    } else {
      var s := Flat(nodes) + rest;
      assert s == nodes[0] + (Flat(nodes[1..]) + rest);
      assert s[..NODE_SIZE] == nodes[0] && s[NODE_SIZE..] == Flat(nodes[1..]) + rest;
      TakeFlat(nodes[1..], rest);
      assert [nodes[0]] + nodes[1..] == nodes;
    }
  }

  /** What `state` holds after a message. */
  function Signal(m: Message): Word {
    ToBytes(if m.Heartbeat? then SIGNAL_HEARTBEAT else SIGNAL_FILE_UPDATE, 4)
  }

  /** A count followed by as many nodes. */
  lemma ReadWholeTable(count: Word, body: seq<byte>, nodes: seq<Body>, rest: seq<byte>, env: Env)
    requires IntOf(count) == |nodes| > 0 && TakeNodes(body, |nodes|) == Some((nodes, rest))
    ensures ReadTable(count + body, env) == GotNodes(Stamp(nodes, env.ip), rest)
  {
    hide IntOf, TakeNodes, Stamp;
    assert (count + body)[..4] == count && (count + body)[4..] == body;
  }

  lemma ReadSentTable(nodes: seq<Body>, rest: seq<byte>, env: Env)
    requires GoodMessage(FileUpdate(nodes))
    ensures ReadTable(ToBytes(|nodes|, 4) + (Flat(nodes) + rest), env) == GotNodes(Stamp(nodes, env.ip), rest)
  {
    hide ToBytes, FromBytes, Flat, TakeNodes, Stamp, ReadTable;
    FourBytes(|nodes|);
    TakeFlat(nodes, rest);
    ReadWholeTable(ToBytes(|nodes|, 4), Flat(nodes) + rest, nodes, rest, env);
  }

  lemma ReadOne(m: Message, rest: seq<byte>, state: Word, env: Env)
    requires GoodMessage(m)
    ensures ReadMessage(Encode(m) + rest, state, env) == Next(Understood(m, env.ip), Signal(m), rest)
  {
    hide ToBytes, FromBytes, Flat, ReadTable;
    var s := Encode(m) + rest;
    FourBytes(SIGNAL_HEARTBEAT);
    FourBytes(SIGNAL_FILE_UPDATE);
    assert s[..4] == Signal(m);
    match m
    case Heartbeat => assert s[4..] == rest;
    case FileUpdate(nodes) =>
      assert s[4..] == ToBytes(|nodes|, 4) + (Flat(nodes) + rest);
      ReadSentTable(nodes, rest, env);
  }

  /** What `state` holds after whole messages. */
  function LastSignal(ms: seq<Message>, state: Word): Word {
    if ms == [] then state else Signal(ms[|ms| - 1])
  }

  /** Whole messages are understood one for one, whatever comes behind them. */
  lemma {:induction false} MessagesUnderstood(ms: seq<Message>, t: seq<byte>, state: Word, env: Env)
    requires forall i :: 0 <= i < |ms| ==> GoodMessage(ms[i])
    ensures var tail := Handle(t, LastSignal(ms, state), env);
            Handle(EncodeAll(ms) + t, state, env) == Handled(UnderstoodAll(ms, env.ip) + tail.events, tail.end)
  {
    hide ReadMessage, Signal, Encode;
    if ms == [] {
      assert [] + t == t;
      assert [] + Handle(t, state, env).events == Handle(t, state, env).events;
    } else {
      var rest := EncodeAll(ms[1..]) + t;
      assert EncodeAll(ms) + t == Encode(ms[0]) + rest;
      ReadOne(ms[0], rest, state, env);
      MessagesUnderstood(ms[1..], t, Signal(ms[0]), env);
      var tail := Handle(t, LastSignal(ms, state), env);
      assert [Understood(ms[0], env.ip)] + (UnderstoodAll(ms[1..], env.ip) + tail.events)
          == UnderstoodAll(ms, env.ip) + tail.events;
    }
  }

  /** The event is what the message says. */
  predicate Means(m: Message, e: Event, ip: nat) {
    match m
    case Heartbeat => e == GotHeartbeat
    case FileUpdate(nodes) => e.GotTable? && ArrivedAs(nodes, e.nodes, ip)
  }

  lemma {:induction false} AllMean(ms: seq<Message>, ip: nat)
    requires ip < UINT_LIMIT && forall i :: 0 <= i < |ms| ==> GoodMessage(ms[i])
    ensures |UnderstoodAll(ms, ip)| == |ms|
    ensures forall i :: 0 <= i < |ms| ==> Means(ms[i], UnderstoodAll(ms, ip)[i], ip)
  {
    hide ArrivedAs, Stamp;
    if ms != [] {
      AllMean(ms[1..], ip);
      if ms[0].FileUpdate? {
        StampArrives(ms[0].nodes, ip);
      }
      assert forall i :: 1 <= i < |ms| ==> ms[i] == ms[1..][i - 1];
    }
  }

  /** Messages that are sent whole are understood one for one, in order, each table as it was
    * sent but for the sender's address in its head, and the handler ends only with the
    * connection. HandleStream computes Handle for every way in which the node bodies arrive. */
  lemma StreamUnderstood(ms: seq<Message>, state: Word, env: Env)
    requires env.ip < UINT_LIMIT && forall i :: 0 <= i < |ms| ==> GoodMessage(ms[i])
    ensures var h := Handle(EncodeAll(ms), state, env);
            && h == Handled(UnderstoodAll(ms, env.ip), Closed)
            && |h.events| == |ms|
            && forall i :: 0 <= i < |ms| ==> Means(ms[i], h.events[i], env.ip)
  {
    MessagesUnderstood(ms, [], state, env);
    AllMean(ms, env.ip);
    assert EncodeAll(ms) + [] == EncodeAll(ms);
    assert UnderstoodAll(ms, env.ip) + [] == UnderstoodAll(ms, env.ip);
  }

  // ---------- the bytes themselves, and what no client sends ----------

  lemma {:induction false} FlatSize(nodes: seq<Body>)
    requires forall i :: 0 <= i < |nodes| ==> |nodes[i]| == NODE_SIZE
    ensures |Flat(nodes)| == |nodes| * NODE_SIZE
  {
    if nodes != [] {
      FlatSize(nodes[1..]);
    }
  }

  lemma {:induction false} FlatAt(nodes: seq<Body>, i: nat)
    requires i < |nodes| && forall j :: 0 <= j < |nodes| ==> |nodes[j]| == NODE_SIZE
    ensures |Flat(nodes)| == 1072 * |nodes|
    ensures Flat(nodes)[1072 * i..1072 * (i + 1)] == nodes[i]
  {
    FlatSize(nodes);
    FlatSize(nodes[1..]);
    var s := Flat(nodes);
    if i == 0 {
      assert s[0..1072] == nodes[0];
    } else {
      FlatAt(nodes[1..], i - 1);
      var t := Flat(nodes[1..]);
      assert s == nodes[0] + t && |nodes[0]| == 1072;
      assert s[1072 * i..1072 * (i + 1)] == t[1072 * (i - 1)..1072 * i];
    }
  }

  /** Where the bytes of a message stand: an int for the signal, an int for the number of nodes, both
    * with the lowest byte first, and the nodes behind each other. */
  lemma MessageBytes(nodes: seq<Body>, i: nat)
    requires GoodMessage(FileUpdate(nodes)) && i < |nodes|
    ensures Encode(Heartbeat) == [1, 0, 0, 0]
    ensures var s, n := Encode(FileUpdate(nodes)), |nodes|;
            && |s| == 8 + 1072 * n && s[..4] == [2, 0, 0, 0]
            && FromBytes(s[4..8]) == n
            && s[8 + 1072 * i..8 + 1072 * (i + 1)] == nodes[i]
  {
    var n := |nodes|;
    FlatAt(nodes, i);
    assert ToBytes(SIGNAL_HEARTBEAT, 4) == [1, 0, 0, 0];
    assert ToBytes(SIGNAL_FILE_UPDATE, 4) == [2, 0, 0, 0];
    var c := ToBytes(n, 4);
    var flat := Flat(nodes);
    hide Flat;
    var s := Encode(FileUpdate(nodes));
    assert s == [2, 0, 0, 0] + (c + flat);
    assert s[4..8] == c;
    FourBytes(n);
    assert s[8 + 1072 * i..8 + 1072 * (i + 1)] == flat[1072 * i..1072 * (i + 1)];
  }

  /** An int that is no signal is passed over. */
  lemma UnknownSkipped(signal: nat, rest: seq<byte>, state: Word, env: Env)
    requires signal < UINT_LIMIT && signal != 1 && signal != 2
    ensures var h := Handle(rest, ToBytes(signal, 4), env);
            Handle(ToBytes(signal, 4) + rest, state, env) == Handled([GotUnknown(signal)] + h.events, h.end)
  {
    hide ToBytes, FromBytes;
    FourBytes(signal);
    assert (ToBytes(signal, 4) + rest)[..4] == ToBytes(signal, 4);
    assert (ToBytes(signal, 4) + rest)[4..] == rest;
  }

  /** A table that counts no nodes, or so many that the count is negative as an int, is null. */
  lemma BadCountIsNull(count: Word, rest: seq<byte>, state: Word, env: Env)
    requires FromBytes(count) == 0 || 0x8000_0000 <= FromBytes(count) < 0x1_0000_0000
    ensures Handle(ToBytes(2, 4) + (count + rest), state, env) == Handled([], NullTable)
  {
    hide ToBytes, FromBytes;
    FourBytes(2);
    assert (ToBytes(2, 4) + (count + rest))[..4] == ToBytes(2, 4);
    assert (ToBytes(2, 4) + (count + rest))[4..] == count + rest;
    assert (count + rest)[..4] == count;
  }

  // ---------- a connection that ends inside a message ----------

  lemma {:induction false} TakeShort(s: seq<byte>, n: nat)
    ensures TakeNodes(s, n).None? <==> |s| < n * NODE_SIZE
  {
    if n > 0 && NODE_SIZE <= |s| {
      TakeShort(s[NODE_SIZE..], n - 1);
    }
  }

  /** The table is cut off behind its signal, `u` bytes of it have come. */
  function CutTable(u: seq<byte>, env: Env): End {
    if 4 <= |u| || (u != [] && 0 < IntOf(Arrived(env.junk, u))) then
      if env.broken then NullTable else Spins
    else NullTable
  }

  /** What the handler makes of a message of which only `t` has come: part of a signal counts as
    * a signal, filled up with what `state` held before. */
  function CutOff(t: seq<byte>, state: Word, env: Env): Handled {
    if t == [] then Handled([], Closed)
    else if 4 <= |t| then Handled([], CutTable(t[4..], env))
    else
      var signal := FromBytes(Arrived(state, t));
      if signal == SIGNAL_HEARTBEAT then Handled([GotHeartbeat], Closed)
      else if signal == SIGNAL_FILE_UPDATE then Handled([], NullTable)
      else Handled([GotUnknown(signal)], Closed)
  }

  lemma ReadCutTable(nodes: seq<Body>, u: seq<byte>, env: Env)
    requires GoodMessage(FileUpdate(nodes))
    requires var all := ToBytes(|nodes|, 4) + Flat(nodes); u <= all && u != all
    ensures ReadTable(u, env) == NoTable(CutTable(u, env))
  {
    hide ToBytes, FromBytes, Flat, TakeNodes;
    var all := ToBytes(|nodes|, 4) + Flat(nodes);
    FourBytes(|nodes|);
    FlatSize(nodes);
    assert u == all[..|u|];
    if 4 <= |u| {
      assert u[..4] == all[..4] == ToBytes(|nodes|, 4);
      TakeShort(u[4..], |nodes|);
    } else if u != [] {
      var n := IntOf(Arrived(env.junk, u));
      if 0 < n { TakeShort([], n); }
    }
  }

  lemma HandleCut(m: Message, t: seq<byte>, state: Word, env: Env)
    requires GoodMessage(m) && t <= Encode(m) && t != Encode(m)
    ensures Handle(t, state, env) == CutOff(t, state, env)
  {
    hide ToBytes, FromBytes, Flat, CutTable;
    if 4 <= |t| {
      var all := Encode(m);
      FourBytes(SIGNAL_FILE_UPDATE);
      assert t == all[..|t|];
      assert t[..4] == all[..4] == Signal(m);
      assert t[4..] == all[4..][..|t| - 4];
      assert all == all[..4] + all[4..] && t == t[..4] + t[4..];
      assert all[4..] == ToBytes(|m.nodes|, 4) + Flat(m.nodes);
      ReadCutTable(m.nodes, t[4..], env);
    }
  }

  /** Behind an earlier message part of a signal is taken for the whole of it: both signals have
    * only zeros behind the first byte. */
  lemma PartOfSignal(m: Message, t: seq<byte>, last: Message)
    requires t <= Encode(m) && 0 < |t| < 4
    ensures Arrived(Signal(last), t) == Signal(m)
  {
    hide Flat;
    assert t == Encode(m)[..|t|] == Signal(m)[..|t|];
    assert ToBytes(SIGNAL_HEARTBEAT, 4) == [1, 0, 0, 0];
    assert ToBytes(SIGNAL_FILE_UPDATE, 4) == [2, 0, 0, 0];
  }

  /** What exactly becomes of a stream that ends inside a message, for every point at which it
    * may end: the messages before it are understood, and then, if the stream ends in order,
    * the handler waits for ever if and only if it believes to have read a count of a table,
    * follows a null table if the table ended before that, and else just ends. Behind an earlier
    * message, where `state` still holds a signal, part of a heartbeat is a heartbeat. */
  lemma CutStream(ms: seq<Message>, m: Message, t: seq<byte>, state: Word, env: Env)
    requires forall i :: 0 <= i < |ms| ==> GoodMessage(ms[i])
    requires GoodMessage(m) && t <= Encode(m) && t != Encode(m)
    ensures var h := Handle(EncodeAll(ms) + t, state, env);
            var cut := CutOff(t, LastSignal(ms, state), env);
            && h == Handled(UnderstoodAll(ms, env.ip) + cut.events, cut.end)
            && (h.end.Spins? <==>
                  && !env.broken && 4 < |t|
                  && (8 <= |t| || 0 < IntOf(Arrived(env.junk, t[4..]))))
            && (ms != [] || |t| == 0 || 4 <= |t| ==>
                  && (h.end.Closed? <==> t == [] || m.Heartbeat?)
                  && cut.events == if t != [] && m.Heartbeat? then [GotHeartbeat] else [])
  {
    MessagesUnderstood(ms, t, state, env);
    HandleCut(m, t, LastSignal(ms, state), env);
    if ms != [] && 0 < |t| < 4 {
      PartOfSignal(m, t, ms[|ms| - 1]);
      FourBytes(SIGNAL_HEARTBEAT);
      FourBytes(SIGNAL_FILE_UPDATE);
    }
  }
}
