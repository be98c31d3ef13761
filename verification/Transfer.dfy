/** The transfer of one piece: the uploader sends blocks of at most 1024 bytes, each compressed
  * and behind its compressed length; the downloader appends what it unpacks
  * (upload_handler and download_handler in utils/peer2peer.c). */
module Transfer {
  import opened Wrappers
  import opened Files
  import opened Net

  /** zlib as a pair of functions. */
  datatype Codec = Codec(compress: seq<byte> -> seq<byte>, uncompress: seq<byte> -> Option<seq<byte>>)

  /** Unpacking undoes packing for what fits the block buffer; a packed length fits 8 bytes. */
  ghost predicate GoodCodec(c: Codec) {
    forall b: seq<byte> :: |b| <= BUFFER_SIZE ==>
      c.uncompress(c.compress(b)) == Some(b) && |c.compress(b)| < Power256(8)
  }

  function Frame(c: Codec, block: seq<byte>): seq<byte> {
    ToBytes(|c.compress(block)|, 8) + c.compress(block)
  }

  /** The byte stream for a piece. */
  function Encode(c: Codec, data: seq<byte>): seq<byte>
    decreases |data|
  {
    if data == [] then []
    else
      var n := BlockLen(|data|);
      Frame(c, data[..n]) + Encode(c, data[n..])
  }

  /** How the downloading worker ends: it has all it asked for, the connection broke or sent
    * something that cannot be unpacked, or the local file did not take a block. */
  datatype Ending = Complete | Broken | NotWritten

  datatype Received = Received(data: seq<byte>, ending: Ending)

  /** A block in front of what comes after it. */
  function Behind(block: seq<byte>, r: Received): Received {
    Received(block + r.data, r.ending)
  }

  /** The first block of a stream and what comes after its frame; None if the stream ends
    * before that, or if the block cannot be unpacked. */
  function FirstBlock(c: Codec, s: seq<byte>): (r: Option<(seq<byte>, seq<byte>)>)
    ensures r.Some? ==> |r.value.1| < |s|
  {
    if |s| < 8 then None
    else
      var n := FromBytes(s[..8]);
      if |s| < 8 + n then None
      else match c.uncompress(s[8..8 + n])
        case None => None
        case Some(block) => Some((block, s[8 + n..]))
  }

  /** What the downloader makes of a stream that ends after these bytes, when `want` bytes are
    * wanted and the local file takes `room` more. */
  function Receive(c: Codec, s: seq<byte>, want: int, room: nat): Received
    decreases |s|
  {
    if want <= 0 then Received([], Complete)
    else match FirstBlock(c, s)
      case None => Received([], Broken)
      case Some((block, rest)) =>
        if room < |block| then Received(block[..room], NotWritten)
        else Behind(block, Receive(c, rest, want - |block|, room - |block|))
  }

  /** One block of the receiving loop: its length, its bytes, and unpacking. */
  method NextBlock(c: Codec, sock: Socket) returns (block: Option<seq<byte>>)
    modifies sock
    ensures match FirstBlock(c, old(sock.pending))
            case None => block == None
            case Some((b, rest)) => block == Some(b) && sock.pending == rest
  {
    ghost var s := sock.pending;
    var head := sock.RecvAll(8);
    if head.None? { return None; }
    var n := FromBytes(head.value);
    var body := sock.RecvAll(n);
    if body.None? { return None; }
    assert body.value == s[8..8 + n];
    block := c.uncompress(body.value);
  }

  /** What one round of the receiving loop makes of what is still to be received, when `added`
    * was appended before. */
  lemma ReceiveRound(c: Codec, added: seq<byte>, s: seq<byte>, want: int, room: nat)
    ensures var all := Behind(added, Receive(c, s, want, room));
            if want <= 0 then all == Received(added, Complete)
            else match FirstBlock(c, s)
              case None => all == Received(added, Broken)
              case Some((block, rest)) =>
                if room < |block| then all == Received(added + block[..room], NotWritten)
                else all == Behind(added + block, Receive(c, rest, want - |block|, room - |block|))
  {
    assert added + [] == added;
    if want > 0 && FirstBlock(c, s).Some? {
      var (block, rest) := FirstBlock(c, s).value;
      if |block| <= room {
        var more := Receive(c, rest, want - |block|, room - |block|);
        assert added + (block + more.data) == (added + block) + more.data;
      }
    }
  }

  lemma Appended(before: seq<byte>, added: seq<byte>, block: seq<byte>, written: nat)
    requires written <= |block|
    ensures (before + added) + block[..written] == before + (added + block[..written])
    ensures written == |block| ==> block[..written] == block
  {
  }

  /** The receiving loop of download_handler. */
  method DownloadPiece(c: Codec, sock: Socket, file: AppendFile, want: int) returns (ending: Ending)
    modifies sock, file
    ensures var r := Receive(c, old(sock.pending), want, old(file.room));
            file.data == old(file.data) + r.data && ending == r.ending
  {
    hide FirstBlock, Receive, FromBytes;
    var got := 0;
    ghost var added: seq<byte> := [];
    ghost var all := Receive(c, sock.pending, want, file.room);
    assert [] + all.data == all.data && file.data + [] == file.data;
    while got < want
      invariant file.data == old(file.data) + added
      invariant all == Behind(added, Receive(c, sock.pending, want - got, file.room))
      decreases |sock.pending|
    {
      ReceiveRound(c, added, sock.pending, want - got, file.room);
      var block := NextBlock(c, sock);
      if block.None? { return Broken; }
      got := got + |block.value|;
      var written := file.Append(block.value);
      Appended(old(file.data), added, block.value, written);
      added := added + block.value[..written];
      if written < |block.value| { return NotWritten; }
    }
    ReceiveRound(c, added, sock.pending, want - got, file.room);
    ending := Complete;
  }

  /** The sending loop of upload_handler. */
  method UploadPiece(c: Codec, source: seq<byte>, start: nat, len: nat) returns (stream: seq<byte>)
    ensures stream == Encode(c, ReadAt(source, start, len))
  {
    stream := [];
    var sent := 0;
    ghost var all := ReadAt(source, start, len);
    assert all[0..] == all;
    while sent < len
      invariant 0 <= sent <= len
      invariant stream + Encode(c, all[sent..]) == Encode(c, all)
    {
      var n := BlockLen(len - sent);
      var block := ReadAt(source, start + sent, n);
      assert block == all[sent..][..n];
      assert all[sent..][n..] == all[sent + n..];
      ghost var rest := Encode(c, all[sent + n..]);
      assert stream + (Frame(c, block) + rest) == (stream + Frame(c, block)) + rest;
      stream := stream + Frame(c, block);
      sent := sent + n;
    }
    assert stream + [] == stream;
  }

  /** A prefix of a frame and more is a piece of the frame, or the frame and a prefix of the rest. */
  lemma CutFrame(f: seq<byte>, rest: seq<byte>, s: seq<byte>)
    requires s <= f + rest
    ensures if |f| <= |s| then s == f + s[|f|..] && s[|f|..] <= rest && (s == f + rest <==> s[|f|..] == rest)
            else s <= f && s != f + rest
  {
    var all := f + rest;
    assert s == all[..|s|];
    if |f| <= |s| {
      assert s[..|f|] == all[..|f|] == f;
      assert s[|f|..] == rest[..|s| - |f|];
      assert s == f + s[|f|..];
    } else {
      assert s == f[..|s|];
    }
  }

  /** A whole frame at the front of a stream is unpacked. */
  lemma ReceiveFrame(c: Codec, block: seq<byte>, rest: seq<byte>, want: int, room: nat)
    requires GoodCodec(c) && |block| <= BUFFER_SIZE && 0 < want
    ensures Receive(c, Frame(c, block) + rest, want, room) ==
            if room < |block| then Received(block[..room], NotWritten)
            else Behind(block, Receive(c, rest, want - |block|, room - |block|))
  {
    hide FromBytes, ToBytes;
    var z := c.compress(block);
    var s := Frame(c, block) + rest;
    BytesRoundTrip(|z|, 8);
    assert s[..8] == ToBytes(|z|, 8);
    assert s[8..8 + |z|] == z;
    assert s[8 + |z|..] == rest;
  }

  /** A frame cut short gives nothing. */
  lemma ReceiveCut(c: Codec, block: seq<byte>, s: seq<byte>, want: int, room: nat)
    requires GoodCodec(c) && |block| <= BUFFER_SIZE && 0 < want
    requires s <= Frame(c, block) && s != Frame(c, block)
    ensures Receive(c, s, want, room) == Received([], Broken)
  {
    hide FromBytes, ToBytes;
    var z := c.compress(block);
    BytesRoundTrip(|z|, 8);
    if 8 <= |s| {
      assert s == Frame(c, block)[..|s|];
      assert s[..8] == ToBytes(|z|, 8);
    }
  }

  /** How receiving goes on a stream the uploader of non-empty data may leave behind. */
  lemma ReceiveStream(c: Codec, data: seq<byte>, s: seq<byte>, room: nat)
    requires GoodCodec(c) && data != [] && s <= Encode(c, data)
    ensures var n := BlockLen(|data|);
            var k := |Frame(c, data[..n])|;
            if k <= |s| then
              && s[k..] <= Encode(c, data[n..])
              && (s == Encode(c, data) <==> s[k..] == Encode(c, data[n..]))
              && Receive(c, s, |data|, room) ==
                 if room < n then Received(data[..room], NotWritten)
                 else Behind(data[..n], Receive(c, s[k..], |data| - n, room - n))
            else Receive(c, s, |data|, room) == Received([], Broken) && s != Encode(c, data)
  {
    hide Receive, GoodCodec, Frame, Behind, FirstBlock;
    var n := BlockLen(|data|);
    var f := Frame(c, data[..n]);
    CutFrame(f, Encode(c, data[n..]), s);
    if |f| <= |s| {
      ReceiveFrame(c, data[..n], s[|f|..], |data|, room);
      assert room < n ==> data[..n][..room] == data[..room];
    } else {
      ReceiveCut(c, data[..n], s, |data|, room);
    }
  }

  /** What the downloader may have when `whole` says whether all of the stream arrived: all of
    * the data, a shorter prefix of it made of whole blocks, or as much as there was room for. */
  ghost predicate GoodOutcome(data: seq<byte>, r: Received, whole: bool, room: nat) {
    && r.data <= data && |r.data| <= room
    && (r.ending == Complete <==> whole && |data| <= room)
    && (r.ending == Complete ==> r.data == data)
    && (r.ending == Broken ==> !whole && |r.data| < |data| && |r.data| % BUFFER_SIZE == 0)
    && (r.ending == NotWritten ==> |r.data| == room < |data|)
  }

  lemma OutcomeAfterBlock(data: seq<byte>, n: nat, r: Received, whole: bool, room: nat)
    requires data != [] && n == BlockLen(|data|) && n <= room
    requires GoodOutcome(data[n..], r, whole, room - n)
    ensures GoodOutcome(data, Behind(data[..n], r), whole, room)
  {
    assert data == data[..n] + data[n..];
    assert r.data == data[n..][..|r.data|];
  }

  lemma NothingWanted(c: Codec, s: seq<byte>, room: nat)
    ensures Receive(c, s, 0, room) == Received([], Complete)
  {
  }

  /** The transfer is correct for every stream the uploader's side can leave behind, that is
    * for every point at which the connection may break, and for every room the disk has: the
    * downloader has a prefix of the data, no more than it asked for, and made of whole blocks
    * unless the disk was full; it takes the piece for complete if and only if the whole stream
    * arrived and fitted, and then has all of the data. */
  lemma {:induction false} TransferCorrect(c: Codec, data: seq<byte>, s: seq<byte>, room: nat)
    requires GoodCodec(c) && s <= Encode(c, data)
    ensures GoodOutcome(data, Receive(c, s, |data|, room), s == Encode(c, data), room)
    decreases |data|
  {
    hide Receive, GoodCodec, Frame, Behind, FirstBlock;
    if data == [] {
      NothingWanted(c, s, room);
    } else {
      var n := BlockLen(|data|);
      var k := |Frame(c, data[..n])|;
      ReceiveStream(c, data, s, room);
      if k <= |s| && n <= room {
        hide GoodOutcome, Encode;
        TransferCorrect(c, data[n..], s[k..], room - n);
        OutcomeAfterBlock(data, n, Receive(c, s[k..], |data| - n, room - n), s == Encode(c, data), room);
      }
    }
  }

  /** On the wire a block is its packed length in eight bytes, and the packed bytes. */
  lemma FrameBytes(c: Codec, block: seq<byte>)
    requires GoodCodec(c) && |block| <= BUFFER_SIZE
    ensures var f, z := Frame(c, block), c.compress(block);
            |f| == 8 + |z| && f[8..] == z && FromBytes(f[..8]) == |z|
  {
    hide ToBytes, FromBytes;
    var z := c.compress(block);
    BytesRoundTrip(|z|, 8);
    assert Frame(c, block)[..8] == ToBytes(|z|, 8);
  }

  /** A block that brings more than is still wanted is appended whole, and the worker takes its piece
    * for complete. */
  lemma LongBlockKept(c: Codec, block: seq<byte>, rest: seq<byte>, want: int, room: nat)
    requires GoodCodec(c) && 0 < want <= |block| <= room && |block| <= BUFFER_SIZE
    ensures Receive(c, Frame(c, block) + rest, want, room) == Received(block, Complete)
  {
    hide Frame;
    ReceiveFrame(c, block, rest, want, room);
    assert block + [] == block;
  }
}
