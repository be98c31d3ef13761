/** Where the answers of downloads come from: the directories of the clients that the table lists
  * as owners. An uploader opens the file by its name alone, whatever version it has, and if it
  * has none it neither sends nor closes the connection (upload_handler in utils/peer2peer.c). The
  * answer is what a fresh call with these owners leaves. */
module Fetching {
  import opened Wrappers
  import opened Tables
  import opened Partition
  import opened Reconcile
  import opened DownloadOutcome
  import opened Calls
  import Files
  import Download
  import Merge

  /** The directories of the clients that can be reached. */
  type Peers = map<IP, Disk>

  /** A path as it stands in messages and temporary names. */
  function NameOf(x: Path): string {
    if x == [] then ""
    else if |x| == 1 then x[0]
    else x[0] + "/" + NameOf(x[1..])
  }

  /** No component of the path is empty or has the separator in it. */
  predicate Proper(x: Path) {
    forall i :: 0 <= i < |x| ==> x[i] != "" && '/' !in x[i]
  }

  lemma FirstSeparator(a: string, rest: string)
    requires '/' !in a
    ensures var s := a + "/" + rest; s[|a|] == '/' && forall k :: 0 <= k < |a| ==> s[k] != '/'
  {
    assert forall k :: 0 <= k < |a| ==> a[k] in a;
  }

  /** What stands before the first separator is the first component. */
  lemma FirstComponent(a: string, rest: string, b: string, rest': string)
    requires '/' !in a && '/' !in b && a + "/" + rest == b + "/" + rest'
    ensures a == b && rest == rest'
  {
    var s := a + "/" + rest;
    FirstSeparator(a, rest);
    FirstSeparator(b, rest');
    assert s[..|a|] == a && (b + "/" + rest')[..|b|] == b;
    assert s[|a| + 1..] == rest && (b + "/" + rest')[|b| + 1..] == rest';
  }

  lemma SeparatorIn(x: Path)
    requires Proper(x)
    ensures '/' in NameOf(x) <==> 1 < |x|
    ensures NameOf(x) == "" <==> x == []
  {
    if 1 < |x| {
      assert NameOf(x)[|x[0]|] == '/';
    }
  }

  /** Different paths have different names, so that downloads of different files never share a
    * temporary file. */
  lemma {:induction false} NamesDistinct(x: Path, y: Path)
    requires Proper(x) && Proper(y) && NameOf(x) == NameOf(y)
    ensures x == y
    decreases |x|
  {
    SeparatorIn(x);
    SeparatorIn(y);
    if 1 < |x| {
      FirstComponent(x[0], NameOf(x[1..]), y[0], NameOf(y[1..]));
      NamesDistinct(x[1..], y[1..]);
      assert x == [x[0]] + x[1..] && y == [y[0]] + y[1..];
    }
  }

  function VersionOf(x: Path, e: Info): Files.Version {
    Files.Version(NameOf(x), e.stat.timestamp)
  }

  /** Downloads of different files, or of different versions of one, have different versions, and so
    * different temporary files. */
  lemma VersionsDistinct(x: Path, e: Info, y: Path, e': Info)
    requires Proper(x) && Proper(y)
    ensures VersionOf(x, e) == VersionOf(y, e') <==> x == y && e.stat.timestamp == e'.stat.timestamp
  {
    if VersionOf(x, e) == VersionOf(y, e') {
      NamesDistinct(x, y);
    }
  }

  function SizeOf(e: Info): nat {
    if e.stat.size < 0 then 0 else e.stat.size
  }

  /** What an uploader sends that finds this under the name. A folder can be opened, but nothing
    * can be read from it. */
  function OfferOf(node: Option<Node>): PeerKind {
    match node
    case None => Silent
    case Some(Dir) => Serves([])
    case Some(Plain(_, bytes)) => Serves(bytes)
  }

  /** A listed owner as the client `me` meets it; `own` is what it has itself while it asks. */
  function Offer(net: Peers, me: IP, own: Option<Node>, x: Path, q: IP): PeerKind {
    if q == me then OfferOf(own)
    else if q !in net then Refuses
    else OfferOf(NodeAt(net[q], x))
  }

  function Offers(net: Peers, me: IP, own: Option<Node>, x: Path, e: Info): (r: seq<PeerKind>)
    ensures |r| == |e.peers|
  {
    seq(|e.peers|, i requires 0 <= i < |e.peers| => Offer(net, me, own, x, e.peers[i]))
  }

  function Left(a: Answer): Option<seq<Files.byte>> {
    match a
    case Saves(bytes) => Some(bytes)
    case _ => None
  }

  /** The answer is what some fresh call with these owners leaves: one without leftover temporary
    * files, whose target can be opened and has room. */
  ghost predicate Answered(net: Peers, me: IP, own: Option<Node>, x: Path, e: Info, a: Answer) {
    && a != NotSaved
    && exists s, run, sched ::
         Call(SizeOf(e), VersionOf(x, e), s, Offers(net, me, own, x, e), run, sched) && Leaves(run, Left(a))
  }

  /** All downloads a client with an up-to-date list may start: of its own it has nothing any more
    * then, for the file was missing or has just been deleted. */
  ghost predicate AllAnswered(net: Peers, me: IP, m: Table, f: Answers) {
    forall x :: x in m && m[x].stat.kind == File && m[x].peers != [] ==> Answered(net, me, None, x, m[x], f(x))
  }

  // ---------- there are answers ----------

  /** Whatever the owners have, there is an answer. */
  lemma SomeAnswer(net: Peers, me: IP, own: Option<Node>, x: Path, e: Info) returns (a: Answer)
    requires 0 < |e.peers| <= Download.MAX_PEERS
    ensures Answered(net, me, own, x, e, a)
  {
    var v, len, kinds := VersionOf(x, e), SizeOf(e), Offers(net, me, own, x, e);
    var s := Download.Start(v);
    var run, sched := SomeCall(len, v, s, kinds);
    OneOutcome(v, len, s, kinds, run, sched);
    var out :| Leaves(run, out);
    a := if out.Some? then Saves(out.value) else NeverEnds;
    assert Left(a) == out;
  }

  ghost function AnAnswer(net: Peers, me: IP, m: Table, x: Path): Answer {
    if a :| x in m && Answered(net, me, None, x, m[x], a) then a else NotSaved
  }

  /** Answers for a whole table. */
  lemma SomeAnswers(net: Peers, me: IP, m: Table) returns (f: Answers)
    requires forall x :: x in m ==> |m[x].peers| <= Download.MAX_PEERS
    ensures AllAnswered(net, me, m, f)
  {
    hide Answered;
    f := (x: Path) => AnAnswer(net, me, m, x);
    forall x | x in m && m[x].stat.kind == File && m[x].peers != []
      ensures Answered(net, me, None, x, m[x], f(x))
    {
      var a := SomeAnswer(net, me, None, x, m[x]);
    }
  }

  // ---------- the answer when all owners can be reached ----------

  /** Every owner with a piece to send can be reached. */
  ghost predicate AllReached(net: Peers, me: IP, e: Info) {
    forall i :: 0 <= i < |e.peers| && 0 < PieceLen(SizeOf(e), i, |e.peers|) ==> e.peers[i] == me || e.peers[i] in net
  }

  /** What there is under the name at a client that can be reached. */
  function Found(net: Peers, me: IP, own: Option<Node>, x: Path, q: IP): Option<Node> {
    if q == me then own
    else if q in net && x in net[q] then Some(net[q][x])
    else None
  }

  /** What can be read at position k of a node: a byte of a file, and zero behind its end and in a
    * folder. */
  function ByteOf(node: Node, k: nat): Files.byte {
    if node.Plain? && k < |node.bytes| then node.bytes[k] else 0
  }

  /** Owner i has something under the name that agrees with these bytes, byte for byte, on its piece;
    * for an empty piece it need not. */
  ghost predicate SuppliesAt(net: Peers, me: IP, own: Option<Node>, x: Path, e: Info, bytes: seq<Files.byte>, i: nat)
    requires i < |e.peers|
  {
    forall k: nat :: k < |bytes| && Holds(SizeOf(e), |e.peers|, i, k) ==>
      && Found(net, me, own, x, e.peers[i]).Some?
      && ByteOf(Found(net, me, own, x, e.peers[i]).value, k) == bytes[k]
  }

  /** Every owner does. */
  ghost predicate Supplied(net: Peers, me: IP, own: Option<Node>, x: Path, e: Info, bytes: seq<Files.byte>) {
    |bytes| == SizeOf(e) && forall i :: 0 <= i < |e.peers| ==> SuppliesAt(net, me, own, x, e, bytes, i)
  }

  lemma OfferFound(net: Peers, me: IP, own: Option<Node>, x: Path, q: IP)
    ensures var offer, found := Offer(net, me, own, x, q), Found(net, me, own, x, q);
            && (offer.Serves? <==> found.Some?)
            && (offer.Silent? <==> found.None? && (q == me || q in net))
            && (found.Some? ==>
                  forall k: nat :: ByteOf(found.value, k) == if k < |offer.bytes| then offer.bytes[k] else 0)
  {
  }

  /** Agreement on a piece, byte for byte. */
  lemma AgreesBytewise(kinds: seq<PeerKind>, bytes: seq<Files.byte>, i: nat)
    requires i < |kinds|
    ensures AgreesOn(kinds, bytes, i) <==>
            forall k: nat :: k < |bytes| && Holds(|bytes|, |kinds|, i, k) ==>
              bytes[k] == if k < |BytesOf(kinds[i])| then BytesOf(kinds[i])[k] else 0
  {
    hide Offset, PieceLen;
    var n, off, len := |kinds|, Offset(|bytes|, i, |kinds|), PieceLen(|bytes|, i, |kinds|);
    PieceInside(|bytes|, i, n);
    PieceIs(|bytes|, i, n);
    var sent, piece := Files.ReadAt(BytesOf(kinds[i]), off, len), Merge.PieceBytes(bytes, i, n);
    if AgreesOn(kinds, bytes, i) {
      forall k: nat | k < |bytes| && Holds(|bytes|, n, i, k)
        ensures bytes[k] == if k < |BytesOf(kinds[i])| then BytesOf(kinds[i])[k] else 0
      {
        assert sent[k - off] == piece[k - off];
      }
    }
    if forall k: nat :: k < |bytes| && Holds(|bytes|, n, i, k) ==>
         bytes[k] == if k < |BytesOf(kinds[i])| then BytesOf(kinds[i])[k] else 0 {
      forall j | 0 <= j < len
        ensures sent[j] == piece[j]
      {
        assert Holds(|bytes|, n, i, off + j);
      }
      assert sent == piece;
    }
  }

  lemma SuppliesPiece(net: Peers, me: IP, own: Option<Node>, x: Path, e: Info, bytes: seq<Files.byte>, i: nat)
    requires i < |e.peers| && |bytes| == SizeOf(e)
    ensures var kinds := Offers(net, me, own, x, e);
            && (PieceLen(SizeOf(e), i, |kinds|) == 0 ==> AgreesOn(kinds, bytes, i))
            && (SuppliesAt(net, me, own, x, e, bytes, i) <==>
                  (0 < PieceLen(SizeOf(e), i, |kinds|) ==> kinds[i].Serves?) && AgreesOn(kinds, bytes, i))
  {
    hide AgreesOn, PieceLen, Offset, Offer, Found, ByteOf;
    var kinds, n := Offers(net, me, own, x, e), |e.peers|;
    OfferFound(net, me, own, x, e.peers[i]);
    AgreesBytewise(kinds, bytes, i);
    PieceInside(|bytes|, i, n);
    PieceIs(|bytes|, i, n);
    if 0 < PieceLen(|bytes|, i, n) {
      assert Holds(|bytes|, n, i, Offset(|bytes|, i, n));
    }
  }

  lemma SuppliedIsMix(net: Peers, me: IP, own: Option<Node>, x: Path, e: Info, bytes: seq<Files.byte>)
    requires e.peers != []
    ensures var kinds := Offers(net, me, own, x, e);
            Supplied(net, me, own, x, e, bytes) <==> AllSend(kinds, SizeOf(e)) && Mix(kinds, SizeOf(e)) == bytes
  {
    hide Mix, AgreesOn, PieceLen, Offset, Offer, SuppliesAt;
    var kinds := Offers(net, me, own, x, e);
    if |bytes| == SizeOf(e) {
      MixExactly(kinds, bytes);
      forall i | 0 <= i < |kinds|
        ensures PieceLen(SizeOf(e), i, |kinds|) == 0 ==> AgreesOn(kinds, bytes, i)
        ensures SuppliesAt(net, me, own, x, e, bytes, i) <==>
                (0 < PieceLen(SizeOf(e), i, |kinds|) ==> kinds[i].Serves?) && AgreesOn(kinds, bytes, i)
      {
        SuppliesPiece(net, me, own, x, e, bytes, i);
      }
    }
  }

  /** When every owner with a piece to send can be reached: these bytes come if and only if each of
    * them agrees with them on its piece; the call never ends if and only if one of them has
    * nothing; otherwise something else is saved under the listed time. */
  lemma AnswerExactly(net: Peers, me: IP, own: Option<Node>, x: Path, e: Info, a: Answer, bytes: seq<Files.byte>)
    requires e.peers != [] && AllReached(net, me, e) && Answered(net, me, own, x, e, a)
    ensures a == Saves(bytes) <==> Supplied(net, me, own, x, e, bytes)
    ensures a == NeverEnds <==>
            exists i :: 0 <= i < |e.peers| && 0 < PieceLen(SizeOf(e), i, |e.peers|) &&
                        Found(net, me, own, x, e.peers[i]).None?
    ensures a.Saves? ==> |a.bytes| == SizeOf(e)
  {
    hide Call, Leaves, Mix, PieceLen, Supplied;
    var kinds := Offers(net, me, own, x, e);
    var s, run, sched :| Call(SizeOf(e), VersionOf(x, e), s, kinds, run, sched) && Leaves(run, Left(a));
    forall i | 0 <= i < |kinds|
      ensures kinds[i].Serves? <==> Found(net, me, own, x, e.peers[i]).Some?
      ensures kinds[i].Refuses? ==> e.peers[i] != me && e.peers[i] !in net
    {
      OfferFound(net, me, own, x, e.peers[i]);
    }
    assert NoneRefuse(kinds, SizeOf(e));
    CallExactly(VersionOf(x, e), SizeOf(e), s, kinds, run, sched, Left(a));
    SuppliedIsMix(net, me, own, x, e, bytes);
  }

  /** An owner that has nothing under the name, the client itself for example, keeps the call for
    * ever, if there is a piece to ask it for. */
  lemma LackingNeverEnds(net: Peers, me: IP, own: Option<Node>, x: Path, e: Info, a: Answer, i: nat)
    requires Answered(net, me, own, x, e, a)
    requires i < |e.peers| && (e.peers[i] == me || e.peers[i] in net) && Found(net, me, own, x, e.peers[i]).None?
    requires 0 < PieceLen(SizeOf(e), i, |e.peers|)
    ensures a == NeverEnds
  {
    hide Call, Leaves, PieceLen;
    var kinds := Offers(net, me, own, x, e);
    var s, run, sched :| Call(SizeOf(e), VersionOf(x, e), s, kinds, run, sched) && Leaves(run, Left(a));
    OfferFound(net, me, own, x, e.peers[i]);
    SilentLeaveNothing(VersionOf(x, e), SizeOf(e), s, kinds, run, sched, i);
    OneOutcome(VersionOf(x, e), SizeOf(e), s, kinds, run, sched);
  }

  // ---------- and when some cannot ----------

  /** The owner q is another client that cannot be reached. */
  predicate Away(net: Peers, me: IP, q: IP) {
    q != me && q !in net
  }

  /** The owner q has something under the name that begins with these bytes, or reads so. */
  ghost predicate Has(net: Peers, me: IP, own: Option<Node>, x: Path, q: IP, bytes: seq<Files.byte>) {
    && Found(net, me, own, x, q).Some?
    && forall k: nat :: k < |bytes| ==> ByteOf(Found(net, me, own, x, q).value, k) == bytes[k]
  }

  /** Some owner has these bytes, all others have them or cannot be reached, and the name survives
    * parsing. */
  ghost predicate Sure(net: Peers, me: IP, own: Option<Node>, x: Path, e: Info, bytes: seq<Files.byte>) {
    && |bytes| == SizeOf(e) && Carried(VersionOf(x, e), SizeOf(e))
    && (forall q :: q in e.peers ==> Away(net, me, q) || Has(net, me, own, x, q, bytes))
    && (exists q :: q in e.peers && !Away(net, me, q))
  }

  lemma OfferHas(net: Peers, me: IP, own: Option<Node>, x: Path, q: IP, bytes: seq<Files.byte>)
    requires Away(net, me, q) || Has(net, me, own, x, q, bytes)
    ensures var offer := Offer(net, me, own, x, q);
            && (Away(net, me, q) ==> offer.Refuses?)
            && (!Away(net, me, q) ==> offer.Serves? && Files.ReadAt(offer.bytes, 0, |bytes|) == bytes)
  {
    if !Away(net, me, q) {
      OfferFound(net, me, own, x, q);
      var offer := Offer(net, me, own, x, q);
      forall k | 0 <= k < |bytes|
        ensures Files.ReadAt(offer.bytes, 0, |bytes|)[k] == bytes[k]
      {
        Files.ReadByte(offer.bytes, 0, |bytes|, k);
        assert ByteOf(Found(net, me, own, x, q).value, k) == bytes[k];
      }
    }
  }

  lemma SureComes(net: Peers, me: IP, own: Option<Node>, x: Path, e: Info, a: Answer, bytes: seq<Files.byte>)
    requires Sure(net, me, own, x, e, bytes) && Answered(net, me, own, x, e, a)
    ensures a == Saves(bytes)
  {
    hide Call, Leaves, Carried, Offer, Has;
    var kinds := Offers(net, me, own, x, e);
    var s, run, sched :| Call(SizeOf(e), VersionOf(x, e), s, kinds, run, sched) && Leaves(run, Left(a));
    forall i | 0 <= i < |kinds|
      ensures Away(net, me, e.peers[i]) ==> kinds[i].Refuses?
      ensures !Away(net, me, e.peers[i]) ==> kinds[i].Serves? && Files.ReadAt(kinds[i].bytes, 0, |bytes|) == bytes
    {
      assert e.peers[i] in e.peers;
      OfferHas(net, me, own, x, e.peers[i], bytes);
    }
    var q :| q in e.peers && !Away(net, me, q);
    var i :| 0 <= i < |e.peers| && e.peers[i] == q;
    HoldersLeave(VersionOf(x, e), bytes, s, kinds, run, sched, i);
    OneOutcome(VersionOf(x, e), SizeOf(e), s, kinds, run, sched);
    assert Left(a) == Some(bytes);
  }

  /** If no listed owner has anything under the name, or none can be reached, the call for a file with
    * bytes never ends. */
  lemma NobodyThere(net: Peers, me: IP, own: Option<Node>, x: Path, e: Info, a: Answer)
    requires Carried(VersionOf(x, e), SizeOf(e)) && 0 < SizeOf(e) && Answered(net, me, own, x, e, a)
    requires forall q :: q in e.peers ==> Found(net, me, own, x, q).None?
    ensures a == NeverEnds
  {
    hide Call, Leaves, Carried, Offer, Found;
    var kinds := Offers(net, me, own, x, e);
    var s, run, sched :| Call(SizeOf(e), VersionOf(x, e), s, kinds, run, sched) && Leaves(run, Left(a));
    forall i | 0 <= i < |kinds|
      ensures !kinds[i].Serves?
    {
      assert e.peers[i] in e.peers;
      OfferFound(net, me, own, x, e.peers[i]);
    }
    NobodyLeavesNothing(VersionOf(x, e), SizeOf(e), s, kinds, run, sched);
    OneOutcome(VersionOf(x, e), SizeOf(e), s, kinds, run, sched);
  }

  lemma SuppliedReached(net: Peers, me: IP, own: Option<Node>, x: Path, e: Info, bytes: seq<Files.byte>)
    requires Supplied(net, me, own, x, e, bytes)
    ensures AllReached(net, me, e)
  {
    hide Offset;
    var n := |e.peers|;
    forall i | 0 <= i < n && 0 < PieceLen(SizeOf(e), i, n)
      ensures e.peers[i] == me || e.peers[i] in net
    {
      PieceInside(SizeOf(e), i, n);
      PieceIs(SizeOf(e), i, n);
      assert SuppliesAt(net, me, own, x, e, bytes, i);
      assert Holds(SizeOf(e), n, i, Offset(SizeOf(e), i, n));
    }
  }

  lemma SuppliedComes(net: Peers, me: IP, own: Option<Node>, x: Path, e: Info, a: Answer, bytes: seq<Files.byte>)
    requires e.peers != [] && Supplied(net, me, own, x, e, bytes) && Answered(net, me, own, x, e, a)
    ensures a == Saves(bytes)
  {
    hide Answered, Supplied, AllReached;
    SuppliedReached(net, me, own, x, e, bytes);
    AnswerExactly(net, me, own, x, e, a, bytes);
  }

  // ---------- the whole table ----------

  /** The client q has exactly the version that the table speaks of. */
  predicate HasVersion(net: Peers, q: IP, x: Path, e: Info, src: Source) {
    q in net && x in net[q] && net[q][x] == Plain(e.stat.timestamp, src(x, e.stat.timestamp))
  }

  /** The file has owners, and each is another client that has the version. */
  ghost predicate Held(net: Peers, me: IP, x: Path, e: Info, src: Source) {
    e.peers != [] && forall q :: q in e.peers ==> q != me && HasVersion(net, q, x, e, src)
  }

  lemma HeldIsSupplied(net: Peers, me: IP, own: Option<Node>, x: Path, e: Info, src: Source)
    requires Held(net, me, x, e, src) && |src(x, e.stat.timestamp)| == e.stat.size
    ensures Supplied(net, me, own, x, e, src(x, e.stat.timestamp))
  {
    hide Holds;
    forall i | 0 <= i < |e.peers|
      ensures SuppliesAt(net, me, own, x, e, src(x, e.stat.timestamp), i)
    {
      assert e.peers[i] in e.peers;
    }
  }

  /** If all that is needed can be had from its owners, the call ends and leaves the newer version
    * of every file; this holds for every answer the owners can give. */
  lemma HeldIsFetched(net: Peers, me: IP, disk: Disk, m: Table, src: Source, f: Answers)
    requires TableOk(m) && SameTypes(disk, m) && AllAnswered(net, me, m, f)
    requires forall x :: NeedsFetch(disk, m, x) ==>
               && m[x].peers != []
               && (Supplied(net, me, None, x, m[x], Right(src, m, x)) || Sure(net, me, None, x, m[x], Right(src, m, x)))
    ensures CanFetch(disk, m, src, f) && Ends(disk, m, f) && Follows(Reconciled(disk, m, f), disk, m, src)
  {
    hide Sure, Supplied, Follows, Ends, Answered;
    forall x | NeedsFetch(disk, m, x)
      ensures m[x].peers != [] && f(x) == Saves(Right(src, m, x))
    {
      assert Answered(net, me, None, x, m[x], f(x));
      if Supplied(net, me, None, x, m[x], Right(src, m, x)) {
        SuppliedComes(net, me, None, x, m[x], f(x), Right(src, m, x));
      } else {
        SureComes(net, me, None, x, m[x], f(x), Right(src, m, x));
      }
    }
    ReconciledExactly(disk, m, src, f);
  }

  /** sync_with_server ends and leaves the newer version of every file if and only if each file
    * it must fetch has owners, and each owner with a piece to send has something under the name
    * that agrees with the version on that piece: while the list is up to date and the owners of
    * what is needed can be reached. */
  lemma FollowsExactly(net: Peers, me: IP, disk: Disk, m: Table, src: Source, f: Answers)
    requires TableOk(m) && SameTypes(disk, m) && AllAnswered(net, me, m, f)
    requires forall x :: NeedsFetch(disk, m, x) ==> AllReached(net, me, m[x])
    ensures Ends(disk, m, f) && Follows(Reconciled(disk, m, f), disk, m, src) <==>
            forall x :: NeedsFetch(disk, m, x) ==>
              m[x].peers != [] && Supplied(net, me, None, x, m[x], Right(src, m, x))
  {
    hide Follows, Ends, Supplied, AllReached, Answered, TableOk, SameTypes, Reconciled;
    forall x | NeedsFetch(disk, m, x) && m[x].peers != []
      ensures f(x) == Saves(Right(src, m, x)) <==> Supplied(net, me, None, x, m[x], Right(src, m, x))
    {
      assert Answered(net, me, None, x, m[x], f(x));
      AnswerExactly(net, me, None, x, m[x], f(x), Right(src, m, x));
    }
    ReconciledExactly(disk, m, src, f);
  }

  /** A needed file of which a listed owner has nothing, the client itself for example, keeps the
    * call for ever, if there is a piece to ask that owner for. */
  lemma LackingHangs(net: Peers, me: IP, disk: Disk, m: Table, f: Answers, x: Path, i: nat)
    requires AllAnswered(net, me, m, f) && NeedsFetch(disk, m, x)
    requires i < |m[x].peers|
    requires var q := m[x].peers[i];
             q == me || (q in net && x !in net[q])
    requires 0 < PieceLen(SizeOf(m[x]), i, |m[x].peers|)
    ensures Hangs(disk, m, f, x) && !Ends(disk, m, f)
  {
    assert Answered(net, me, None, x, m[x], f(x));
    LackingNeverEnds(net, me, None, x, m[x], f(x), i);
    assert Hangs(disk, m, f, x);
  }
}
