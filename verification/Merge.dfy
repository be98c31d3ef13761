/** Putting the pieces of a downloaded file together (utils/peer2peer.c, the end of
  * download_file_multi_thread). */
module Merge {
  import opened Files
  import opened Partition

  function Min(a: nat, b: nat): nat {
    if a < b then a else b
  }

  /** What the merge loop writes from piece i on, when the disk has room for so many bytes, and
    * the temporary files it leaves: of each piece's file it copies what fits, and removes the
    * file, which frees its room; a file that is missing is skipped. */
  function MergePieces(temps: Temps, room: nat, v: Version, fileLen: nat, i: nat, n: nat): (seq<byte>, Temps)
    requires 0 < n && i <= n
    decreases n - i
  {
    if i == n then ([], temps)
    else
      var name := PieceFile(v, fileLen, i, n);
      if name in temps then
        var len := |temps[name]|;
        var rest := MergePieces(temps - {name}, room - Min(len, room) + len, v, fileLen, i + 1, n);
        (temps[name][..Min(len, room)] + rest.0, rest.1)
      else MergePieces(temps, room, v, fileLen, i + 1, n)
  }

  /** The bytes of piece i. */
  function PieceBytes(source: seq<byte>, i: nat, n: nat): seq<byte>
    requires 0 < n && i < n
  {
    PieceInside(|source|, i, n);
    source[Offset(|source|, i, n)..Offset(|source|, i, n) + PieceLen(|source|, i, n)]
  }

  /** Piece i is on disk; an empty piece may be missing. */
  predicate PieceReady(temps: Temps, v: Version, source: seq<byte>, i: nat, n: nat)
    requires 0 < n && i < n
  {
    var name := PieceFile(v, |source|, i, n);
    && (name in temps ==> temps[name] == PieceBytes(source, i, n))
    && (PieceLen(|source|, i, n) > 0 ==> name in temps)
  }

  /** Two different pieces of one file share a temporary name only if both are empty. */
  lemma SamePieceName(v: Version, fileLen: nat, i: nat, j: nat, n: nat)
    requires 0 < n && PieceFile(v, fileLen, i, n) == PieceFile(v, fileLen, j, n)
    ensures i == j || PieceLen(fileLen, i, n) == PieceLen(fileLen, j, n) == 0
  {
    TempName.SameFileDistinct(v.name, Offset(fileLen, i, n), PieceLen(fileLen, i, n),
                              Offset(fileLen, j, n), PieceLen(fileLen, j, n), v.timestamp);
    SamePiece(fileLen, i, j, n);
  }

  /** Removing the file of piece i spoils no other piece: two pieces with one name are empty. */
  lemma ReadyAfterRemoval(temps: Temps, v: Version, source: seq<byte>, i: nat, j: nat, n: nat)
    requires 0 < n && i < n && j < n && i != j
    requires PieceReady(temps, v, source, j, n)
    ensures PieceReady(temps - {PieceFile(v, |source|, i, n)}, v, source, j, n)
  {
    if PieceFile(v, |source|, i, n) == PieceFile(v, |source|, j, n) {
      SamePieceName(v, |source|, i, j, n);
    }
  }

  /** One piece of the file less. */
  lemma PieceOff(source: seq<byte>, i: nat, n: nat)
    requires 0 < n && i < n
    ensures Offset(|source|, i, n) + PieceLen(|source|, i, n) == Offset(|source|, i + 1, n) <= |source|
    ensures source[Offset(|source|, i, n)..] == PieceBytes(source, i, n) + source[Offset(|source|, i + 1, n)..]
    ensures |PieceBytes(source, i, n)| == PieceLen(|source|, i, n)
  {
    PieceInside(|source|, i, n);
  }

  lemma OthersReady(temps: Temps, v: Version, source: seq<byte>, i: nat, n: nat)
    requires 0 < n && i < n
    requires forall j :: i <= j < n ==> PieceReady(temps, v, source, j, n)
    ensures forall j :: i + 1 <= j < n ==> PieceReady(temps - {PieceFile(v, |source|, i, n)}, v, source, j, n)
  {
    forall j | i + 1 <= j < n
      ensures PieceReady(temps - {PieceFile(v, |source|, i, n)}, v, source, j, n)
    {
      ReadyAfterRemoval(temps, v, source, i, j, n);
    }
  }

  lemma ReadyBytes(temps: Temps, v: Version, source: seq<byte>, i: nat, n: nat)
    requires 0 < n && i < n && PieceReady(temps, v, source, i, n)
    ensures var name := PieceFile(v, |source|, i, n);
            if name in temps then temps[name] == PieceBytes(source, i, n) else PieceBytes(source, i, n) == []
  {
    PieceOff(source, i, n);
  }

  /** Every piece from i on fits the room there is. */
  predicate Fits(fileLen: nat, i: nat, n: nat, room: nat)
    requires 0 < n
  {
    forall j :: i <= j < n ==> PieceLen(fileLen, j, n) <= room
  }

  lemma NothingToFit(fileLen: nat, n: nat, room: nat)
    requires 0 < n
    ensures Fits(fileLen, n, n, room)
  {
  }

  /** What a piece cut to the room, and the rest, have to be for all to be there. */
  lemma SamePrefix(piece: seq<byte>, rest: seq<byte>, more: seq<byte>, room: nat)
    requires |rest| <= |more|
    ensures piece[..Min(|piece|, room)] + rest == piece + more <==> |piece| <= room && rest == more
  {
    var w := Min(|piece|, room);
    if piece[..w] + rest == piece + more {
      assert |piece[..w] + rest| == |piece + more|;
      assert (piece[..w] + rest)[w..] == rest && (piece + more)[|piece|..] == more;
    }
    if |piece| <= room {
      assert piece[..w] == piece;
    }
  }

  /** Merging never writes more than the pieces. */
  lemma {:induction false} MergeShort(temps: Temps, room: nat, v: Version, source: seq<byte>, i: nat, n: nat)
    requires 0 < n && i <= n
    requires forall j :: i <= j < n ==> PieceReady(temps, v, source, j, n)
    ensures Offset(|source|, i, n) + |MergePieces(temps, room, v, |source|, i, n).0| <= |source|
    decreases n - i
  {
    hide PieceFile, PieceReady, PieceBytes, Offset, PieceLen;
    OffsetEnds(|source|, n);
    if i < n {
      PieceOff(source, i, n);
      var name := PieceFile(v, |source|, i, n);
      if name in temps {
        ReadyBytes(temps, v, source, i, n);
        OthersReady(temps, v, source, i, n);
        var len := |temps[name]|;
        MergeShort(temps - {name}, room - Min(len, room) + len, v, source, i + 1, n);
      } else {
        MergeShort(temps, room, v, source, i + 1, n);
      }
    }
  }

  lemma FitsNext(fileLen: nat, i: nat, n: nat, room: nat)
    requires 0 < n && i < n
    ensures Fits(fileLen, i, n, room) <==> PieceLen(fileLen, i, n) <= room && Fits(fileLen, i + 1, n, room)
  {
    if PieceLen(fileLen, i, n) <= room && Fits(fileLen, i + 1, n, room) {
      forall j | i <= j < n
        ensures PieceLen(fileLen, j, n) <= room
      {
      }
    }
  }

  /** If every piece is ready, merging gives back the file, even when several empty pieces
    * share one temporary file that the first of them removes, if and only if each piece fits
    * the disk; else something is missing, and nobody is told. */
  lemma {:induction false} MergeExactly(temps: Temps, room: nat, v: Version, source: seq<byte>, i: nat, n: nat)
    requires 0 < n && i <= n
    requires forall j :: i <= j < n ==> PieceReady(temps, v, source, j, n)
    ensures Offset(|source|, i, n) <= |source|
    ensures MergePieces(temps, room, v, |source|, i, n).0 == source[Offset(|source|, i, n)..]
            <==> Fits(|source|, i, n, room)
    decreases n - i
  {
    hide PieceFile, PieceReady, PieceBytes, Offset, PieceLen, Fits;
    OffsetEnds(|source|, n);
    if i == n {
      NothingToFit(|source|, n, room);
    } else {
      var name := PieceFile(v, |source|, i, n);
      PieceOff(source, i, n);
      FitsNext(|source|, i, n, room);
      ReadyBytes(temps, v, source, i, n);
      if name in temps {
        OthersReady(temps, v, source, i, n);
        var len := |temps[name]|;
        var rest := room - Min(len, room) + len;
        MergeShort(temps - {name}, rest, v, source, i + 1, n);
        MergeExactly(temps - {name}, rest, v, source, i + 1, n);
        SamePrefix(temps[name], MergePieces(temps - {name}, rest, v, |source|, i + 1, n).0,
                   source[Offset(|source|, i + 1, n)..], room);
      } else {
        MergeExactly(temps, room, v, source, i + 1, n);
        assert [] + source[Offset(|source|, i + 1, n)..] == source[Offset(|source|, i + 1, n)..];
      }
    }
  }

  /** k is the name of a piece from piece i on. */
  ghost predicate PieceName(v: Version, fileLen: nat, i: nat, n: nat, k: string)
    requires 0 < n
  {
    exists j :: i <= j < n && k == PieceFile(v, fileLen, j, n)
  }

  lemma PieceNameNext(v: Version, fileLen: nat, i: nat, n: nat, k: string)
    requires 0 < n && i < n
    ensures PieceName(v, fileLen, i, n, k) <==> k == PieceFile(v, fileLen, i, n) || PieceName(v, fileLen, i + 1, n, k)
  {
  }

  lemma {:induction false} MergeRemovesKey(temps: Temps, room: nat, v: Version, fileLen: nat, i: nat, n: nat, k: string)
    requires 0 < n && i <= n
    ensures var left := MergePieces(temps, room, v, fileLen, i, n).1;
            && (k in left <==> k in temps && !PieceName(v, fileLen, i, n, k))
            && (k in left ==> left[k] == temps[k])
    decreases n - i
  {
    if i < n {
      hide PieceFile, PieceName, Min;
      var name := PieceFile(v, fileLen, i, n);
      PieceNameNext(v, fileLen, i, n, k);
      if name in temps {
        var len := |temps[name]|;
        MergeRemovesKey(temps - {name}, room - Min(len, room) + len, v, fileLen, i + 1, n, k);
      } else {
        MergeRemovesKey(temps, room, v, fileLen, i + 1, n, k);
      }
    }
  }

  /** Merging leaves exactly the temporary files that are not the pieces', and removes these
    * also when their bytes did not fit. */
  lemma {:induction false} MergeRemoves(temps: Temps, room: nat, v: Version, fileLen: nat, i: nat, n: nat)
    requires 0 < n && i <= n
    ensures var left := MergePieces(temps, room, v, fileLen, i, n).1;
            forall k :: (k in left <==> k in temps && !PieceName(v, fileLen, i, n, k)) &&
                        (k in left ==> left[k] == temps[k])
  {
    hide MergePieces, PieceName;
    forall k
      ensures var left := MergePieces(temps, room, v, fileLen, i, n).1;
              (k in left <==> k in temps && !PieceName(v, fileLen, i, n, k)) && (k in left ==> left[k] == temps[k])
    {
      MergeRemovesKey(temps, room, v, fileLen, i, n, k);
    }
  }

  /** Where the merged file is to go: it cannot be opened, or the disk has this much room. */
  datatype Target = CannotOpen | Room(room: nat)

  datatype Saved = NotSaved | Saved(out: seq<byte>)

  /** What the end of a download leaves: a file that cannot be opened touches nothing. */
  function Merged(temps: Temps, target: Target, v: Version, fileLen: nat, n: nat): (Saved, Temps)
    requires 0 < n
  {
    match target
    case CannotOpen => (NotSaved, temps)
    case Room(room) =>
      var merged := MergePieces(temps, room, v, fileLen, 0, n);
      (Saved(merged.0), merged.1)
  }

  /** A file of one piece: what fits of the piece is written, nothing if the piece is missing; the
    * piece is gone in both cases. */
  lemma OnePieceMerged(temps: Temps, room: nat, v: Version, fileLen: nat)
    ensures Offset(fileLen, 0, 1) == 0 && PieceLen(fileLen, 0, 1) == fileLen
    ensures var name := TempFile(v, 0, fileLen);
            var data := if name in temps then temps[name] else [];
            Merged(temps, Room(room), v, fileLen, 1) ==
            (Saved(if |data| <= room then data else data[..room]), temps - {name})
  {
    OffsetEnds(fileLen, 1);
    var name := TempFile(v, 0, fileLen);
    assert PieceFile(v, fileLen, 0, 1) == name;
    if name in temps {
      var w := Min(|temps[name]|, room);
      assert MergePieces(temps - {name}, room - w + |temps[name]|, v, fileLen, 1, 1) == ([], temps - {name});
      assert temps[name][..w] + [] == temps[name][..w];
      assert temps[name][..|temps[name]|] == temps[name];
    } else {
      assert temps - {name} == temps;
      assert MergePieces(temps, room, v, fileLen, 1, 1) == ([], temps);
    }
  }

  /** What has been written, with what merging from piece i on still writes. */
  function Written(fp: seq<byte>, temps: Temps, room: nat, v: Version, fileLen: nat, i: nat, n: nat): (seq<byte>, Temps)
    requires 0 < n && i <= n
  {
    var rest := MergePieces(temps, room, v, fileLen, i, n);
    (fp + rest.0, rest.1)
  }

  /** One round of the merge loop. */
  lemma MergeRound(fp: seq<byte>, temps: Temps, room: nat, v: Version, fileLen: nat, i: nat, n: nat)
    requires 0 < n && i < n
    ensures var name := PieceFile(v, fileLen, i, n);
            Written(fp, temps, room, v, fileLen, i, n) ==
            if name in temps then
              var w := Min(|temps[name]|, room);
              Written(fp + temps[name][..w], temps - {name}, room - w + |temps[name]|, v, fileLen, i + 1, n)
            else Written(fp, temps, room, v, fileLen, i + 1, n)
  {
    hide PieceFile;
    var name := PieceFile(v, fileLen, i, n);
    if name in temps {
      var w := Min(|temps[name]|, room);
      var rest := MergePieces(temps - {name}, room - w + |temps[name]|, v, fileLen, i + 1, n).0;
      assert fp + (temps[name][..w] + rest) == (fp + temps[name][..w]) + rest;
    }
  }

  lemma NothingLeft(fp: seq<byte>, temps: Temps, room: nat, v: Version, fileLen: nat, n: nat)
    requires 0 < n
    ensures Written(fp, temps, room, v, fileLen, n, n) == (fp, temps)
  {
    assert fp + [] == fp;
  }

  /** One block more of what is copied. */
  lemma CopiedMore(before: seq<byte>, f: seq<byte>, pos: nat, n: nat, room: nat)
    requires pos + n <= |f|
    ensures var left := room - Min(pos, room);
            before + f[..Min(pos, room)] + f[pos..pos + n][..Min(n, left)] == before + f[..Min(pos + n, room)]
  {
    var left := room - Min(pos, room);
    if pos <= room {
      assert f[..pos] + f[pos..pos + n][..Min(n, left)] == f[..Min(pos + n, room)];
    } else {
      assert f[pos..pos + n][..0] == [];
    }
  }

  /** The directory the temporary files live in. */
  class TempDir {
    var files: Temps

    /** One `while (fread ...) fwrite ...` loop: the whole file, in blocks. How much of a block
      * was written is not looked at. */
    method Copy(name: string, fp: AppendFile)
      requires name in files
      modifies fp
      ensures var w := Min(|files[name]|, old(fp.room));
              fp.data == old(fp.data) + files[name][..w] && fp.room == old(fp.room) - w
    {
      var f := files[name];
      ghost var before, room := fp.data, fp.room;
      var pos := 0;
      var buflen := BlockLen(|f|);
      assert before + [] == before;
      while buflen > 0
        invariant 0 <= buflen && pos + buflen <= |f| && files[name] == f
        invariant fp.data == before + f[..Min(pos, room)] && fp.room == room - Min(pos, room)
        invariant buflen == 0 ==> pos == |f|
        decreases |f| - pos
      {
        var writeLength := fp.Append(f[pos..pos + buflen]);
        CopiedMore(before, f, pos, buflen, room);
        pos := pos + buflen;
        buflen := BlockLen(|f| - pos);
      }
    }

    method Merge(v: Version, fileLen: nat, n: nat, target: Target) returns (saved: Saved)
      requires 0 < n
      modifies this
      ensures (saved, files) == Merged(old(files), target, v, fileLen, n)
    {
      if target.CannotOpen? { return NotSaved; }
      hide MergePieces, PieceFile;
      var fp := new AppendFile([], target.room);
      var i := 0;
      ghost var all := MergePieces(files, fp.room, v, fileLen, 0, n);
      assert fp.data + all.0 == all.0;
      while i < n
        invariant 0 <= i <= n
        invariant all == Written(fp.data, files, fp.room, v, fileLen, i, n)
      {
        var name := PieceFile(v, fileLen, i, n);
        MergeRound(fp.data, files, fp.room, v, fileLen, i, n);
        if name in files {
          Copy(name, fp);
          fp.room := fp.room + |files[name]|;
          files := files - {name};
        }
        i := i + 1;
      }
      NothingLeft(fp.data, files, fp.room, v, fileLen, n);
      saved := Saved(fp.data);
    }
  }
}
