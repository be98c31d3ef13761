/** File contents, file versions and the temporary files of interrupted downloads. */
module Files {
  import opened CTypes
  import opened TempName
  import opened Partition

  type byte = b: int | 0 <= b < 256

  const BUFFER_SIZE: nat := 1024

  /** A version of a file is its name and its modification time; peers serve the same bytes
    * for the same version. */
  datatype Version = Version(name: string, timestamp: nat)

  type Catalog = map<Version, seq<byte>>

  type Temps = map<string, seq<byte>>

  /** Every file has a name the temporary-name format can carry, a 32-bit timestamp, and a
    * length that fits an int. */
  predicate GoodCatalog(cat: Catalog) {
    forall v :: v in cat ==>
      GoodName(v.name) && v.timestamp < UINT_LIMIT && |cat[v]| < INT_LIMIT
  }

  function TempFile(v: Version, start: int, len: int): string {
    Print(v.name, start, len, v.timestamp)
  }

  /** The name of the temporary file of piece i of n. */
  function PieceFile(v: Version, fileLen: nat, i: nat, n: nat): string
    requires 0 < n
  {
    TempFile(v, Offset(fileLen, i, n), PieceLen(fileLen, i, n))
  }

  /** get_file_size: a file that is not there has size 0. */
  function SizeOf(temps: Temps, name: string): nat {
    if name in temps then |temps[name]| else 0
  }

  /** What the uploader reads for n bytes at an offset: its buffer is zeroed first, so bytes
    * behind the end of the file come out as zeros. */
  function ReadAt(data: seq<byte>, pos: nat, n: nat): (r: seq<byte>)
    ensures |r| == n
    ensures pos + n <= |data| ==> r == data[pos..pos + n]
  {
    seq(n, k requires 0 <= k < n => if pos + k < |data| then data[pos + k] else 0)
  }

  /** Byte by byte: what stands there, and zeros behind the end. */
  lemma ReadByte(data: seq<byte>, pos: nat, n: nat, k: nat)
    requires k < n
    ensures ReadAt(data, pos, n)[k] == if pos + k < |data| then data[pos + k] else 0
  {
  }

  /** The length of the next block when `left` bytes are still to come. */
  function BlockLen(left: nat): nat {
    if left >= BUFFER_SIZE then BUFFER_SIZE else left
  }

  /** `part` is what the bytes of `whole` from `start` on, `len` of them, begin with. */
  predicate PrefixOf(part: seq<byte>, whole: seq<byte>, start: nat, len: nat) {
    start + len <= |whole| && part <= whole[start..start + len]
  }

  /** Every temporary file named after a version and a range holds a prefix of that range. */
  ghost predicate TempsOk(cat: Catalog, temps: Temps) {
    forall v: Version, start: nat, len: nat ::
      v in cat && TempFile(v, start, len) in temps ==>
        PrefixOf(temps[TempFile(v, start, len)], cat[v], start, len)
  }

  /** No temporary file is longer than its name says. */
  ghost predicate SizesOk(temps: Temps) {
    forall v: Version, start: nat, len: nat ::
      TempFile(v, start, len) in temps ==> |temps[TempFile(v, start, len)]| <= len
  }

  lemma SizesOkUpdate(temps: Temps, v: Version, start: nat, len: nat, data: seq<byte>)
    requires SizesOk(temps) && |data| <= len
    ensures SizesOk(temps[TempFile(v, start, len) := data])
  {
    var temps' := temps[TempFile(v, start, len) := data];
    forall v': Version, start': nat, len': nat | TempFile(v', start', len') in temps'
      ensures |temps'[TempFile(v', start', len')]| <= len'
    {
      if TempFile(v', start', len') == TempFile(v, start, len) {
        AllDistinct(v'.name, start', len', v'.timestamp, v.name, start, len, v.timestamp);
      }
    }
  }

  lemma SizesOkSubset(temps: Temps, left: Temps)
    requires SizesOk(temps) && forall k :: k in left ==> k in temps && left[k] == temps[k]
    ensures SizesOk(left)
  {
  }

  lemma TempFileFixes(v: Version, start: nat, len: nat, v': Version, start': nat, len': nat)
    requires TempFile(v, start, len) == TempFile(v', start', len')
    ensures v == v' && start == start' && len == len'
  {
    AllDistinct(v.name, start, len, v.timestamp, v'.name, start', len', v'.timestamp);
  }

  /** Writing a good prefix to one temporary file keeps all of them good. */
  lemma TempsOkUpdate(cat: Catalog, temps: Temps, v: Version, start: nat, len: nat, data: seq<byte>)
    requires TempsOk(cat, temps) && v in cat
    requires PrefixOf(data, cat[v], start, len)
    ensures TempsOk(cat, temps[TempFile(v, start, len) := data])
  {
    var temps' := temps[TempFile(v, start, len) := data];
    forall v': Version, start': nat, len': nat | v' in cat && TempFile(v', start', len') in temps'
      ensures PrefixOf(temps'[TempFile(v', start', len')], cat[v'], start', len')
    {
      if TempFile(v', start', len') == TempFile(v, start, len) {
        TempFileFixes(v', start', len', v, start, len);
      }
    }
  }

  /** A prefix as long as its range is the whole range. */
  lemma FullPrefix(part: seq<byte>, whole: seq<byte>, start: nat, len: nat)
    requires PrefixOf(part, whole, start, len) && |part| == len
    ensures part == whole[start..start + len]
  {
  }

  /** A local file that is written to, on a disk with some room left. */
  class AppendFile {
    var data: seq<byte>
    var room: nat

    constructor (contents: seq<byte>, room: nat)
      ensures data == contents && this.room == room
    {
      data, this.room := contents, room;
    }

    /** fwrite: as much of the block as there is room for. */
    method Append(block: seq<byte>) returns (written: nat)
      modifies this
      ensures written == (if |block| <= old(room) then |block| else old(room))
      ensures data == old(data) + block[..written] && room == old(room) - written
    {
      written := if |block| <= room then |block| else room;
      data, room := data + block[..written], room - written;
    }
  }
}
