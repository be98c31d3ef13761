/** A client makes its directory follow a broadcast table (sync_with_server in
  * utils/file_monitor.c). The directory is a map from paths below the shared root to folders
  * and files; hidden files and names ending in "~" are not in it, nor are folder times, which
  * the procedure never compares. What is deleted and fetched is decided by the list of the last
  * scan, which may lag behind the directory. */
module Reconcile {
  import opened Wrappers
  import opened Tables
  import Detector
  import Files

  datatype Node = Dir | Plain(timestamp: nat, bytes: seq<Files.byte>)

  type Disk = map<Path, Node>

  function NodeAt(disk: Disk, x: Path): Option<Node> {
    if x in disk then Some(disk[x]) else None
  }

  lemma SameNodes(disk: Disk, disk': Disk)
    requires forall x :: NodeAt(disk, x) == NodeAt(disk', x)
    ensures disk == disk'
  {
    forall x
      ensures x in disk <==> x in disk'
      ensures x in disk ==> disk[x] == disk'[x]
    {
      assert NodeAt(disk, x) == NodeAt(disk', x);
    }
  }

  /** Every ancestor of an entry is a folder on disk. */
  predicate DiskOk(disk: Disk) {
    forall x :: x in disk ==>
      x != [] && Detector.Visible(x) && forall k :: 0 < k < |x| ==> x[..k] in disk && disk[x[..k]] == Dir
  }

  /** The table lists visible names, files and folders only, and with a name all its ancestors,
    * as folders. */
  predicate TableOk(m: Table) {
    forall x :: x in m ==>
      && x != [] && Detector.Visible(x) && m[x].stat.kind != Other
      && forall k :: 0 < k < |x| ==> x[..k] in m && m[x[..k]].stat.kind == Folder
  }

  /** No name is a file on one side and a folder on the other. */
  predicate SameTypes(disk: Disk, m: Table) {
    forall x :: x in disk && x in m ==> (disk[x] == Dir <==> m[x].stat.kind == Folder)
  }

  /** The list has names below the root, and no name in it is a file in one and a folder in the
    * other. */
  predicate ListOk(list: Report, m: Table) {
    forall x :: x in list ==> x != [] && (x in m ==> (list[x].kind == Folder <==> m[x].stat.kind == Folder))
  }

  // ---------- the commands ----------

  /** safe_delete: `rm -rf` takes the whole subtree, if the name exists. */
  function SafeDelete(disk: Disk, p: Path): Disk {
    if p in disk then map x | x in disk && !(p <= x) :: disk[x] else disk
  }

  /** The mkdir loops: folders for the first k components, where nothing is there. */
  function MakeFolders(disk: Disk, p: Path, k: nat): Disk
    requires k <= |p|
  {
    if k == 0 then disk
    else
      var d := MakeFolders(disk, p, k - 1);
      if p[..k] in d then d else d[p[..k] := Dir]
  }

  function SafeAddFolder(disk: Disk, p: Path): Disk {
    MakeFolders(disk, p, |p|)
  }

  /** What becomes of a download that has somebody to ask: it saves these bytes, it saves nothing,
    * or the call never ends. */
  datatype Answer = Saves(bytes: seq<Files.byte>) | NotSaved | NeverEnds

  /** What a download puts in place: what came, with the time of the table. */
  function Delivered(e: Info, a: Answer): Option<Node> {
    if e.peers == [] then None
    else match a
      case Saves(bytes) => Some(Plain(e.stat.timestamp, bytes))
      case _ => None
  }

  /** A download gives up if the file has no owner, before it makes any folder. */
  function Download(disk: Disk, p: Path, e: Info, a: Answer): Disk {
    if e.peers == [] || p == [] then disk
    else
      var d := MakeFolders(disk, p, |p| - 1);
      match Delivered(e, a)
      case None => d
      case Some(node) => d[p := node]
  }

  /** A name the client does not have. */
  function Install(disk: Disk, p: Path, e: Info, a: Answer): Disk {
    if e.stat.kind == File then Download(disk, p, e, a) else SafeAddFolder(disk, p)
  }

  /** A name the client has in an older version. */
  function Replace(disk: Disk, p: Path, e: Info, a: Answer): Disk {
    var d := SafeDelete(disk, p);
    if e.stat.kind == Folder then SafeAddFolder(d, p) else Download(d, p, e, a)
  }

  // ---------- the result, name by name ----------

  /** The answers to all downloads that may be started. */
  type Answers = Path -> Answer

  /** The test of the second loop, on the client's list. */
  predicate Handled(list: Report, p: Path, e: Info) {
    p !in list || (list[p].timestamp < e.stat.timestamp && !BothFolders(list[p], e.stat))
  }

  /** x falls in the first loop: with itself or with a folder above it that is listed here and
    * not in the table. */
  ghost predicate Falls(list: Report, m: Table, x: Path) {
    exists p :: p in list && p !in m && p <= x
  }

  /** The second loop makes the folders on the way to y, if they are not there. */
  predicate Starts(list: Report, m: Table, y: Path) {
    y in m && Handled(list, y, m[y]) && (m[y].stat.kind == Folder || m[y].peers != [])
  }

  /** The folder x is made for one of the first names. */
  ghost predicate Made(list: Report, m: Table, done: set<Path>, x: Path) {
    exists y :: y in done && x <= y && Starts(list, m, y)
  }

  /** What becomes of a file of the table, given what is there when its turn comes: untouched if
    * the list has it as new as the table; else what is delivered; else nothing, if it was in the
    * list and so has been deleted. */
  function FileResult(list: Report, local: Option<Node>, x: Path, e: Info, a: Answer): Option<Node> {
    if !Handled(list, x, e) then local
    else match Delivered(e, a)
      case Some(node) => Some(node)
      case None => if x in list then None else local
  }

  /** What becomes of one name. */
  ghost function AppliedAt(list: Report, disk: Disk, m: Table, f: Answers, x: Path): Option<Node> {
    if x !in m then if Falls(list, m, x) then None else NodeAt(disk, x)
    else if m[x].stat.kind == File then FileResult(list, NodeAt(disk, x), x, m[x], f(x))
    else if x in disk || Made(list, m, m.Keys, x) then Some(Dir)
    else None
  }

  /** The directory after the table was applied. */
  ghost function Applied(list: Report, disk: Disk, m: Table, f: Answers): Disk {
    map x | x in disk.Keys + m.Keys && AppliedAt(list, disk, m, f, x).Some? :: AppliedAt(list, disk, m, f, x).value
  }

  lemma AppliedNode(list: Report, disk: Disk, m: Table, f: Answers, x: Path)
    ensures NodeAt(Applied(list, disk, m, f), x) == AppliedAt(list, disk, m, f, x)
  {
  }

  // ---------- the first loop ----------

  /** x falls with p, a name the table does not have. */
  predicate Gone(p: Path, m: Table, x: Path) {
    p !in m && p <= x
  }

  /** x has fallen with one of the first i listed names. */
  ghost predicate Fallen(files: seq<Entry>, i: nat, m: Table, x: Path)
    requires i <= |files|
  {
    exists j :: 0 <= j < i && Gone(files[j].name, m, x)
  }

  /** What the first loop has left when the first i listed names have been looked at. */
  ghost predicate Pruned(disk0: Disk, disk: Disk, m: Table, files: seq<Entry>, i: nat)
    requires i <= |files|
  {
    forall x :: NodeAt(disk, x) == if Fallen(files, i, m, x) then None else NodeAt(disk0, x)
  }

  lemma FallenNext(files: seq<Entry>, i: nat, m: Table, x: Path)
    requires i < |files|
    ensures Fallen(files, i + 1, m, x) <==> Fallen(files, i, m, x) || Gone(files[i].name, m, x)
  {
    if Gone(files[i].name, m, x) {
      assert Fallen(files, i + 1, m, x);
    }
    if Fallen(files, i, m, x) {
      var j :| 0 <= j < i && Gone(files[j].name, m, x);
      assert Fallen(files, i + 1, m, x);
    }
  }

  /** What lies below a fallen name has fallen. */
  lemma FallenBelow(files: seq<Entry>, i: nat, m: Table, p: Path, x: Path)
    requires i <= |files| && Fallen(files, i, m, p) && p <= x
    ensures Fallen(files, i, m, x)
  {
    var j :| 0 <= j < i && Gone(files[j].name, m, p);
    var q := files[j].name;
    assert q == p[..|q|] == x[..|q|];
    assert Gone(q, m, x);
  }

  function Prune(disk: Disk, p: Path, m: Table): Disk {
    if p in m then disk else SafeDelete(disk, p)
  }

  /** Nothing lies below a name that is not there. */
  lemma NothingBelow(disk: Disk, p: Path, x: Path)
    requires DiskOk(disk) && p != [] && p <= x && x in disk
    ensures p in disk
  {
    assert x[..|p|] == p;
    assert |p| < |x| ==> x[..|p|] in disk;
    assert |p| == |x| ==> p == x;
  }

  lemma PruneStep(disk0: Disk, disk: Disk, m: Table, files: seq<Entry>, i: nat)
    requires i < |files| && Pruned(disk0, disk, m, files, i) && files[i].name != [] && DiskOk(disk0)
    ensures Pruned(disk0, Prune(disk, files[i].name, m), m, files, i + 1)
  {
    hide Fallen, DiskOk;
    var p := files[i].name;
    forall x
      ensures NodeAt(Prune(disk, p, m), x) == if Fallen(files, i + 1, m, x) then None else NodeAt(disk0, x)
    {
      FallenNext(files, i, m, x);
      assert NodeAt(disk, x) == if Fallen(files, i, m, x) then None else NodeAt(disk0, x);
      assert NodeAt(disk, p) == if Fallen(files, i, m, p) then None else NodeAt(disk0, p);
      if p !in disk && p <= x {
        if Fallen(files, i, m, p) {
          FallenBelow(files, i, m, p, x);
        } else if x in disk0 {
          NothingBelow(disk0, p, x);
        }
      }
    }
  }

  lemma PruneStart(disk: Disk, m: Table, files: seq<Entry>)
    ensures Pruned(disk, disk, m, files, 0)
  {
  }

  /** A name of the list stands at some place in it. */
  lemma ListedAt(files: seq<Entry>, x: Path)
    ensures x in StatsOf(files) <==> IndexOf(files, x).Some?
    ensures x in StatsOf(files) <==> exists j :: 0 <= j < |files| && files[j].name == x
    ensures x in StatsOf(files) ==> StatsOf(files)[x] == files[IndexOf(files, x).value].info.stat
  {
    AbsAt(files, x);
  }

  lemma FallenAll(files: seq<Entry>, m: Table, x: Path)
    ensures Fallen(files, |files|, m, x) <==> Falls(StatsOf(files), m, x)
  {
    hide StatsOf;
    if Fallen(files, |files|, m, x) {
      var j :| 0 <= j < |files| && Gone(files[j].name, m, x);
      ListedAt(files, files[j].name);
    }
    if Falls(StatsOf(files), m, x) {
      var p :| p in StatsOf(files) && p !in m && p <= x;
      ListedAt(files, p);
      var j :| 0 <= j < |files| && files[j].name == p;
      assert Gone(files[j].name, m, x);
    }
  }

  /** After the first loop what was there is left, but for the subtrees of the listed names that
    * the table does not have. */
  lemma PruneEnd(disk0: Disk, disk: Disk, m: Table, files: seq<Entry>)
    requires Pruned(disk0, disk, m, files, |files|)
    ensures forall x :: NodeAt(disk, x) == if Falls(StatsOf(files), m, x) then None else NodeAt(disk0, x)
  {
    forall x
      ensures NodeAt(disk, x) == if Falls(StatsOf(files), m, x) then None else NodeAt(disk0, x)
    {
      FallenAll(files, m, x);
    }
  }

  /** No name of the table falls. */
  lemma NotFallen(list: Report, m: Table, x: Path)
    requires TableOk(m) && ListOk(list, m) && x in m
    ensures !Falls(list, m, x)
  {
    forall p | p in list && p <= x
      ensures p in m
    {
      assert p == x[..|p|];
      assert |p| < |x| ==> x[..|p|] in m;
      assert |p| == |x| ==> p == x;
    }
  }

  lemma FallsBelow(list: Report, m: Table, p: Path, x: Path)
    requires Falls(list, m, p) && p <= x
    ensures Falls(list, m, x)
  {
    var q :| q in list && q !in m && q <= p;
    assert q == p[..|q|] == x[..|q|];
  }

  /** What the first loop leaves is a proper directory. */
  lemma PrunedOk(list: Report, disk0: Disk, disk: Disk, m: Table)
    requires DiskOk(disk0) && SameTypes(disk0, m)
    requires forall x :: NodeAt(disk, x) == if Falls(list, m, x) then None else NodeAt(disk0, x)
    ensures DiskOk(disk) && SameTypes(disk, m)
  {
    hide Falls;
    forall x | x in disk
      ensures x in disk0 && disk[x] == disk0[x]
      ensures forall k :: 0 < k < |x| ==> x[..k] in disk
    {
      assert NodeAt(disk, x).Some?;
      forall k | 0 < k < |x|
        ensures x[..k] in disk
      {
        assert NodeAt(disk, x[..k]) == if Falls(list, m, x[..k]) then None else NodeAt(disk0, x[..k]);
        if Falls(list, m, x[..k]) {
          FallsBelow(list, m, x[..k], x);
        }
      }
    }
  }

  // ---------- the second loop ----------

  /** Where the second loop stands on one name, when it has looked at the names in `done`. */
  ghost function InstalledAt(list: Report, disk: Disk, m: Table, f: Answers, done: set<Path>, x: Path): Option<Node> {
    if x !in m then NodeAt(disk, x)
    else if m[x].stat.kind == File then
      if x in done then FileResult(list, NodeAt(disk, x), x, m[x], f(x)) else NodeAt(disk, x)
    else if x in disk || Made(list, m, done, x) then Some(Dir)
    else None
  }

  ghost predicate Installing(list: Report, disk1: Disk, disk: Disk, m: Table, f: Answers, done: set<Path>) {
    forall x :: NodeAt(disk, x) == InstalledAt(list, disk1, m, f, done, x)
  }

  /** What the folders made on the way to p add. */
  lemma {:induction false} FoldersMade(disk: Disk, p: Path, k: nat, x: Path)
    requires k <= |p|
    ensures NodeAt(MakeFolders(disk, p, k), x) ==
            if x !in disk && 0 < |x| <= k && x <= p then Some(Dir) else NodeAt(disk, x)
    decreases k
  {
    if k > 0 {
      FoldersMade(disk, p, k - 1, x);
      FoldersMade(disk, p, k - 1, p[..k]);
      assert x <= p && |x| == k ==> x == p[..k];
    }
  }

  /** What one round of the second loop does to the disk. */
  function Round(disk: Disk, list: Report, p: Path, e: Info, a: Answer): Disk {
    if !Handled(list, p, e) then disk
    else if p !in list then Install(disk, p, e, a)
    else Replace(disk, p, e, a)
  }

  lemma MadeNext(list: Report, m: Table, done: set<Path>, p: Path, x: Path)
    ensures Made(list, m, done + {p}, x) <==> Made(list, m, done, x) || (x <= p && Starts(list, m, p))
  {
    if Made(list, m, done + {p}, x) {
      var y :| y in done + {p} && x <= y && Starts(list, m, y);
    }
    if Made(list, m, done, x) {
      var y :| y in done && x <= y && Starts(list, m, y);
      assert y in done + {p};
    }
    assert p in done + {p};
  }

  /** What lies on the way to a name of the table is a folder of the table. */
  lemma OnTheWay(m: Table, p: Path, x: Path)
    requires TableOk(m) && p in m && x != [] && x <= p
    ensures x in m && (x != p ==> |x| < |p| && m[x].stat.kind == Folder)
    ensures x != p ==> x <= p[..|p| - 1]
  {
    assert x == p[..|x|];
    assert |x| == |p| ==> x == p;
  }

  /** Nothing lies below a file of the table. */
  lemma BelowFile(list: Report, disk1: Disk, disk: Disk, m: Table, f: Answers, done: set<Path>, p: Path, x: Path)
    requires TableOk(m) && DiskOk(disk1) && SameTypes(disk1, m) && Installing(list, disk1, disk, m, f, done)
    requires p in m && m[p].stat.kind == File && p <= x && x in disk
    ensures x == p
  {
    assert NodeAt(disk, x) == InstalledAt(list, disk1, m, f, done, x);
    assert p == x[..|p|];
    assert |p| == |x| ==> x == p;
    if x in m {
      OnTheWay(m, x, p);
    }
  }

  /** One more folder of the table, with the folders on the way to it. */
  lemma FolderResult(list: Report, disk1: Disk, disk: Disk, m: Table, f: Answers, done: set<Path>, p: Path, x: Path)
    requires TableOk(m) && SameTypes(disk1, m) && Installing(list, disk1, disk, m, f, done)
    requires p in m && m[p].stat.kind == Folder && p !in list
    ensures NodeAt(SafeAddFolder(disk, p), x) == InstalledAt(list, disk1, m, f, done + {p}, x)
  {
    assert NodeAt(disk, x) == InstalledAt(list, disk1, m, f, done, x);
    FoldersMade(disk, p, |p|, x);
    MadeNext(list, m, done, p, x);
    if x != [] && x <= p {
      OnTheWay(m, p, x);
    }
  }

  /** One more file; if it was listed, what was there has been deleted. */
  lemma FileDone(list: Report, disk1: Disk, disk: Disk, d: Disk, m: Table, f: Answers, done: set<Path>, p: Path,
                 x: Path)
    requires TableOk(m) && SameTypes(disk1, m) && Installing(list, disk1, disk, m, f, done)
    requires p in m && p !in done && m[p].stat.kind == File && Handled(list, p, m[p])
    requires NodeAt(d, x) == if x == p && p in list then None else NodeAt(disk, x)
    ensures NodeAt(Download(d, p, m[p], f(p)), x) == InstalledAt(list, disk1, m, f, done + {p}, x)
  {
    assert NodeAt(disk, x) == InstalledAt(list, disk1, m, f, done, x);
    assert p != [];
    FoldersMade(d, p, |p| - 1, x);
    MadeNext(list, m, done, p, x);
    if x != [] && x <= p {
      OnTheWay(m, p, x);
    }
  }

  lemma KindKnown(m: Table, x: Path)
    requires TableOk(m) && x in m
    ensures m[x].stat.kind != Other
  {
  }

  lemma SkipResult(list: Report, disk1: Disk, m: Table, f: Answers, done: set<Path>, p: Path, x: Path)
    requires p in m && !Handled(list, p, m[p])
    ensures InstalledAt(list, disk1, m, f, done, x) == InstalledAt(list, disk1, m, f, done + {p}, x)
  {
    MadeNext(list, m, done, p, x);
  }

  /** One round of the second loop finishes its name, and spoils no other. */
  lemma RoundResult(list: Report, disk1: Disk, disk: Disk, m: Table, f: Answers, done: set<Path>, p: Path)
    requires TableOk(m) && ListOk(list, m) && DiskOk(disk1) && SameTypes(disk1, m)
    requires Installing(list, disk1, disk, m, f, done) && p in m && p !in done
    ensures Installing(list, disk1, Round(disk, list, p, m[p], f(p)), m, f, done + {p})
  {
    hide TableOk, DiskOk, SameTypes, InstalledAt, SafeAddFolder, Download;
    var e := m[p];
    forall x
      ensures NodeAt(Round(disk, list, p, e, f(p)), x) == InstalledAt(list, disk1, m, f, done + {p}, x)
    {
      if !Handled(list, p, e) {
        SkipResult(list, disk1, m, f, done, p, x);
      } else if e.stat.kind == File {
        var d := if p in list then SafeDelete(disk, p) else disk;
        if p <= x && x in disk {
          BelowFile(list, disk1, disk, m, f, done, p, x);
        }
        FileDone(list, disk1, disk, d, m, f, done, p, x);
      } else {
        KindKnown(m, p);
        FolderResult(list, disk1, disk, m, f, done, p, x);
      }
    }
  }

  lemma StartInstalling(list: Report, disk1: Disk, m: Table, f: Answers)
    requires TableOk(m) && SameTypes(disk1, m)
    ensures Installing(list, disk1, disk1, m, f, {})
  {
  }

  /** When every name of the table is done, the table is applied. */
  lemma InstallEnd(list: Report, disk0: Disk, disk1: Disk, disk: Disk, m: Table, f: Answers)
    requires TableOk(m) && ListOk(list, m)
    requires forall x :: NodeAt(disk1, x) == if Falls(list, m, x) then None else NodeAt(disk0, x)
    requires Installing(list, disk1, disk, m, f, m.Keys)
    ensures disk == Applied(list, disk0, m, f)
  {
    forall x
      ensures NodeAt(disk, x) == NodeAt(Applied(list, disk0, m, f), x)
    {
      assert NodeAt(disk, x) == InstalledAt(list, disk1, m, f, m.Keys, x);
      assert NodeAt(disk1, x) == if Falls(list, m, x) then None else NodeAt(disk0, x);
      AppliedNode(list, disk0, m, f, x);
      if x in m {
        NotFallen(list, m, x);
      }
    }
    SameNodes(disk, Applied(list, disk0, m, f));
  }

  lemma FolderAbove(list: Report, disk: Disk, m: Table, f: Answers, x: Path, k: nat)
    requires TableOk(m) && ListOk(list, m) && DiskOk(disk) && SameTypes(disk, m)
    requires x in Applied(list, disk, m, f) && 0 < k < |x|
    ensures NodeAt(Applied(list, disk, m, f), x[..k]) == Some(Dir)
  {
    var p := x[..k];
    AppliedNode(list, disk, m, f, x);
    AppliedNode(list, disk, m, f, p);
    if x !in m {
      if Falls(list, m, p) {
        FallsBelow(list, m, p, x);
      }
    } else if x !in disk {
      if m[x].stat.kind == File {
        assert Starts(list, m, x);
        assert Made(list, m, m.Keys, p);
      } else {
        var y :| y in m.Keys && x <= y && Starts(list, m, y);
        assert p <= y by { assert p == y[..k]; }
        assert Made(list, m, m.Keys, p);
      }
    }
  }

  /** After the table was applied, the directory is again a proper directory. */
  lemma AppliedOk(list: Report, disk: Disk, m: Table, f: Answers)
    requires TableOk(m) && ListOk(list, m) && DiskOk(disk) && SameTypes(disk, m)
    ensures DiskOk(Applied(list, disk, m, f)) && SameTypes(Applied(list, disk, m, f), m)
  {
    hide Falls, Made, Handled;
    var out := Applied(list, disk, m, f);
    forall x | x in out
      ensures x != [] && Detector.Visible(x)
      ensures x in m ==> (out[x] == Dir <==> m[x].stat.kind == Folder)
    {
    }
    forall x, k | x in out && 0 < k < |x|
      ensures x[..k] in out && out[x[..k]] == Dir
    {
      FolderAbove(list, disk, m, f, x, k);
    }
  }

  // ---------- when the call ends, and what it finds to do ----------

  /** The download of x is started and never ends; with it the whole call never ends. */
  predicate Stuck(list: Report, m: Table, f: Answers, x: Path) {
    x in m && m[x].stat.kind == File && Handled(list, x, m[x]) && m[x].peers != [] && f(x) == NeverEnds
  }

  ghost predicate Finishes(list: Report, m: Table, f: Answers) {
    forall x :: !Stuck(list, m, f, x)
  }

  /** There is something to do: a listed name to delete, or a name to add or replace. */
  ghost predicate Finds(list: Report, m: Table) {
    (exists x :: x in list && x !in m) || (exists x :: x in m && Handled(list, x, m[x]))
  }

  /** If there is nothing to do, nothing is done. */
  lemma NothingFound(list: Report, disk: Disk, m: Table, f: Answers)
    requires TableOk(m) && ListOk(list, m) && SameTypes(disk, m) && !Finds(list, m)
    ensures Applied(list, disk, m, f) == disk && Finishes(list, m, f)
  {
    forall x
      ensures NodeAt(Applied(list, disk, m, f), x) == NodeAt(disk, x)
    {
      AppliedNode(list, disk, m, f, x);
      assert !Falls(list, m, x);
    }
    SameNodes(Applied(list, disk, m, f), disk);
  }

  /** x falls with a folder above it, if it is not listed itself. */
  lemma FallsAbove(list: Report, m: Table, x: Path)
    requires ListOk(list, m) && x !in list
    ensures Falls(list, m, x) <==> exists k :: 0 < k < |x| && x[..k] in list && x[..k] !in m
  {
    if Falls(list, m, x) {
      var p :| p in list && p !in m && p <= x;
      assert p == x[..|p|];
      assert |p| == |x| ==> p == x;
    }
  }

  /** What a list that lags does: a file saved since the last scan is overwritten if it is in the table
    * and can be had, and else stays, unless a listed folder above it is deleted; a file deleted
    * since is fetched again only for a newer version than the listed one; and a file changed
    * since, whatever its time, is replaced or lost if the table's version is newer than the
    * listed one, and else stays. */
  lemma LaggingList(list: Report, disk: Disk, m: Table, f: Answers, x: Path)
    requires TableOk(m) && ListOk(list, m) && (x in m ==> m[x].stat.kind == File)
    ensures var out := NodeAt(Applied(list, disk, m, f), x);
            && (x !in m && x !in list && x in disk ==>
                  (out == Some(disk[x]) || out == None) &&
                  (out == None <==> exists k :: 0 < k < |x| && x[..k] in list && x[..k] !in m))
            && (x in m && x !in list && x in disk ==>
                  out == if m[x].peers != [] && f(x).Saves? then Some(Plain(m[x].stat.timestamp, f(x).bytes))
                         else Some(disk[x]))
            && (x in m && x in list && m[x].stat.timestamp <= list[x].timestamp ==> out == NodeAt(disk, x))
            && (x in m && x in list && list[x].timestamp < m[x].stat.timestamp ==>
                  out == if m[x].peers != [] && f(x).Saves? then Some(Plain(m[x].stat.timestamp, f(x).bytes)) else None)
  {
    AppliedNode(list, disk, m, f, x);
    if x !in m && x !in list && x in disk {
      FallsAbove(list, m, x);
    }
  }

  // ---------- a list that is up to date ----------

  predicate Describes(stat: Stat, node: Node) {
    match node
    case Dir => stat.kind == Folder
    case Plain(ts, bytes) => stat == Stat(File, |bytes|, ts)
  }

  /** The list says what is on disk; the times it has for folders do not matter. */
  predicate UpToDate(list: Report, disk: Disk) {
    list.Keys == disk.Keys && forall x :: x in list ==> Describes(list[x], disk[x])
  }

  /** A file of the table that is missing here, or older than the table's. */
  predicate NeedsFetch(disk: Disk, m: Table, x: Path) {
    x in m && m[x].stat.kind == File &&
    (x !in disk || (disk[x].Plain? && disk[x].timestamp < m[x].stat.timestamp))
  }

  /** A name of the table that is handled: it is missing here, or older. */
  predicate Wants(disk: Disk, m: Table, x: Path) {
    x in m && (x !in disk || NeedsFetch(disk, m, x))
  }

  predicate Hangs(disk: Disk, m: Table, f: Answers, x: Path) {
    NeedsFetch(disk, m, x) && m[x].peers != [] && f(x) == NeverEnds
  }

  ghost predicate Ends(disk: Disk, m: Table, f: Answers) {
    forall x :: !Hangs(disk, m, f, x)
  }

  ghost predicate Updates(disk: Disk, m: Table) {
    (exists x :: x in disk && x !in m) || (exists x :: Wants(disk, m, x))
  }

  /** What becomes of one name of the table, given what was there before. */
  function Result(local: Option<Node>, e: Info, a: Answer): Option<Node> {
    match local
    case None => if e.stat.kind != File then Some(Dir) else Delivered(e, a)
    case Some(Dir) => Some(Dir)
    case Some(Plain(ts, _)) => if ts >= e.stat.timestamp then local else Delivered(e, a)
  }

  function Reconciled(disk: Disk, m: Table, f: Answers): Disk {
    map x | x in m && Result(NodeAt(disk, x), m[x], f(x)).Some? :: Result(NodeAt(disk, x), m[x], f(x)).value
  }

  lemma UpToDateOk(list: Report, disk: Disk, m: Table)
    requires UpToDate(list, disk) && SameTypes(disk, m) && DiskOk(disk)
    ensures ListOk(list, m)
  {
  }

  lemma UpToDateAt(list: Report, disk: Disk, m: Table, f: Answers, x: Path)
    requires UpToDate(list, disk) && TableOk(m) && SameTypes(disk, m) && x in m
    ensures Handled(list, x, m[x]) <==> Wants(disk, m, x)
    ensures Stuck(list, m, f, x) <==> Hangs(disk, m, f, x)
    ensures AppliedAt(list, disk, m, f, x) == Result(NodeAt(disk, x), m[x], f(x))
  {
    assert m[x].stat.kind == Folder && x !in disk ==> Starts(list, m, x);
  }

  lemma WantedInTable(disk: Disk, m: Table, x: Path)
    requires Wants(disk, m, x)
    ensures x in m
  {
  }

  /** While the list is up to date, the table's names are left, each with its own result; the call
    * ends, and finds something to do, as the directory says. */
  lemma UpToDateApplied(list: Report, disk: Disk, m: Table, f: Answers)
    requires UpToDate(list, disk) && TableOk(m) && SameTypes(disk, m)
    ensures Applied(list, disk, m, f) == Reconciled(disk, m, f)
    ensures Finishes(list, m, f) <==> Ends(disk, m, f)
    ensures Finds(list, m) <==> Updates(disk, m)
  {
    hide TableOk, SameTypes, Handled, Wants, Result, Describes;
    forall x | x in m
      ensures Handled(list, x, m[x]) <==> Wants(disk, m, x)
      ensures Stuck(list, m, f, x) <==> Hangs(disk, m, f, x)
      ensures AppliedAt(list, disk, m, f, x) == Result(NodeAt(disk, x), m[x], f(x))
    {
      UpToDateAt(list, disk, m, f, x);
    }
    forall x
      ensures NodeAt(Applied(list, disk, m, f), x) == NodeAt(Reconciled(disk, m, f), x)
    {
      AppliedNode(list, disk, m, f, x);
      if x in disk && x !in m {
        assert Falls(list, m, x);
      }
    }
    SameNodes(Applied(list, disk, m, f), Reconciled(disk, m, f));
    forall x | Wants(disk, m, x)
      ensures x in m
    {
      WantedInTable(disk, m, x);
    }
  }

  // ---------- what the result is worth ----------

  /** The bytes that the version of a file with this time has. */
  type Source = (Path, nat) -> seq<Files.byte>

  /** The bytes of the table's version of a file. */
  function Right(src: Source, m: Table, x: Path): seq<Files.byte>
    requires x in m
  {
    src(x, m[x].stat.timestamp)
  }

  /** Every file that has to be fetched has an owner, and its download brings the version. */
  ghost predicate CanFetch(disk: Disk, m: Table, src: Source, f: Answers) {
    forall x :: NeedsFetch(disk, m, x) ==> m[x].peers != [] && f(x) == Saves(Right(src, m, x))
  }

  /** The timestamp a file should end with: the newer of the local and the table's. */
  function NewerStamp(disk: Disk, m: Table, x: Path): nat
    requires x in m
  {
    if x in disk && disk[x].Plain? && disk[x].timestamp > m[x].stat.timestamp then disk[x].timestamp
    else m[x].stat.timestamp
  }

  /** The directory has what the table says of x, with the newer version if it is a file. */
  predicate FollowsAt(out: Disk, disk: Disk, m: Table, src: Source, x: Path)
    requires x in m && x in out
  {
    if m[x].stat.kind == Folder then out[x] == Dir
    else
      && out[x].Plain? && out[x].timestamp == NewerStamp(disk, m, x)
      && (NeedsFetch(disk, m, x) ==> out[x].bytes == Right(src, m, x))
  }

  /** The directory has the table's names, with the newer version of each file. */
  ghost predicate Follows(out: Disk, disk: Disk, m: Table, src: Source) {
    out.Keys == m.Keys && forall x :: x in m ==> FollowsAt(out, disk, m, src, x)
  }

  /** What becomes of one name, and when that is right. */
  lemma ReconciledAt(disk: Disk, m: Table, src: Source, f: Answers, x: Path)
    requires TableOk(m) && SameTypes(disk, m) && x in m
    ensures NodeAt(Reconciled(disk, m, f), x) == Result(NodeAt(disk, x), m[x], f(x))
    ensures NeedsFetch(disk, m, x) ==> NodeAt(Reconciled(disk, m, f), x) == Delivered(m[x], f(x))
    ensures x in Reconciled(disk, m, f) && FollowsAt(Reconciled(disk, m, f), disk, m, src, x)
            <==> (NeedsFetch(disk, m, x) ==> m[x].peers != [] && f(x) == Saves(Right(src, m, x)))
  {
    assert m[x].stat.kind != Other;
  }

  lemma NeededInTable(disk: Disk, m: Table, x: Path)
    requires NeedsFetch(disk, m, x)
    ensures x in m
  {
  }

  /** The call ends, and leaves the table's names and the newer version of each file, if and
    * only if every file to be fetched has an owner and its download brings the version.
    * A file for which there is no owner, or that is not saved, is missing afterwards, even if
    * it was there before in an older version. */
  lemma ReconciledExactly(disk: Disk, m: Table, src: Source, f: Answers)
    requires TableOk(m) && SameTypes(disk, m)
    ensures Ends(disk, m, f) && Follows(Reconciled(disk, m, f), disk, m, src) <==> CanFetch(disk, m, src, f)
    ensures forall x :: NeedsFetch(disk, m, x) && Delivered(m[x], f(x)) == None ==> x !in Reconciled(disk, m, f)
  {
    hide TableOk, SameTypes, FollowsAt, NeedsFetch;
    var out := Reconciled(disk, m, f);
    forall x | x in m
      ensures x in out && FollowsAt(out, disk, m, src, x) <==>
              (NeedsFetch(disk, m, x) ==> m[x].peers != [] && f(x) == Saves(Right(src, m, x)))
      ensures NeedsFetch(disk, m, x) ==> NodeAt(out, x) == Delivered(m[x], f(x))
    {
      ReconciledAt(disk, m, src, f, x);
    }
    forall x | NeedsFetch(disk, m, x)
      ensures x in m
    {
      NeededInTable(disk, m, x);
    }
    assert forall x :: x in out ==> x in m;
    if CanFetch(disk, m, src, f) {
      assert out.Keys == m.Keys;
    }
  }

  /** Everything needed was put in place, rightly or not. */
  ghost predicate Brought(disk: Disk, m: Table, f: Answers) {
    forall x :: NeedsFetch(disk, m, x) ==> Delivered(m[x], f(x)).Some?
  }

  lemma AgainAt(disk: Disk, m: Table, f: Answers, x: Path)
    requires TableOk(m) && SameTypes(disk, m) && x in m
    ensures var out := Reconciled(disk, m, f);
            && (x in out ==> (out[x] == Dir <==> m[x].stat.kind == Folder))
            && Result(NodeAt(out, x), m[x], f(x)) == Result(NodeAt(disk, x), m[x], f(x))
            && (Wants(out, m, x) <==> NeedsFetch(disk, m, x) && Delivered(m[x], f(x)).None?)
  {
    assert m[x].stat.kind != Other;
  }

  lemma SameTypesIf(disk: Disk, m: Table)
    requires forall x :: x in disk && x in m ==> (disk[x] == Dir <==> m[x].stat.kind == Folder)
    ensures SameTypes(disk, m)
  {
  }

  /** Applying the same table again finds nothing to do, and so leaves directory, list and scan
    * time alone, if and only if every file to be fetched was put in place. A file that could
    * not be had is tried again each time; one that came wrongly is not. With the same answers
    * the directory does not change in either case. */
  lemma AppliedAgain(disk: Disk, m: Table, f: Answers)
    requires TableOk(m) && SameTypes(disk, m)
    ensures SameTypes(Reconciled(disk, m, f), m)
    ensures Reconciled(Reconciled(disk, m, f), m, f) == Reconciled(disk, m, f)
    ensures !Updates(Reconciled(disk, m, f), m) <==> Brought(disk, m, f)
  {
    hide TableOk, SameTypes, Wants, NeedsFetch;
    var out := Reconciled(disk, m, f);
    forall x | x in m
      ensures x in out ==> (out[x] == Dir <==> m[x].stat.kind == Folder)
      ensures Result(NodeAt(out, x), m[x], f(x)) == Result(NodeAt(disk, x), m[x], f(x))
      ensures Wants(out, m, x) <==> NeedsFetch(disk, m, x) && Delivered(m[x], f(x)).None?
    {
      AgainAt(disk, m, f, x);
    }
    forall x | NeedsFetch(disk, m, x)
      ensures x in m
    {
      NeededInTable(disk, m, x);
    }
    forall x | Wants(out, m, x)
      ensures x in m
    {
      WantedInTable(out, m, x);
    }
    SameTypesIf(out, m);
    assert forall x :: x in out ==> x in m;
    if !Brought(disk, m, f) {
      var x :| NeedsFetch(disk, m, x) && Delivered(m[x], f(x)).None?;
      assert Wants(out, m, x);
    }
  }

  // ---------- scanning the directory ----------

  /** The modification time of a folder; only reports carry it. */
  function TimeOf(times: map<Path, nat>, x: Path): nat {
    if x in times then times[x] else 0
  }

  /** The directory as a scan sees it. */
  function Scanned(disk: Disk, times: map<Path, nat>): Detector.Disk {
    map x | x in disk ::
      match disk[x]
      case Dir => Detector.Attr(Folder, 0, TimeOf(times, x))
      case Plain(ts, bytes) => Detector.Attr(File, |bytes|, ts)
  }

  /** What a scan of the directory reports. */
  function ReportOf(disk: Disk, times: map<Path, nat>): Report {
    map x | x in disk ::
      match disk[x]
      case Dir => Stat(Folder, 0, TimeOf(times, x))
      case Plain(ts, bytes) => Stat(File, |bytes|, ts)
  }

  lemma ReportUpToDate(disk: Disk, times: map<Path, nat>)
    ensures UpToDate(ReportOf(disk, times), disk)
  {
  }

  lemma ScannedOk(disk: Disk, times: map<Path, nat>)
    requires DiskOk(disk)
    ensures Detector.DiskOk(Scanned(disk, times))
  {
    forall x | x in disk && Detector.Parent(x) != []
      ensures Detector.Parent(x) in disk && disk[Detector.Parent(x)] == Dir
    {
      assert x[..|x| - 1] == Detector.Parent(x);
    }
  }

  /** The entries of a client's list: scanned items, with the client as owner. */
  function EntriesOf(items: seq<Detector.Item>, me: IP): seq<Entry> {
    seq(|items|, i requires 0 <= i < |items| =>
      Entry(items[i].name, Info(Stat(items[i].attr.kind, items[i].attr.size, items[i].attr.mtime), [me])))
  }

  lemma EntryScanned(disk: Disk, times: map<Path, nat>, items: seq<Detector.Item>, me: IP, i: nat)
    requires Detector.ItemsAre(items, Detector.TableOf(Scanned(disk, times))) && i < |items|
    ensures var e := EntriesOf(items, me)[i];
            e.name == items[i].name && e.name in disk && e.info == Info(ReportOf(disk, times)[e.name], [me])
  {
    assert items[i] in items;
  }

  lemma ReportKeys(disk: Disk, times: map<Path, nat>, me: IP, x: Path)
    ensures x in disk <==> x in ReportOf(disk, times)
    ensures x in disk <==> x in AsTable(ReportOf(disk, times), me)
  {
  }

  lemma ItemFor(disk: Disk, times: map<Path, nat>, items: seq<Detector.Item>, me: IP, x: Path)
    requires DiskOk(disk) && Detector.ItemsAre(items, Detector.TableOf(Scanned(disk, times)))
    ensures x in disk ==> IndexOf(EntriesOf(items, me), x).Some?
  {
    if x in disk {
      var item := Detector.Item(x, Detector.TableOf(Scanned(disk, times))[x]);
      assert item in items;
      var i :| 0 <= i < |items| && items[i] == item;
      assert EntriesOf(items, me)[i].name == x;
    }
  }

  lemma ScannedEntry(disk: Disk, times: map<Path, nat>, items: seq<Detector.Item>, me: IP, x: Path)
    requires DiskOk(disk) && Detector.ItemsAre(items, Detector.TableOf(Scanned(disk, times)))
    ensures At(Abs(EntriesOf(items, me)), x) == At(AsTable(ReportOf(disk, times), me), x)
  {
    hide DiskOk, Detector.ItemsAre, Abs, ReportOf;
    var es := EntriesOf(items, me);
    AbsAt(es, x);
    ReportKeys(disk, times, me, x);
    ItemFor(disk, times, items, me, x);
    match IndexOf(es, x)
    case None =>
    case Some(k) => EntryScanned(disk, times, items, me, k);
  }

  /** A scanned list has each name once; as a table it is the report. */
  lemma ScanReports(disk: Disk, times: map<Path, nat>, items: seq<Detector.Item>, me: IP)
    requires DiskOk(disk) && Detector.ItemsAre(items, Detector.TableOf(Scanned(disk, times)))
    ensures Unique(EntriesOf(items, me))
    ensures Abs(EntriesOf(items, me)) == AsTable(ReportOf(disk, times), me)
  {
    hide DiskOk, Abs;
    var es := EntriesOf(items, me);
    forall x
      ensures At(Abs(es), x) == At(AsTable(ReportOf(disk, times), me), x)
    {
      ScannedEntry(disk, times, items, me, x);
    }
    SameAt(Abs(es), AsTable(ReportOf(disk, times), me));
  }

  lemma StatsReported(es: seq<Entry>, disk: Disk, times: map<Path, nat>, me: IP)
    requires Abs(es) == AsTable(ReportOf(disk, times), me)
    ensures StatsOf(es) == ReportOf(disk, times)
  {
  }

  // ---------- the procedure ----------

  /** The next entry of the table has a name of its own. */
  lemma NextName(server: seq<Entry>, j: nat)
    requires Unique(server) && TableOk(Abs(server)) && j < |server|
    ensures Names(server[..j + 1]) == Names(server[..j]) + {server[j].name}
    ensures server[j].name !in Names(server[..j]) && server[j].name != []
    ensures server[j].name in Abs(server) && Abs(server)[server[j].name] == server[j].info
  {
    assert server[..j + 1] == server[..j] + [server[j]];
    IndexUnique(server, j);
    AbsAt(server, server[j].name);
  }

  lemma AllNames(server: seq<Entry>)
    ensures Names(server) == Abs(server).Keys
  {
    forall x
      ensures x in Names(server) <==> x in Abs(server)
    {
      NamesLookup(server, x);
      AbsAt(server, x);
    }
  }

  /** Some of the first j names of the table is handled. */
  ghost predicate SomeHandled(list: Report, server: seq<Entry>, j: nat)
    requires j <= |server|
  {
    exists i :: 0 <= i < j && Handled(list, server[i].name, server[i].info)
  }

  lemma AnyHandled(list: Report, server: seq<Entry>)
    requires Unique(server) && TableOk(Abs(server))
    ensures SomeHandled(list, server, |server|) <==>
            exists x :: x in Abs(server) && Handled(list, x, Abs(server)[x])
  {
    hide Handled, TableOk, Abs;
    if x :| x in Abs(server) && Handled(list, x, Abs(server)[x]) {
      AllNames(server);
      assert x in Names(server);
      var e :| e in server && e.name == x;
      var i :| 0 <= i < |server| && server[i] == e;
      NextName(server, i);
      assert SomeHandled(list, server, |server|);
    }
    if SomeHandled(list, server, |server|) {
      var i :| 0 <= i < |server| && Handled(list, server[i].name, server[i].info);
      NextName(server, i);
    }
  }

  /** Some of the first i listed names is missing in the table. */
  ghost predicate SomeExtra(files: seq<Entry>, m: Table, i: nat)
    requires i <= |files|
  {
    exists j :: 0 <= j < i && files[j].name !in m
  }

  lemma AnyExtra(files: seq<Entry>, m: Table)
    ensures SomeExtra(files, m, |files|) <==> exists x :: x in StatsOf(files) && x !in m
  {
    hide StatsOf;
    if x :| x in StatsOf(files) && x !in m {
      ListedAt(files, x);
      var j :| 0 <= j < |files| && files[j].name == x;
      assert SomeExtra(files, m, |files|);
    }
    if SomeExtra(files, m, |files|) {
      var j :| 0 <= j < |files| && files[j].name !in m;
      ListedAt(files, files[j].name);
    }
  }

  lemma ListedName(files: seq<Entry>, m: Table, i: nat)
    requires ListOk(StatsOf(files), m) && i < |files|
    ensures files[i].name != []
  {
    ListedAt(files, files[i].name);
  }

  /** While a download goes on: what was listed is gone, anything else is as it was. */
  lemma WhileStuck(list: Report, disk0: Disk, disk1: Disk, disk: Disk, m: Table, f: Answers, done: set<Path>, p: Path)
    requires TableOk(m) && ListOk(list, m) && Stuck(list, m, f, p) && p in done
    requires forall x :: NodeAt(disk1, x) == if Falls(list, m, x) then None else NodeAt(disk0, x)
    requires Installing(list, disk1, disk, m, f, done)
    ensures NodeAt(disk, p) == if p in list then None else NodeAt(disk0, p)
  {
    assert NodeAt(disk, p) == InstalledAt(list, disk1, m, f, done, p);
    assert NodeAt(disk1, p) == if Falls(list, m, p) then None else NodeAt(disk0, p);
    NotFallen(list, m, p);
  }

  lemma NoneStuck(list: Report, server: seq<Entry>, f: Answers)
    requires forall i :: 0 <= i < |server| ==> !Stuck(list, Abs(server), f, server[i].name)
    ensures Finishes(list, Abs(server), f)
  {
    AllNames(server);
  }

  class Client {
    var disk: Disk                // the shared directory
    var files: seq<Entry>         // file_table
    var lastUpdate: nat           // last_table_update_time
    var updateEnable: bool
    const me: IP

    constructor (me: IP, disk: Disk, files: seq<Entry>)
      ensures this.me == me && this.disk == disk && this.files == files && lastUpdate == 0 && updateEnable
    {
      this.me, this.disk, this.files, lastUpdate, updateEnable := me, disk, files, 0, true;
    }

    /** Scans the directory into a new list. */
    method Rescan(times: map<Path, nat>) returns (es: seq<Entry>)
      requires DiskOk(disk)
      ensures Unique(es) && Abs(es) == AsTable(ReportOf(disk, times), me)
    {
      ScannedOk(disk, times);
      var items, changed := Detector.ScanFolder(Scanned(disk, times), [], TimeOf(times, []), lastUpdate);
      Detector.CollectedTable(Scanned(disk, times), items);
      ScanReports(disk, times, items, me);
      es := EntriesOf(items, me);
    }

    /** Is the name in the list? */
    method FindEntry(es: seq<Entry>, x: Path) returns (k: int)
      ensures if k == -1 then IndexOf(es, x) == None else 0 <= k && IndexOf(es, x) == Some(k)
    {
      k := 0;
      while k < |es|
        invariant 0 <= k <= |es|
        invariant forall j :: 0 <= j < k ==> es[j].name != x
      {
        if es[k].name == x { return; }
        k := k + 1;
      }
      k := -1;
    }

    /** One round of the first loop. */
    method PruneNext(server: seq<Entry>, name: Path) returns (updated: bool)
      modifies this`disk
      ensures disk == Prune(old(disk), name, Abs(server))
      ensures updated <==> name !in Abs(server)
    {
      updated := false;
      var k := FindEntry(server, name);
      AbsAt(server, name);
      if k == -1 {
        updated := true;
        disk := SafeDelete(disk, name);
      }
    }

    /** First loop of sync_with_server: what is listed and the table does not have is deleted. */
    method PruneLoop(server: seq<Entry>) returns (updated: bool)
      requires DiskOk(disk) && ListOk(StatsOf(files), Abs(server))
      modifies this`disk
      ensures forall x :: NodeAt(disk, x) ==
                if Falls(StatsOf(files), Abs(server), x) then None else NodeAt(old(disk), x)
      ensures updated <==> exists x :: x in StatsOf(files) && x !in Abs(server)
    {
      hide Pruned, DiskOk, Prune, Abs, StatsOf, ListOk, NodeAt;
      updated := false;
      ghost var m, disk0 := Abs(server), disk;
      var i := 0;
      PruneStart(disk, m, files);
      while i < |files|
        invariant 0 <= i <= |files|
        invariant Pruned(disk0, disk, m, files, i)
        invariant updated <==> SomeExtra(files, m, i)
      {
        ListedName(files, m, i);
        PruneStep(disk0, disk, m, files, i);
        var u := PruneNext(server, files[i].name);
        updated := updated || u;
        i := i + 1;
      }
      PruneEnd(disk0, disk, m, files);
      AnyExtra(files, m);
    }

    /** One round of the second loop; `a` is the answer of the download, if one is started. */
    method InstallNext(e: Entry, a: Answer) returns (updated: bool, ended: bool)
      requires e.name != []
      modifies this`disk
      ensures disk == Round(old(disk), StatsOf(files), e.name, e.info, a)
      ensures updated <==> Handled(StatsOf(files), e.name, e.info)
      ensures ended <==> !(updated && e.info.stat.kind == File && e.info.peers != [] && a == NeverEnds)
    {
      updated := false;
      var k := FindEntry(files, e.name);
      ListedAt(files, e.name);
      if k == -1 {
        updated := true;
        disk := Install(disk, e.name, e.info, a);
      } else if files[k].info.stat.timestamp < e.info.stat.timestamp {
        if files[k].info.stat.kind != Folder || e.info.stat.kind != Folder {
          updated := true;
          disk := SafeDelete(disk, e.name);
          if e.info.stat.kind == Folder {
            disk := SafeAddFolder(disk, e.name);
          } else {
            disk := Download(disk, e.name, e.info, a);
          }
        }
      }
      ended := !(updated && e.info.stat.kind == File && e.info.peers != [] && a == NeverEnds);
    }

    /** The same, seen from the whole loop. */
    method InstallRound(server: seq<Entry>, f: Answers, j: nat, ghost disk1: Disk) returns (updated: bool, ended: bool)
      requires Unique(server) && TableOk(Abs(server)) && j < |server|
      requires ListOk(StatsOf(files), Abs(server)) && DiskOk(disk1) && SameTypes(disk1, Abs(server))
      requires Installing(StatsOf(files), disk1, disk, Abs(server), f, Names(server[..j]))
      modifies this`disk
      ensures Installing(StatsOf(files), disk1, disk, Abs(server), f, Names(server[..j + 1]))
      ensures updated <==> Handled(StatsOf(files), server[j].name, server[j].info)
      ensures ended <==> !Stuck(StatsOf(files), Abs(server), f, server[j].name)
    {
      hide Installing, SameTypes, DiskOk, ListOk, Abs, StatsOf, Round, TableOk, Handled, Names, Unique;
      NextName(server, j);
      RoundResult(StatsOf(files), disk1, disk, Abs(server), f, Names(server[..j]), server[j].name);
      updated, ended := InstallNext(server[j], f(server[j].name));
    }

    /** Second loop of sync_with_server: what is not listed is added, what is listed as older is
      * replaced. It stays at the first download that never ends. */
    method InstallLoop(server: seq<Entry>, f: Answers)
      returns (updated: bool, ended: bool, ghost done: set<Path>, ghost at: Path)
      requires Unique(server) && TableOk(Abs(server))
      requires ListOk(StatsOf(files), Abs(server)) && DiskOk(disk) && SameTypes(disk, Abs(server))
      modifies this`disk
      ensures ended <==> Finishes(StatsOf(files), Abs(server), f)
      ensures Installing(StatsOf(files), old(disk), disk, Abs(server), f, done)
      ensures ended ==> done == Abs(server).Keys
      ensures ended ==> (updated <==> exists x :: x in Abs(server) && Handled(StatsOf(files), x, Abs(server)[x]))
      ensures !ended ==> at in done && Stuck(StatsOf(files), Abs(server), f, at)
    {
      hide Installing, SameTypes, DiskOk, ListOk, Abs, StatsOf, TableOk, Handled, Unique, Stuck;
      updated, at := false, [];
      var j := 0;
      ghost var list, disk1, m := StatsOf(files), disk, Abs(server);
      StartInstalling(list, disk, m, f);
      assert Names(server[..0]) == {};
      while j < |server|
        invariant 0 <= j <= |server| && StatsOf(files) == list
        invariant Installing(list, disk1, disk, m, f, Names(server[..j]))
        invariant updated <==> SomeHandled(list, server, j)
        invariant forall i :: 0 <= i < j ==> !Stuck(list, m, f, server[i].name)
      {
        var u, e := InstallRound(server, f, j, disk1);
        if !e {
          NextName(server, j);
          return true, false, Names(server[..j + 1]), server[j].name;
        }
        updated := updated || u;
        j := j + 1;
      }
      assert server[..j] == server;
      done := Names(server);
      AllNames(server);
      AnyHandled(list, server);
      NoneStuck(list, server, f);
      ended := true;
    }

    /** sync_with_server: `f` holds the answers of the downloads, `times` the folders' times when
      * the directory is scanned again. `ended` says whether the call ends; if not, scans stay
      * switched off for ever, and a file that was listed in an older version is gone. */
    method SyncWithServer(server: seq<Entry>, f: Answers, times: map<Path, nat>) returns (ended: bool)
      requires Unique(server) && TableOk(Abs(server))
      requires DiskOk(disk) && SameTypes(disk, Abs(server)) && ListOk(StatsOf(files), Abs(server))
      modifies this
      ensures ended <==> Finishes(StatsOf(old(files)), Abs(server), f)
      ensures ended ==> disk == Applied(StatsOf(old(files)), old(disk), Abs(server), f) && updateEnable
      ensures ended ==>
                if Finds(StatsOf(old(files)), Abs(server))
                then Unique(files) && Abs(files) == AsTable(ReportOf(disk, times), me) && lastUpdate == 0 &&
                     UpToDate(StatsOf(files), disk)
                else disk == old(disk) && files == old(files) && lastUpdate == old(lastUpdate)
      ensures !ended ==>
                && !updateEnable && files == old(files) && lastUpdate == old(lastUpdate)
                && exists x :: Stuck(StatsOf(files), Abs(server), f, x) &&
                               NodeAt(disk, x) == if x in StatsOf(files) then None else NodeAt(old(disk), x)
    {
      hide Abs, StatsOf, TableOk, DiskOk, SameTypes, ListOk, Applied, Installing, Handled, NodeAt, ReportOf, Stuck;
      updateEnable := false;
      ghost var list, m, disk0 := StatsOf(files), Abs(server), disk;
      var pruned := PruneLoop(server);
      ghost var disk1 := disk;
      PrunedOk(list, disk0, disk1, m);
      var installed;
      ghost var done, at;
      installed, ended, done, at := InstallLoop(server, f);
      if !ended {
        WhileStuck(list, disk0, disk1, disk, m, f, done, at);
        return;
      }
      InstallEnd(list, disk0, disk1, disk, m, f);
      if pruned || installed {
        AppliedOk(list, disk0, m, f);
        files := Rescan(times);
        StatsReported(files, disk, times, me);
        ReportUpToDate(disk, times);
        lastUpdate := 0;
      } else {
        NothingFound(list, disk0, m, f);
      }
      updateEnable := true;
    }
  }
}
