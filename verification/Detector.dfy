/** How a client notices local changes: a scan of the directory compares modification times with
  * the time of the last scan (file_table_update and its helper in utils/file_monitor.c; the
  * synchronisation switches scans off while it works). Scans are atomic, the directory exists,
  * a change of a file sets its time to the clock, and creating or deleting an entry sets the
  * time of its directory. */
module Detector {
  import opened Sets
  import opened Tables
  import TempName

  datatype Attr = Attr(kind: Kind, size: int, mtime: nat)

  type Disk = map<Path, Attr>

  /** Names that start with "." or end with "~" are skipped. */
  predicate Shown(name: string) {
    name != [] && name[0] != '.' && name[|name| - 1] != '~'
  }

  predicate Visible(x: Path) {
    forall k :: 0 <= k < |x| ==> Shown(x[k])
  }

  function Parent(x: Path): Path
    requires x != []
  {
    x[..|x| - 1]
  }

  /** Every entry lies in a folder of the directory or in the directory itself, the path []. */
  predicate DiskOk(disk: Disk) {
    forall x :: x in disk ==> x != [] && (Parent(x) != [] ==> Parent(x) in disk && disk[Parent(x)].kind == Folder)
  }

  /** What a scan lists of an entry: a size only for files. */
  function Listed(a: Attr): Attr {
    if a.kind == File then a else a.(size := 0)
  }

  /** The table a scan builds. */
  function TableOf(disk: Disk): Disk {
    map x | x in disk && Visible(x) :: Listed(disk[x])
  }

  // ---------- the scan ----------

  /** An entry a scan of the folder `dir` comes to. */
  predicate Seen(disk: Disk, dir: Path, x: Path) {
    x in disk && dir <= x && |dir| < |x| && Visible(x[|dir|..])
  }

  /** An entry whose time says that it changed; only files and folders are looked at. */
  predicate Fresh(disk: Disk, x: Path, last: nat) {
    x in disk && disk[x].kind != Other && last <= disk[x].mtime
  }

  datatype Item = Item(name: Path, attr: Attr)

  /** The entries directly in a folder. */
  function Children(disk: Disk, dir: Path): set<Path> {
    set x | x in disk && |x| == |dir| + 1 && x[..|dir|] == dir
  }

  function Below(disk: Disk, dir: Path): set<Path> {
    set x | x in disk && dir <= x && |dir| < |x|
  }

  /** The folder of `dir` through which an entry is reached. */
  function Head(dir: Path, x: Path): Path
    requires |dir| < |x|
  {
    x[..|dir| + 1]
  }

  lemma {:induction false} Ancestors(disk: Disk, x: Path, k: nat)
    requires DiskOk(disk) && x in disk && 0 < k <= |x|
    ensures x[..k] in disk && (k < |x| ==> disk[x[..k]].kind == Folder)
    decreases |x|
  {
    if k == |x| {
      assert x[..k] == x;
    } else {
      assert Parent(x)[..k] == x[..k];
      if k < |x| - 1 {
        Ancestors(disk, Parent(x), k);
      }
    }
  }

  /** What is seen below a folder through one child: the child, and what is seen below it. */
  lemma SeenThrough(disk: Disk, dir: Path, x: Path, y: Path)
    requires DiskOk(disk) && x in Children(disk, dir)
    ensures Seen(disk, dir, y) && Head(dir, y) == x <==>
            Shown(x[|dir|]) && (y == x || (disk[x].kind == Folder && Seen(disk, x, y)))
  {
    if y in disk && dir <= y && |dir| < |y| && Head(dir, y) == x {
      Ancestors(disk, y, |dir| + 1);
      assert y[|dir|..] == [x[|dir|]] + y[|dir| + 1..];
      assert x == y[..|x|];
    }
    if Seen(disk, x, y) {
      assert x == y[..|x|];
      assert dir == x[..|dir|] == y[..|dir|];
      assert y[|dir|..] == [x[|dir|]] + y[|x|..];
    }
  }

  /** The items name, once each, the entries seen through the children in `done`. */
  ghost predicate Collected(disk: Disk, dir: Path, done: set<Path>, items: seq<Item>) {
    && (forall i, j :: 0 <= i < j < |items| ==> items[i].name != items[j].name)
    && (forall e :: e in items ==>
          Seen(disk, dir, e.name) && Head(dir, e.name) in done && e.attr == Listed(disk[e.name]))
    && (forall x :: Seen(disk, dir, x) && Head(dir, x) in done ==> Item(x, Listed(disk[x])) in items)
  }

  /** Something seen through the children in `done` is fresh. */
  ghost predicate SomeFresh(disk: Disk, dir: Path, done: set<Path>, last: nat) {
    exists x :: Seen(disk, dir, x) && Head(dir, x) in done && Fresh(disk, x, last)
  }

  /** Everything seen below a folder is seen through one of its children. */
  lemma ThroughChildren(disk: Disk, dir: Path, x: Path)
    requires DiskOk(disk) && Seen(disk, dir, x)
    ensures Head(dir, x) in Children(disk, dir)
  {
    Ancestors(disk, x, |dir| + 1);
    assert Head(dir, x)[..|dir|] == x[..|dir|];
  }

  lemma ChildHead(disk: Disk, dir: Path, x: Path)
    requires x in Children(disk, dir)
    ensures x in disk && |dir| < |x| && Head(dir, x) == x
  {
  }

  lemma OutDistinct(disk: Disk, dir: Path, done: set<Path>, items: seq<Item>, x: Path, sub: seq<Item>, i: nat, j: nat)
    requires DiskOk(disk) && x in Children(disk, dir) && x !in done && Shown(x[|dir|])
    requires Collected(disk, dir, done, items)
    requires if disk[x].kind == Folder then Collected(disk, x, Children(disk, x), sub) else sub == []
    requires i < j < |items| + 1 + |sub|
    ensures (items + [Item(x, Listed(disk[x]))] + sub)[i].name != (items + [Item(x, Listed(disk[x]))] + sub)[j].name
  {
    hide Children, Visible;
    ChildHead(disk, dir, x);
    var out := items + [Item(x, Listed(disk[x]))] + sub;
    if |items| < j {
      assert out[j] == sub[j - |items| - 1] && out[j] in sub;
      SeenThrough(disk, dir, x, out[j].name);
    }
    if i < |items| {
      assert out[i] == items[i] && out[i] in items;
    }
    if j < |items| {
      assert out[j] == items[j];
    }
    if |items| < i {
      assert out[i] == sub[i - |items| - 1];
    }
  }

  /** One child's contribution to the items. */
  lemma CollectChild(disk: Disk, dir: Path, done: set<Path>, items: seq<Item>, x: Path, sub: seq<Item>)
    requires DiskOk(disk) && x in Children(disk, dir) && x !in done && Shown(x[|dir|])
    requires Collected(disk, dir, done, items)
    requires if disk[x].kind == Folder then Collected(disk, x, Children(disk, x), sub) else sub == []
    ensures Collected(disk, dir, done + {x}, items + [Item(x, Listed(disk[x]))] + sub)
  {
    var out := items + [Item(x, Listed(disk[x]))] + sub;
    forall e | e in out
      ensures Seen(disk, dir, e.name) && Head(dir, e.name) in done + {x} && e.attr == Listed(disk[e.name])
    {
      SeenThrough(disk, dir, x, e.name);
    }
    forall y | Seen(disk, dir, y) && Head(dir, y) in done + {x}
      ensures Item(y, Listed(disk[y])) in out
    {
      if Head(dir, y) == x {
        SeenThrough(disk, dir, x, y);
        if y != x {
          ThroughChildren(disk, x, y);
        }
      }
    }
    forall i, j | 0 <= i < j < |out|
      ensures out[i].name != out[j].name
    {
      OutDistinct(disk, dir, done, items, x, sub, i, j);
    }
  }

  lemma FreshChild(disk: Disk, dir: Path, done: set<Path>, x: Path, last: nat)
    requires DiskOk(disk) && x in Children(disk, dir)
    ensures SomeFresh(disk, dir, done + {x}, last) <==>
            || SomeFresh(disk, dir, done, last)
            || (Shown(x[|dir|]) &&
                (Fresh(disk, x, last) || (disk[x].kind == Folder && SomeFresh(disk, x, Children(disk, x), last))))
  {
    SeenThrough(disk, dir, x, x);
    assert Head(dir, x) == x;
    if SomeFresh(disk, dir, done + {x}, last) {
      var y :| Seen(disk, dir, y) && Head(dir, y) in done + {x} && Fresh(disk, y, last);
      if Head(dir, y) == x {
        SeenThrough(disk, dir, x, y);
        if y != x { ThroughChildren(disk, x, y); }
      }
    }
    if Shown(x[|dir|]) && disk[x].kind == Folder && SomeFresh(disk, x, Children(disk, x), last) {
      var y :| Seen(disk, x, y) && Head(x, y) in Children(disk, x) && Fresh(disk, y, last);
      SeenThrough(disk, dir, x, y);
    }
  }

  lemma BelowShrinks(disk: Disk, dir: Path, x: Path)
    requires x in Children(disk, dir)
    ensures |Below(disk, x)| < |Below(disk, dir)|
  {
    forall y | y in Below(disk, x)
      ensures y in Below(disk, dir)
    {
      assert dir == x[..|dir|] == y[..|dir|];
    }
    assert x in Below(disk, dir) && x !in Below(disk, x);
    SubsetSize(Below(disk, x), Below(disk, dir) - {x});
  }

  /** One entry of a directory: a file's time is compared, a folder is scanned. */
  method ScanEntry(disk: Disk, dir: Path, x: Path, last: nat) returns (sub: seq<Item>, updated: bool)
    requires DiskOk(disk) && x in Children(disk, dir)
    ensures if disk[x].kind == Folder then Collected(disk, x, Children(disk, x), sub) else sub == []
    ensures updated <==> Fresh(disk, x, last) || (disk[x].kind == Folder && SomeFresh(disk, x, Children(disk, x), last))
    decreases |Below(disk, dir)|, 0
  {
    sub, updated := [], false;
    if disk[x].kind == File {
      updated := last <= disk[x].mtime;
    } else if disk[x].kind == Folder {
      BelowShrinks(disk, dir, x);
      sub, updated := ScanFolder(disk, x, disk[x].mtime, last);
    }
  }

  lemma SkipChild(disk: Disk, dir: Path, done: set<Path>, items: seq<Item>, x: Path)
    requires DiskOk(disk) && x in Children(disk, dir) && !Shown(x[|dir|])
    requires Collected(disk, dir, done, items)
    ensures Collected(disk, dir, done + {x}, items)
  {
    forall y | Seen(disk, dir, y) && Head(dir, y) in done + {x}
      ensures Item(y, Listed(disk[y])) in items
    {
      SeenThrough(disk, dir, x, y);
    }
  }

  lemma NothingYet(disk: Disk, dir: Path, last: nat)
    ensures Collected(disk, dir, {}, []) && !SomeFresh(disk, dir, {}, last)
  {
  }

  lemma ChildLength(disk: Disk, dir: Path, x: Path)
    requires x in Children(disk, dir)
    ensures x in disk && |x| == |dir| + 1
  {
  }

  /** Something below the folder is fresh if and only if a file or folder that is seen there has a
    * time that is not before the last scan. */
  lemma FreshTimes(disk: Disk, dir: Path, last: nat)
    requires DiskOk(disk)
    ensures SomeFresh(disk, dir, Children(disk, dir), last) <==>
            exists x :: Seen(disk, dir, x) && disk[x].kind != Other && last <= disk[x].mtime
  {
    if x :| Seen(disk, dir, x) && disk[x].kind != Other && last <= disk[x].mtime {
      ThroughChildren(disk, dir, x);
    }
  }

  /** file_table_update_helper: appends the entries seen below a folder, in the order of the
    * directory, and tells whether the folder or one of them changed since the last scan. */
  method ScanFolder(disk: Disk, dir: Path, dirTime: nat, last: nat) returns (items: seq<Item>, updated: bool)
    requires DiskOk(disk)
    ensures Collected(disk, dir, Children(disk, dir), items)
    ensures updated <==> last <= dirTime || SomeFresh(disk, dir, Children(disk, dir), last)
    ensures updated <==>
            || last <= dirTime
            || exists x :: Seen(disk, dir, x) && disk[x].kind != Other && last <= disk[x].mtime
    decreases |Below(disk, dir)|, 1
  {
    hide Collected, SomeFresh, Fresh, DiskOk, Below, Children, Shown, Seen;
    items := [];
    updated := last <= dirTime;
    NothingYet(disk, dir, last);
    var todo := Children(disk, dir);
    ghost var done: set<Path> := {};
    while todo != {}
      invariant todo !! done && todo + done == Children(disk, dir)
      invariant Collected(disk, dir, done, items)
      invariant updated <==> last <= dirTime || SomeFresh(disk, dir, done, last)
      decreases |todo|
    {
      var x :| x in todo;
      ChildLength(disk, dir, x);
      FreshChild(disk, dir, done, x, last);
      if Shown(x[|dir|]) {
        var sub, u := ScanEntry(disk, dir, x, last);
        CollectChild(disk, dir, done, items, x, sub);
        items := items + [Item(x, Listed(disk[x]))] + sub;
        updated := u || updated;
      } else {
        SkipChild(disk, dir, done, items, x);
      }
      todo := todo - {x};
      done := done + {x};
    }
    assert done == Children(disk, dir);
    FreshTimes(disk, dir, last);
  }

  // ---------- file_table_update ----------

  /** The scan of the whole directory finds a change. */
  ghost predicate Noticed(disk: Disk, rootTime: nat, last: nat) {
    last <= rootTime || exists x :: Visible(x) && Fresh(disk, x, last)
  }

  lemma NoticedFromRoot(disk: Disk, last: nat)
    requires DiskOk(disk)
    ensures SomeFresh(disk, [], Children(disk, []), last) <==> exists x :: Visible(x) && Fresh(disk, x, last)
  {
    if x :| Visible(x) && Fresh(disk, x, last) {
      assert x[0..] == x;
      assert Seen(disk, [], x);
      ThroughChildren(disk, [], x);
    }
    if SomeFresh(disk, [], Children(disk, []), last) {
      var x :| Seen(disk, [], x) && Fresh(disk, x, last);
      assert x[0..] == x;
      assert Visible(x);
    }
  }

  /** The items are the table: each entry of it once. */
  ghost predicate ItemsAre(items: seq<Item>, table: Disk) {
    && (forall i, j :: 0 <= i < j < |items| ==> items[i].name != items[j].name)
    && (forall e :: e in items <==> e.name in table && e.attr == table[e.name])
  }

  lemma CollectedTable(disk: Disk, items: seq<Item>)
    requires DiskOk(disk) && Collected(disk, [], Children(disk, []), items)
    ensures ItemsAre(items, TableOf(disk))
  {
    forall e
      ensures e in items <==> e.name in TableOf(disk) && e.attr == TableOf(disk)[e.name]
    {
      var x := e.name;
      assert x[0..] == x;
      if x in TableOf(disk) {
        assert Seen(disk, [], x);
        ThroughChildren(disk, [], x);
      }
    }
  }

  class Monitor {
    var fileTable: seq<Item>
    var lastTableUpdateTime: nat
    var updateEnable: bool

    constructor ()
      ensures fileTable == [] && lastTableUpdateTime == 0 && updateEnable
    {
      fileTable, lastTableUpdateTime, updateEnable := [], 0, true;
    }

    method FileTableUpdate(disk: Disk, rootTime: nat, now: nat) returns (isUpdated: bool)
      requires DiskOk(disk)
      modifies this
      ensures updateEnable == old(updateEnable)
      ensures updateEnable ==>
                && isUpdated == Noticed(disk, rootTime, old(lastTableUpdateTime))
                && (isUpdated <==>
                      || old(lastTableUpdateTime) <= rootTime
                      || exists x :: x in disk && Visible(x) && disk[x].kind != Other &&
                                     old(lastTableUpdateTime) <= disk[x].mtime)
                && ItemsAre(fileTable, TableOf(disk))
                && lastTableUpdateTime == now
      ensures !updateEnable ==>
                !isUpdated && fileTable == old(fileTable) && lastTableUpdateTime == old(lastTableUpdateTime)
    {
      if updateEnable {
        fileTable, isUpdated := ScanFolder(disk, [], rootTime, lastTableUpdateTime);
        NoticedFromRoot(disk, lastTableUpdateTime);
        CollectedTable(disk, fileTable);
        lastTableUpdateTime := now;
      } else {
        isUpdated := false;
      }
    }
  }

  // ---------- runs ----------

  /** `reported` is the table last sent to the tracker; `dirty` says that the synchronisation
    * that is going on has changed something. */
  datatype State = State(disk: Disk, rootTime: nat, clock: nat, last: nat, reported: Disk, enabled: bool, dirty: bool)

  datatype Step =
    | Tick(d: nat)
    | Modify(x: Path, size: int)
    | Create(x: Path, kind: Kind, size: int)
    | Remove(x: Path)
    | Scan                                     // and report, if a change was found
    | SyncBegin
    | SyncWrite(disk: Disk, rootTime: nat)     // the synchronisation changes the directory
    | SyncEnd

  function Touch(s: State, dir: Path, disk: Disk): State {
    if dir == [] then s.(disk := disk, rootTime := s.clock)
    else if dir in disk then s.(disk := disk[dir := disk[dir].(mtime := s.clock)])
    else s.(disk := disk)
  }

  ghost predicate Enabled(s: State, step: Step) {
    match step
    case Tick(_) => true
    case Modify(x, _) => x in s.disk && s.disk[x].kind != Folder
    case Create(x, _, _) =>
      x != [] && x !in s.disk && (Parent(x) != [] ==> Parent(x) in s.disk && s.disk[Parent(x)].kind == Folder)
    case Remove(x) => x in s.disk
    case Scan => s.enabled
    case SyncBegin => s.enabled
    case SyncWrite(disk, _) => !s.enabled && DiskOk(disk)
    case SyncEnd => !s.enabled
  }

  ghost function Apply(s: State, step: Step): State
    requires DiskOk(s.disk)
    requires Enabled(s, step)
  {
    match step
    case Tick(d) => s.(clock := s.clock + d)
    case Modify(x, size) => s.(disk := s.disk[x := Attr(s.disk[x].kind, size, s.clock)])
    case Create(x, kind, size) => Touch(s, Parent(x), s.disk[x := Attr(kind, size, s.clock)])
    case Remove(x) => Touch(s, Parent(x), map y | y in s.disk && !(x <= y) :: s.disk[y])
    case Scan =>
      s.(last := s.clock, reported := if Noticed(s.disk, s.rootTime, s.last) then TableOf(s.disk) else s.reported)
    case SyncBegin => s.(enabled := false, dirty := false)
    case SyncWrite(disk, rootTime) => s.(disk := disk, rootTime := rootTime, dirty := true)
    case SyncEnd => s.(enabled := true, dirty := false, last := if s.dirty then 0 else s.last)
  }

  /** Whatever the tracker has not been told will be noticed. */
  ghost predicate Inv(s: State) {
    && DiskOk(s.disk)
    && s.last <= s.clock
    && (s.enabled ==> !s.dirty)
    && (s.dirty || s.reported == TableOf(s.disk) || Noticed(s.disk, s.rootTime, s.last))
  }

  /** What made the old state noticed is still there. */
  lemma StillNoticed(s: State, s': State)
    requires Noticed(s.disk, s.rootTime, s.last) || s.reported == TableOf(s.disk) || s.dirty
    requires s'.last == s.last && s'.reported == s.reported && s'.dirty == s.dirty && s.rootTime <= s'.rootTime
    requires TableOf(s'.disk) == TableOf(s.disk)
    ensures s'.dirty || s'.reported == TableOf(s'.disk) || Noticed(s'.disk, s'.rootTime, s'.last)
  {
    if x :| Visible(x) && Fresh(s.disk, x, s.last) {
      assert x in TableOf(s.disk) && TableOf(s'.disk)[x] == Listed(s.disk[x]);
      assert Fresh(s'.disk, x, s'.last);
    }
  }

  lemma KeepsModify(s: State, x: Path, size: int)
    requires Inv(s) && Enabled(s, Modify(x, size)) && s.disk[x].kind == File
    ensures Inv(Apply(s, Modify(x, size)))
  {
    var s' := Apply(s, Modify(x, size));
    if Visible(x) {
      assert Fresh(s'.disk, x, s'.last);
    } else {
      assert TableOf(s'.disk) == TableOf(s.disk);
      StillNoticed(s, s');
    }
  }

  /** A directory whose time is set to the clock is noticed, if it is visible; an invisible one
    * shows nothing. */
  lemma TouchNoticed(s: State, dir: Path, disk: Disk)
    requires s.last <= s.clock && Visible(dir)
    requires dir != [] ==> dir in disk && disk[dir].kind == Folder
    ensures Noticed(Touch(s, dir, disk).disk, Touch(s, dir, disk).rootTime, Touch(s, dir, disk).last)
  {
    var s' := Touch(s, dir, disk);
    if dir != [] {
      assert Fresh(s'.disk, dir, s'.last);
    }
  }

  lemma TouchHidden(s: State, dir: Path, disk: Disk)
    requires !Visible(dir)
    ensures TableOf(Touch(s, dir, disk).disk) == TableOf(disk) && Touch(s, dir, disk).rootTime == s.rootTime
  {
  }

  lemma TouchOk(s: State, dir: Path, disk: Disk)
    requires DiskOk(disk)
    ensures DiskOk(Touch(s, dir, disk).disk)
    ensures var s' := Touch(s, dir, disk);
            s' == s.(disk := s'.disk, rootTime := s'.rootTime)
  {
  }

  lemma VisibleParent(x: Path)
    requires x != [] && Visible(x)
    ensures Visible(Parent(x))
  {
  }

  lemma KeepsCreate(s: State, x: Path, kind: Kind, size: int)
    requires Inv(s) && Enabled(s, Create(x, kind, size))
    ensures Inv(Apply(s, Create(x, kind, size)))
  {
    var disk := s.disk[x := Attr(kind, size, s.clock)];
    var s' := Apply(s, Create(x, kind, size));
    TouchOk(s, Parent(x), disk);
    if Visible(Parent(x)) {
      TouchNoticed(s, Parent(x), disk);
    } else {
      TouchHidden(s, Parent(x), disk);
      assert !Visible(x) by { if Visible(x) { VisibleParent(x); } }
      assert TableOf(disk) == TableOf(s.disk);
      StillNoticed(s, s');
    }
  }

  /** A subtree below an invisible folder is invisible. */
  lemma HiddenSubtree(disk: Disk, x: Path)
    requires x != [] && !Visible(Parent(x))
    ensures TableOf(map y | y in disk && !(x <= y) :: disk[y]) == TableOf(disk)
  {
    var k :| 0 <= k < |Parent(x)| && !Shown(Parent(x)[k]);
    forall y | x <= y
      ensures !Visible(y)
    {
      assert y[k] == x[k] == Parent(x)[k];
    }
  }

  lemma UnderParent(x: Path, y: Path)
    requires y != []
    ensures x <= Parent(y) ==> x <= y
  {
    if x <= Parent(y) {
      assert Parent(y)[..|x|] == y[..|x|];
    }
  }

  lemma RemoveOk(disk: Disk, x: Path)
    requires DiskOk(disk) && x in disk
    ensures DiskOk(map y | y in disk && !(x <= y) :: disk[y])
    ensures !(x <= Parent(x))
  {
    forall y | y in disk && !(x <= y)
      ensures !(x <= Parent(y))
    {
      UnderParent(x, y);
    }
  }

  lemma KeepsRemove(s: State, x: Path)
    requires Inv(s) && Enabled(s, Remove(x))
    ensures Inv(Apply(s, Remove(x)))
  {
    var disk := map y | y in s.disk && !(x <= y) :: s.disk[y];
    var s' := Apply(s, Remove(x));
    RemoveOk(s.disk, x);
    TouchOk(s, Parent(x), disk);
    if Visible(Parent(x)) {
      TouchNoticed(s, Parent(x), disk);
    } else {
      TouchHidden(s, Parent(x), disk);
      HiddenSubtree(s.disk, x);
      StillNoticed(s, s');
    }
  }

  /** A step whose change will be found: every step, except that a change of an entry that is
    * neither file nor folder is found only if a change is found anyway or a synchronisation
    * will reset the time, or if the change does not show in the table. */
  ghost predicate Findable(s: State, step: Step) {
    step.Modify? && step.x in s.disk && s.disk[step.x].kind == Other ==>
      s.dirty || Noticed(s.disk, s.rootTime, s.last) || !Visible(step.x) || s.disk[step.x].mtime == s.clock
  }

  /** Changing a link changes neither what is noticed nor, if it is hidden or its time stays,
    * the table. */
  lemma ModifyLink(s: State, x: Path, size: int)
    requires Inv(s) && Enabled(s, Modify(x, size)) && s.disk[x].kind == Other
    ensures Inv(Apply(s, Modify(x, size))) <==> Findable(s, Modify(x, size))
  {
    var s' := Apply(s, Modify(x, size));
    assert Noticed(s'.disk, s'.rootTime, s'.last) <==> Noticed(s.disk, s.rootTime, s.last) by {
      forall y
        ensures Fresh(s'.disk, y, s'.last) <==> Fresh(s.disk, y, s.last)
      {
      }
    }
    if !Visible(x) || s.disk[x].mtime == s.clock {
      assert TableOf(s'.disk) == TableOf(s.disk);
    } else {
      assert TableOf(s'.disk)[x] != TableOf(s.disk)[x];
    }
  }

  /** A step keeps everything unreported noticeable if and only if its change will be found. */
  lemma StepKeepsExactly(s: State, step: Step)
    requires Inv(s) && Enabled(s, step)
    ensures Inv(Apply(s, step)) <==> Findable(s, step)
  {
    match step
    case Modify(x, size) =>
      if s.disk[x].kind == File {
        KeepsModify(s, x, size);
      } else {
        ModifyLink(s, x, size);
      }
    case Create(x, kind, size) => KeepsCreate(s, x, kind, size);
    case Remove(x) => KeepsRemove(s, x);
    case _ =>
  }

  ghost predicate CanRun(s: State, steps: seq<Step>)
    decreases |steps|
  {
    steps == [] || (DiskOk(s.disk) && Enabled(s, steps[0]) && CanRun(Apply(s, steps[0]), steps[1..]))
  }

  ghost function Run(s: State, steps: seq<Step>): State
    requires CanRun(s, steps)
    decreases |steps|
  {
    if steps == [] then s else Run(Apply(s, steps[0]), steps[1..])
  }

  ghost predicate AllFindable(s: State, steps: seq<Step>)
    requires CanRun(s, steps)
    decreases |steps|
  {
    steps == [] || (Findable(s, steps[0]) && AllFindable(Apply(s, steps[0]), steps[1..]))
  }

  lemma {:induction false} RunKeeps(s: State, steps: seq<Step>)
    requires Inv(s) && CanRun(s, steps) && AllFindable(s, steps)
    ensures Inv(Run(s, steps))
    decreases |steps|
  {
    if steps != [] {
      StepKeepsExactly(s, steps[0]);
      RunKeeps(Apply(s, steps[0]), steps[1..]);
    }
  }

  /** When a client starts: nothing reported, last time 0. */
  function Start(disk: Disk, rootTime: nat, clock: nat): State {
    State(disk, rootTime, clock, 0, map[], true, false)
  }

  /** No local change is lost: in every run of findable steps, whenever scans are on and the
    * tracker has not been told the present table, the next scan finds a change and reports
    * exactly that table. */
  lemma {:induction false} NoLostChange(disk: Disk, rootTime: nat, clock: nat, steps: seq<Step>)
    requires DiskOk(disk) && CanRun(Start(disk, rootTime, clock), steps)
    requires AllFindable(Start(disk, rootTime, clock), steps)
    ensures var s := Run(Start(disk, rootTime, clock), steps);
            s.enabled ==>
              && Enabled(s, Scan) && DiskOk(s.disk)
              && (s.reported != TableOf(s.disk) ==> Noticed(s.disk, s.rootTime, s.last))
              && Apply(s, Scan).reported == TableOf(s.disk)
  {
    RunKeeps(Start(disk, rootTime, clock), steps);
  }

  /** The tracker has not been told the present table, and nothing will tell it. */
  ghost predicate Lost(s: State) {
    !s.dirty && s.reported != TableOf(s.disk) && !Noticed(s.disk, s.rootTime, s.last)
  }

  /** What else the invariant says survives every step. */
  lemma StepSound(s: State, step: Step)
    requires Inv(s) && Enabled(s, step)
    ensures var s' := Apply(s, step); DiskOk(s'.disk) && s'.last <= s'.clock && (s'.enabled ==> !s'.dirty)
  {
    match step
    case Create(x, kind, size) => TouchOk(s, Parent(x), s.disk[x := Attr(kind, size, s.clock)]);
    case Remove(x) =>
      RemoveOk(s.disk, x);
      TouchOk(s, Parent(x), map y | y in s.disk && !(x <= y) :: s.disk[y]);
    case _ =>
  }

  /** And only then: after any run of findable steps, one more step loses a change if and only
    * if it is not findable. */
  lemma {:induction false} LostExactly(disk: Disk, rootTime: nat, clock: nat, steps: seq<Step>, step: Step)
    requires DiskOk(disk) && CanRun(Start(disk, rootTime, clock), steps)
    requires AllFindable(Start(disk, rootTime, clock), steps)
    requires Enabled(Run(Start(disk, rootTime, clock), steps), step)
    ensures var s := Run(Start(disk, rootTime, clock), steps);
            DiskOk(s.disk) && (Lost(Apply(s, step)) <==> !Findable(s, step))
  {
    var s := Run(Start(disk, rootTime, clock), steps);
    RunKeeps(Start(disk, rootTime, clock), steps);
    StepKeepsExactly(s, step);
    StepSound(s, step);
  }

  predicate Idle(step: Step) {
    step.Tick? || step.Scan?
  }

  /** A lost change stays lost, however often the directory is scanned, until something else
    * changes. */
  lemma {:induction false} StaysLost(s: State, steps: seq<Step>)
    requires DiskOk(s.disk) && Lost(s) && s.last <= s.clock && CanRun(s, steps)
    requires forall k :: 0 <= k < |steps| ==> Idle(steps[k])
    ensures Lost(Run(s, steps)) && Run(s, steps).disk == s.disk && Run(s, steps).reported == s.reported
    decreases |steps|
  {
    if steps != [] {
      assert Idle(steps[0]);
      var s' := Apply(s, steps[0]);
      assert forall x :: Fresh(s'.disk, x, s'.last) ==> Fresh(s.disk, x, s.last);
      StaysLost(s', steps[1..]);
    }
  }

  lemma RunFour(s: State, a: Step, b: Step, c: Step, d: Step)
    requires DiskOk(s.disk) && Enabled(s, a) && DiskOk(Apply(s, a).disk) && Enabled(Apply(s, a), b)
    requires DiskOk(Apply(Apply(s, a), b).disk) && Enabled(Apply(Apply(s, a), b), c)
    requires DiskOk(Apply(Apply(Apply(s, a), b), c).disk) && Enabled(Apply(Apply(Apply(s, a), b), c), d)
    ensures CanRun(s, [a, b, c, d])
    ensures Run(s, [a, b, c, d]) == Apply(Apply(Apply(Apply(s, a), b), c), d)
  {
    assert [a, b, c, d][1..] == [b, c, d] && [b, c, d][1..] == [c, d] && [c, d][1..] == [d] && [d][1..] == [];
    var s3 := Apply(Apply(Apply(s, a), b), c);
    assert CanRun(Apply(s3, d), []) && Run(Apply(s3, d), []) == Apply(s3, d);
    assert CanRun(s3, [d]) && Run(s3, [d]) == Apply(s3, d);
    assert CanRun(Apply(Apply(s, a), b), [c, d]) && Run(Apply(Apply(s, a), b), [c, d]) == Run(s3, [d]);
    assert CanRun(Apply(s, a), [b, c, d]) && Run(Apply(s, a), [b, c, d]) == Run(Apply(Apply(s, a), b), [c, d]);
  }

  /** It happens: a link is made and reported, and a later change of it is lost. */
  lemma LinkChangeIsLost(name: string)
    requires Shown(name)
    ensures var steps := [Create([name], Other, 1), Tick(2), Scan, Modify([name], 2)];
            CanRun(Start(map[], 0, 5), steps) && Lost(Run(Start(map[], 0, 5), steps))
  {
    var x := [name];
    var s0 := Start(map[], 0, 5);
    var s1 := Apply(s0, Create(x, Other, 1));
    var s2 := Apply(s1, Tick(2));
    assert Parent(x) == [] && Visible(x);
    assert s2 == State(map[x := Attr(Other, 1, 5)], 5, 7, 0, map[], true, false);
    var s3 := Apply(s2, Scan);
    RunFour(s0, Create(x, Other, 1), Tick(2), Scan, Modify(x, 2));
    var s4 := Apply(s3, Modify(x, 2));
    assert s3.reported[x] == Attr(Other, 0, 5);
    assert TableOf(s4.disk)[x] == Attr(Other, 0, 7);
  }

  // ---------- no false alarm ----------

  /** Every time is before the last scan. */
  predicate AllBefore(disk: Disk, rootTime: nat, last: nat) {
    rootTime < last && forall x :: x in disk ==> disk[x].mtime < last
  }

  /** Then a scan finds nothing. */
  lemma NothingNoticed(disk: Disk, rootTime: nat, last: nat)
    requires AllBefore(disk, rootTime, last)
    ensures !Noticed(disk, rootTime, last)
  {
  }

  /** Time passes, the directory is scanned, or a table is applied that finds nothing to do. */
  predicate ChangesNothing(step: Step) {
    step.Tick? || step.Scan? || step.SyncBegin? || step.SyncEnd?
  }

  /** No false alarm: once every time is before the last scan, no scan finds a change and nothing is
    * reported, as long as neither the user nor a synchronisation changes anything. */
  lemma {:induction false} NoFalseAlarm(s: State, steps: seq<Step>)
    requires CanRun(s, steps) && forall k :: 0 <= k < |steps| ==> ChangesNothing(steps[k])
    requires AllBefore(s.disk, s.rootTime, s.last) && s.last <= s.clock && !s.dirty
    ensures var s' := Run(s, steps);
            && s'.disk == s.disk && s'.reported == s.reported && s.last <= s'.last <= s'.clock && !s'.dirty
            && !Noticed(s'.disk, s'.rootTime, s'.last)
    decreases |steps|
  {
    NothingNoticed(s.disk, s.rootTime, s.last);
    if steps != [] {
      assert ChangesNothing(steps[0]);
      NoFalseAlarm(Apply(s, steps[0]), steps[1..]);
    }
  }

  /** A scan at a clock behind every time brings this about; it reports the directory if it has
    * found anything. */
  lemma ScanSettles(s: State)
    requires s.enabled && !s.dirty && DiskOk(s.disk) && AllBefore(s.disk, s.rootTime, s.clock)
    ensures var s' := Apply(s, Scan);
            && AllBefore(s'.disk, s'.rootTime, s'.last) && s'.last <= s'.clock && !s'.dirty
            && s'.reported == if Noticed(s.disk, s.rootTime, s.last) then TableOf(s.disk) else s.reported
  {
  }

  /** A synchronisation switches scans off until it ends; then the time of the last scan is reset if it
    * has changed something, and else kept. What the tracker was told stays. */
  lemma SyncSwitches(s: State, step: Step)
    requires DiskOk(s.disk) && Enabled(s, step) && (step.SyncBegin? || step.SyncWrite? || step.SyncEnd?)
    ensures var s' := Apply(s, step);
            && (Enabled(s', Scan) <==> step.SyncEnd?)
            && (Enabled(s', SyncEnd) <==> !step.SyncEnd?)
            && (s'.dirty <==> step.SyncWrite?)
            && s'.last == (if step.SyncEnd? && s.dirty then 0 else s.last)
            && s'.reported == s.reported && s'.clock == s.clock
            && (!step.SyncWrite? ==> s'.disk == s.disk && s'.rootTime == s.rootTime)
  {
  }

  // ---------- what is hidden, and what the user's changes are ----------

  /** Temporary files, and names that start with a dot, are in no scan. */
  lemma HiddenNames(disk: Disk, dir: Path, name: string, start: int, len: int, timestamp: nat)
    ensures dir + [TempName.Print(name, start, len, timestamp)] !in TableOf(disk)
    ensures dir + ["." + name] !in TableOf(disk)
    ensures name != [] && name[0] != '.' && name[|name| - 1] != '~' && Visible(dir) && dir + [name] in disk ==>
              dir + [name] in TableOf(disk)
  {
    var temp := TempName.Print(name, start, len, timestamp);
    TempName.PrintEnds(name, start, len, timestamp);
    assert (dir + [temp])[|dir|] == temp && (dir + ["." + name])[|dir|] == "." + name;
  }

  /** The user's changes are what their names say: one entry with the present time, or a subtree
    * gone; besides only the time of the folder around it changes. */
  lemma UserChanges(s: State, step: Step, y: Path)
    requires DiskOk(s.disk) && Enabled(s, step) && (step.Modify? || step.Create? || step.Remove?)
    ensures var s' := Apply(s, step);
            && (y in s'.disk <==> (y in s.disk || (step.Create? && y == step.x)) && !(step.Remove? && step.x <= y))
            && (y in s.disk && y in s'.disk && y != step.x ==>
                  s'.disk[y].kind == s.disk[y].kind && s'.disk[y].size == s.disk[y].size &&
                  s'.disk[y].mtime == if !step.Modify? && y == Parent(step.x) then s.clock else s.disk[y].mtime)
            && (!step.Remove? ==> s'.disk[step.x].mtime == s.clock && s'.disk[step.x].size == step.size)
            && (step.Create? ==> s'.disk[step.x].kind == step.kind)
            && (step.Modify? ==> s'.disk[step.x].kind == s.disk[step.x].kind)
            && s'.rootTime == (if !step.Modify? && |step.x| == 1 then s.clock else s.rootTime)
            && s'.clock == s.clock && s'.last == s.last && s'.reported == s.reported
            && s'.enabled == s.enabled && s'.dirty == s.dirty
  {
    if step.Remove? {
      RemoveOk(s.disk, step.x);
    }
  }
}
