/** Reports and tables on their way: each client's reports reach the tracker in order, and each
  * table the tracker broadcasts waits in every client's queue until the client applies it, by the
  * list of its last scan (src/server.c and the client's side of utils/file_monitor.c). What that
  * does to a file that has just been saved. */
module Delivery {
  import opened Wrappers
  import opened Tables
  import opened Reconcile
  import opened Fetching
  import Detector
  import Files
  import Partition
  import Tracker

  /** A connected client: its directory, the list of its last scan, the reports it has sent and
    * the tables sent to it. */
  datatype Client = Client(disk: Disk, listed: Report, up: seq<Report>, down: seq<Table>)

  datatype World = World(tracker: Tracker.State, clients: map<IP, Client>)

  datatype Step =
    | Edit(ip: IP, disk: Disk)                           // the user changes the directory
    | Scan(ip: IP, times: map<Path, nat>, tell: bool)    // the client scans, and may report
    | Merge(ip: IP)                                      // the tracker merges the next report and broadcasts
    | Follow(ip: IP, f: Answers, times: map<Path, nat>)  // the client applies the next table, and that ends
    | Join(ip: IP, disk: Disk)
    | Leave(ip: IP)

  /** The next table is one that the client's directory and list fit. */
  predicate Applicable(c: Client) {
    c.down != [] && TableOk(c.down[0]) && ListOk(c.listed, c.down[0]) && SameTypes(c.disk, c.down[0])
  }

  /** The client after it has applied the next table: if it found something to do it has scanned
    * again. */
  ghost function Followed(c: Client, f: Answers, times: map<Path, nat>): Client
    requires c.down != []
  {
    var disk := Applied(c.listed, c.disk, c.down[0], f);
    c.(disk := disk, listed := if Finds(c.listed, c.down[0]) then ReportOf(disk, times) else c.listed,
       down := c.down[1..])
  }

  /** The next report of a client merged into the tracker's table. */
  function MergedState(w: World, ip: IP): Tracker.State
    requires ip in w.clients && w.clients[ip].up != []
  {
    Tracker.Apply(w.tracker, Tracker.FileUpdate(ip, w.clients[ip].up[0]))
  }

  /** Every client is sent the table. */
  function Broadcast(clients: map<IP, Client>, t: Table): map<IP, Client> {
    map p | p in clients :: clients[p].(down := clients[p].down + [t])
  }

  ghost predicate Enabled(w: World, step: Step) {
    match step
    case Edit(ip, disk) => ip in w.clients && DiskOk(disk)
    case Scan(ip, _, _) => ip in w.clients
    case Merge(ip) => ip in w.clients && w.clients[ip].up != []
    case Follow(ip, f, _) =>
      && ip in w.clients && Applicable(w.clients[ip])
      && Finishes(w.clients[ip].listed, w.clients[ip].down[0], f)
    case Join(ip, disk) => ip !in w.clients && DiskOk(disk) && Tracker.Enabled(w.tracker, Tracker.Connect(ip))
    case Leave(ip) => ip in w.clients
  }

  ghost function Apply(w: World, step: Step): World
    requires Enabled(w, step)
  {
    match step
    case Edit(ip, disk) => w.(clients := w.clients[ip := w.clients[ip].(disk := disk)])
    case Scan(ip, times, tell) =>
      var c := w.clients[ip];
      var r := ReportOf(c.disk, times);
      w.(clients := w.clients[ip := c.(listed := r, up := if tell then c.up + [r] else c.up)])
    case Merge(ip) =>
      var s, c := MergedState(w, ip), w.clients[ip];
      World(s, Broadcast(w.clients[ip := c.(up := c.up[1..])], s.table))
    case Follow(ip, f, times) => w.(clients := w.clients[ip := Followed(w.clients[ip], f, times)])
    case Join(ip, disk) =>
      World(Tracker.Apply(w.tracker, Tracker.Connect(ip)), w.clients[ip := Client(disk, map[], [], [])])
    case Leave(ip) =>
      World(Tracker.Apply(w.tracker, Tracker.Disconnect(ip)), w.clients - {ip})
  }

  ghost predicate CanRun(w: World, steps: seq<Step>)
    decreases |steps|
  {
    steps == [] || (Enabled(w, steps[0]) && CanRun(Apply(w, steps[0]), steps[1..]))
  }

  ghost function Run(w: World, steps: seq<Step>): World
    requires CanRun(w, steps)
    decreases |steps|
  {
    if steps == [] then w else Run(Apply(w, steps[0]), steps[1..])
  }

  // ---------- the tracker in it is the tracker ----------

  /** What a step means to the tracker. */
  function EventsOf(w: World, step: Step): seq<Tracker.Event> {
    match step
    case Merge(ip) =>
      if ip in w.clients && w.clients[ip].up != [] then [Tracker.FileUpdate(ip, w.clients[ip].up[0])] else []
    case Join(ip, _) => [Tracker.Connect(ip)]
    case Leave(ip) => [Tracker.Disconnect(ip)]
    case _ => []
  }

  ghost function AllEvents(w: World, steps: seq<Step>): seq<Tracker.Event>
    requires CanRun(w, steps)
    decreases |steps|
  {
    if steps == [] then [] else EventsOf(w, steps[0]) + AllEvents(Apply(w, steps[0]), steps[1..])
  }

  lemma StepOfTracker(w: World, step: Step, evs: seq<Tracker.Event>)
    requires Enabled(w, step) && w.tracker.connected == w.clients.Keys
    requires Tracker.CanRun(Apply(w, step).tracker, evs)
    ensures Apply(w, step).tracker.connected == Apply(w, step).clients.Keys
    ensures Tracker.CanRun(w.tracker, EventsOf(w, step) + evs)
    ensures Tracker.Run(w.tracker, EventsOf(w, step) + evs) == Tracker.Run(Apply(w, step).tracker, evs)
  {
    var now := EventsOf(w, step);
    if now == [] {
      assert now + evs == evs;
    } else {
      Tracker.RunCons(w.tracker, now[0], evs);
    }
  }

  lemma Connected(w: World, step: Step)
    requires Enabled(w, step) && w.tracker.connected == w.clients.Keys
    ensures Apply(w, step).tracker.connected == Apply(w, step).clients.Keys
  {
  }

  /** In every run the tracker does a run of its own, of the reports in the order in which they come
    * out of the queues, and of the connections and disconnects; the clients are those that are
    * connected. So all that Tracker says of its runs holds here. */
  lemma {:induction false} TrackerRuns(w: World, steps: seq<Step>)
    requires CanRun(w, steps) && w.tracker.connected == w.clients.Keys
    ensures var evs := AllEvents(w, steps);
            && Tracker.CanRun(w.tracker, evs)
            && Tracker.Run(w.tracker, evs) == Run(w, steps).tracker
            && Run(w, steps).tracker.connected == Run(w, steps).clients.Keys
    decreases |steps|
  {
    hide Enabled, Apply, EventsOf;
    if steps != [] {
      Connected(w, steps[0]);
      TrackerRuns(Apply(w, steps[0]), steps[1..]);
      StepOfTracker(w, steps[0], AllEvents(Apply(w, steps[0]), steps[1..]));
    }
  }

  /** What a step does to the queues: a scan that tells adds the report of the directory, a merge takes
    * the first report off and adds its table to the queue of every client, whoever reported, and
    * a client applies its tables in order. Nothing is lost and nobody else's queue changes. */
  lemma Queues(w: World, step: Step, p: IP)
    requires Enabled(w, step) && p in w.clients && p in Apply(w, step).clients
    ensures var c, c' := w.clients[p], Apply(w, step).clients[p];
            && c'.up == (match step
                         case Scan(ip, times, tell) =>
                           if ip == p && tell then c.up + [ReportOf(c.disk, times)] else c.up
                         case Merge(ip) => if ip == p then c.up[1..] else c.up
                         case _ => c.up)
            && c'.down == (match step
                           case Merge(ip) => c.down + [Apply(w, step).tracker.table]
                           case Follow(ip, _, _) => if ip == p then c.down[1..] else c.down
                           case _ => c.down)
            && (c'.disk != c.disk ==> (step.Edit? || step.Follow?) && step.ip == p)
            && (c'.listed != c.listed ==> (step.Scan? || step.Follow?) && step.ip == p)
  {
  }

  /** A client that joins has scanned nothing yet, and nothing is on its way; one that leaves takes its
    * queues with it. */
  lemma Newcomer(w: World, ip: IP, disk: Disk)
    ensures Enabled(w, Join(ip, disk)) ==>
              Apply(w, Join(ip, disk)).clients.Keys == w.clients.Keys + {ip} &&
              Apply(w, Join(ip, disk)).clients[ip] == Client(disk, map[], [], [])
    ensures Enabled(w, Leave(ip)) ==> Apply(w, Leave(ip)).clients.Keys == w.clients.Keys - {ip}
  {
  }

  /** The list after a table was applied: as it was if there was nothing to do by it, and the directory
    * too; else up to date. */
  lemma FollowedList(c: Client, f: Answers, times: map<Path, nat>)
    requires Applicable(c)
    ensures var c' := Followed(c, f, times);
            if Finds(c.listed, c.down[0]) then UpToDate(c'.listed, c'.disk)
            else c'.listed == c.listed && c'.disk == c.disk
  {
    if Finds(c.listed, c.down[0]) {
      ReportUpToDate(Followed(c, f, times).disk, times);
    } else {
      NothingFound(c.listed, c.disk, c.down[0], f);
    }
  }

  // ---------- a file that only one client has ----------

  predicate TablesLack(ts: seq<Table>, x: Path) {
    forall k :: 0 <= k < |ts| ==> x !in ts[k]
  }

  predicate ReportsLack(rs: seq<Report>, x: Path) {
    forall k :: 0 <= k < |rs| ==> x !in rs[k]
  }

  /** The list has of x only what is there, and what was reported of x is still listed while x is
    * there. */
  predicate Consistent(c: Client, x: Path) {
    && (x in c.listed ==> x in c.disk && Describes(c.listed[x], c.disk[x]))
    && (x in c.disk ==>
          forall k :: 0 <= k < |c.up| && x in c.up[k] ==> x in c.listed && Describes(c.up[k][x], c.disk[x]))
  }

  /** Nobody but the client ip has heard of x: no other directory, no table and no report of
    * anyone else; reports of its own may be on their way. */
  ghost predicate Unheard(w: World, ip: IP, x: Path) {
    && ip in w.clients && x !in w.tracker.table && Consistent(w.clients[ip], x)
    && forall p :: p in w.clients ==>
         && TablesLack(w.clients[p].down, x)
         && (p != ip ==> x !in w.clients[p].disk && ReportsLack(w.clients[p].up, x))
  }

  /** The step is not about x: the user leaves x as it is, nobody else makes a file of that name,
    * the client stays, and the report that is merged, if any, does not have x. */
  ghost predicate NotAbout(w: World, step: Step, ip: IP, x: Path) {
    match step
    case Edit(p, disk) =>
      if p == ip then ip in w.clients && NodeAt(disk, x) == NodeAt(w.clients[ip].disk, x) else x !in disk
    case Merge(p) => p in w.clients && w.clients[p].up != [] && x !in w.clients[p].up[0]
    case Join(_, disk) => x !in disk
    case Leave(p) => p != ip
    case _ => true
  }

  ghost predicate AllNotAbout(w: World, steps: seq<Step>, ip: IP, x: Path)
    requires CanRun(w, steps)
    decreases |steps|
  {
    steps == [] || (NotAbout(w, steps[0], ip, x) && AllNotAbout(Apply(w, steps[0]), steps[1..], ip, x))
  }

  /** The client applies a table while it lists x, or a folder above x that the table lacks. */
  ghost predicate Loses(w: World, step: Step, ip: IP, x: Path) {
    step.Follow? && step.ip == ip && ip in w.clients && w.clients[ip].down != [] &&
    Falls(w.clients[ip].listed, w.clients[ip].down[0], x)
  }

  ghost predicate NoneLoses(w: World, steps: seq<Step>, ip: IP, x: Path)
    requires CanRun(w, steps)
    decreases |steps|
  {
    steps == [] || (!Loses(w, steps[0], ip, x) && NoneLoses(Apply(w, steps[0]), steps[1..], ip, x))
  }

  /** What a table without x does to x. */
  lemma FollowedLacks(c: Client, f: Answers, times: map<Path, nat>, x: Path)
    requires c.down != [] && x !in c.down[0]
    ensures NodeAt(Followed(c, f, times).disk, x) ==
            if Falls(c.listed, c.down[0], x) then None else NodeAt(c.disk, x)
    ensures Consistent(c, x) ==> Consistent(Followed(c, f, times), x)
  {
    AppliedNode(c.listed, c.disk, c.down[0], f, x);
    if x in c.listed {
      assert Falls(c.listed, c.down[0], x);
    }
    assert Falls(c.listed, c.down[0], x) ==> Finds(c.listed, c.down[0]);
  }

  lemma MergeUnheard(w: World, p: IP, ip: IP, x: Path)
    requires Unheard(w, ip, x) && Enabled(w, Merge(p)) && x !in w.clients[p].up[0]
    ensures Unheard(Apply(w, Merge(p)), ip, x)
    ensures NodeAt(Apply(w, Merge(p)).clients[ip].disk, x) == NodeAt(w.clients[ip].disk, x)
  {
    var w' := Apply(w, Merge(p));
    assert x !in w'.tracker.table;
    forall q | q in w'.clients
      ensures TablesLack(w'.clients[q].down, x)
      ensures q != ip ==> x !in w'.clients[q].disk && ReportsLack(w'.clients[q].up, x)
    {
    }
  }

  lemma FollowedQueues(c: Client, f: Answers, times: map<Path, nat>)
    requires c.down != []
    ensures Followed(c, f, times).up == c.up && Followed(c, f, times).down == c.down[1..]
  {
  }

  lemma FollowUnheard(w: World, p: IP, f: Answers, times: map<Path, nat>, ip: IP, x: Path)
    requires Unheard(w, ip, x) && Enabled(w, Follow(p, f, times))
    ensures Unheard(Apply(w, Follow(p, f, times)), ip, x)
    ensures p == ip ==>
              NodeAt(Apply(w, Follow(p, f, times)).clients[ip].disk, x) ==
              if Falls(w.clients[ip].listed, w.clients[ip].down[0], x) then None else NodeAt(w.clients[ip].disk, x)
    ensures p != ip ==> Apply(w, Follow(p, f, times)).clients[ip] == w.clients[ip]
  {
    hide Followed, Falls, Consistent;
    assert TablesLack(w.clients[p].down, x);
    FollowedLacks(w.clients[p], f, times, x);
    FollowedQueues(w.clients[p], f, times);
  }

  lemma StepUnheard(w: World, step: Step, ip: IP, x: Path)
    requires Unheard(w, ip, x) && Enabled(w, step) && NotAbout(w, step, ip, x)
    ensures var w' := Apply(w, step);
            && Unheard(w', ip, x)
            && NodeAt(w'.clients[ip].disk, x) == if Loses(w, step, ip, x) then None else NodeAt(w.clients[ip].disk, x)
  {
    match step
    case Merge(p) => MergeUnheard(w, p, ip, x);
    case Follow(p, f, times) => FollowUnheard(w, p, f, times, ip, x);
    case _ =>
  }

  lemma ClientThere(w: World, ip: IP, x: Path)
    requires Unheard(w, ip, x)
    ensures ip in w.clients
  {
  }

  /** Until its report is merged, a new file survives if and only if its client applies no table
    * while it lists the file, or a folder above it that the table lacks. A file that is saved
    * after the last scan, in a folder that is known, is not deleted. */
  lemma {:induction false} UnheardRun(w: World, steps: seq<Step>, ip: IP, x: Path)
    requires Unheard(w, ip, x) && CanRun(w, steps) && AllNotAbout(w, steps, ip, x)
    ensures var w' := Run(w, steps);
            && ip in w.clients && Unheard(w', ip, x) && ip in w'.clients
            && NodeAt(w'.clients[ip].disk, x) ==
               if NoneLoses(w, steps, ip, x) then NodeAt(w.clients[ip].disk, x) else None
    decreases |steps|
  {
    ClientThere(w, ip, x);
    hide Unheard, Enabled, NotAbout, Apply, Loses;
    if steps != [] {
      StepUnheard(w, steps[0], ip, x);
      ClientThere(Apply(w, steps[0]), ip, x);
      UnheardRun(Apply(w, steps[0]), steps[1..], ip, x);
    }
  }

  // ---------- when the report is merged ----------

  /** The client applies the first tables of its queue, in order. */
  ghost function Drained(c: Client, fs: seq<Answers>, ts: seq<map<Path, nat>>): Client
    requires |fs| == |ts| <= |c.down|
    decreases |fs|
  {
    if |fs| == 0 then c else Drained(Followed(c, fs[0], ts[0]), fs[1..], ts[1..])
  }

  lemma ListedFalls(c: Client, x: Path)
    requires c.down != [] && x !in c.down[0] && (x in c.disk ==> x in c.listed)
    ensures x in c.disk ==> Falls(c.listed, c.down[0], x)
  {
  }

  lemma {:induction false} DrainedLacks(c: Client, fs: seq<Answers>, ts: seq<map<Path, nat>>, x: Path)
    requires |fs| == |ts| <= |c.down| && TablesLack(c.down[..|fs|], x)
    requires Consistent(c, x) && (x in c.disk ==> x in c.listed)
    ensures var d := Drained(c, fs, ts);
            && d.up == c.up && d.down == c.down[|fs|..] && Consistent(d, x)
            && NodeAt(d.disk, x) == (if fs == [] then NodeAt(c.disk, x) else None)
            && (x in d.disk ==> d.listed == c.listed)
    decreases |fs|
  {
    if fs != [] {
      hide Followed, Falls, Consistent;
      assert x !in c.down[0] by { assert c.down[..|fs|][0] == c.down[0]; }
      FollowedLacks(c, fs[0], ts[0], x);
      FollowedQueues(c, fs[0], ts[0]);
      var c' := Followed(c, fs[0], ts[0]);
      ListedFalls(c, x);
      assert c'.down[..|fs| - 1] == c.down[..|fs|][1..];
      DrainedLacks(c', fs[1..], ts[1..], x);
    }
  }

  /** What the merge of the report puts into the client's queue: behind tables without x one in
    * which the client is the only owner of x. */
  lemma MergeTellsOf(w: World, ip: IP, x: Path)
    requires Unheard(w, ip, x) && Enabled(w, Merge(ip)) && x in w.clients[ip].up[0]
    ensures var c, r := w.clients[ip], w.clients[ip].up[0];
            var w' := Apply(w, Merge(ip));
            && ip in w'.clients && w'.clients[ip] == c.(up := c.up[1..], down := c.down + [w'.tracker.table])
            && TablesLack(c.down, x) && Consistent(c, x) && Consistent(w'.clients[ip], x)
            && (x in c.disk ==> x in c.listed && Describes(r[x], c.disk[x]))
            && x in w'.tracker.table && w'.tracker.table[x] == Info(r[x], [ip])
  {
    var c := w.clients[ip];
    forall k | 0 <= k < |c.up[1..]| && x in c.up[1..][k] && x in c.disk
      ensures Describes(c.up[1..][k][x], c.disk[x])
    {
      assert c.up[1..][k] == c.up[k + 1];
    }
  }

  /** The answers of the downloads that the client starts: of its own it has what was not listed,
    * for what was listed has been deleted. */
  ghost predicate AnsweredTo(net: Peers, ip: IP, c: Client, m: Table, f: Answers) {
    forall x :: x in m && m[x].stat.kind == File && m[x].peers != [] ==>
      Answered(net, ip, if x in c.listed then None else NodeAt(c.disk, x), x, m[x], f(x))
  }

  lemma AskedItself(net: Peers, ip: IP, c: Client, own: Table, f: Answers, x: Path)
    requires AnsweredTo(net, ip, c, own, f) && x !in c.disk && Consistent(c, x)
    requires x in own && own[x].stat.kind == File && 0 < own[x].stat.size && own[x].peers == [ip]
    ensures !Finishes(c.listed, own, f)
  {
    Partition.NoneEmpty(own[x].stat.size, 0, 1);
    assert Answered(net, ip, None, x, own[x], f(x));
    LackingNeverEnds(net, ip, None, x, own[x], f(x), 0);
    assert Stuck(c.listed, own, f, x);
  }

  /** The own table leaves what it describes. */
  lemma OwnTableKeeps(c: Client, own: Table, f: Answers, x: Path)
    requires x in c.disk && x in c.listed && Describes(c.listed[x], c.disk[x])
    requires x in own && Describes(own[x].stat, c.disk[x])
    ensures NodeAt(Applied(c.listed, c.disk, own, f), x) == NodeAt(c.disk, x)
  {
    AppliedNode(c.listed, c.disk, own, f, x);
  }

  /** The exact fate of a file that is saved and reported. Let only the client ip have it, and
    * let anything happen that is not about it, until its report is merged; then let the client
    * apply the tables that were already on their way to it. When the table that its own report
    * caused is next, the file is still there if and only if the client has applied no table while
    * it listed the file or a folder above it that the table lacks, and none was on its way. If it
    * is there it stays. If it is gone, the call for that table never ends: the client asks itself
    * for the file. */
  lemma {:induction false} SavedFileSurvives(w: World, steps: seq<Step>, ip: IP, x: Path, fs: seq<Answers>,
                                             ts: seq<map<Path, nat>>)
    requires Unheard(w, ip, x) && x in w.clients[ip].disk
    requires CanRun(w, steps) && AllNotAbout(w, steps, ip, x)
    requires var w1 := Run(w, steps);
             && Enabled(w1, Merge(ip)) && x in w1.clients[ip].up[0]
             && w1.clients[ip].up[0][x].kind == File && 0 < w1.clients[ip].up[0][x].size
             && |fs| == |ts| == |w1.clients[ip].down|
    ensures var w1 := Run(w, steps);
            var older, own := w1.clients[ip].down, Apply(w1, Merge(ip)).tracker.table;
            && Apply(w1, Merge(ip)).clients[ip].down == older + [own]
            && var c := Drained(Apply(w1, Merge(ip)).clients[ip], fs, ts);
               && c.down == [own]
               && (x in c.disk <==> NoneLoses(w, steps, ip, x) && older == [])
               && (x in c.disk ==>
                     forall f :: NodeAt(Applied(c.listed, c.disk, own, f), x) == NodeAt(w.clients[ip].disk, x))
               && (x !in c.disk ==>
                     forall net: Peers, f: Answers :: AnsweredTo(net, ip, c, own, f) ==> !Finishes(c.listed, own, f))
  {
    hide Unheard, Enabled, NotAbout, Apply, AllNotAbout, AnsweredTo, Finishes, Drained, NoneLoses, Applied, Describes;
    UnheardRun(w, steps, ip, x);
    var w1 := Run(w, steps);
    MergeTellsOf(w1, ip, x);
    var w2 := Apply(w1, Merge(ip));
    var older, own := w1.clients[ip].down, w2.tracker.table;
    assert (older + [own])[..|fs|] == older && (older + [own])[|fs|..] == [own];
    DrainedLacks(w2.clients[ip], fs, ts, x);
    var c := Drained(w2.clients[ip], fs, ts);
    if x in c.disk {
      forall f
        ensures NodeAt(Applied(c.listed, c.disk, own, f), x) == NodeAt(c.disk, x)
      {
        OwnTableKeeps(c, own, f, x);
      }
    } else {
      forall net: Peers, f: Answers | AnsweredTo(net, ip, c, own, f)
        ensures !Finishes(c.listed, own, f)
      {
        AskedItself(net, ip, c, own, f, x);
      }
    }
  }

  // ---------- a file saved just in time ----------

  lemma RunCons(w: World, step: Step, steps: seq<Step>)
    requires Enabled(w, step) && CanRun(Apply(w, step), steps)
    ensures CanRun(w, [step] + steps) && Run(w, [step] + steps) == Run(Apply(w, step), steps)
    ensures forall ip, x :: NoneLoses(w, [step] + steps, ip, x) <==>
                            !Loses(w, step, ip, x) && NoneLoses(Apply(w, step), steps, ip, x)
  {
    assert ([step] + steps)[0] == step && ([step] + steps)[1..] == steps;
  }

  lemma RunNone(w: World)
    ensures CanRun(w, []) && Run(w, []) == w && forall ip, x :: NoneLoses(w, [], ip, x)
  {
  }

  /** One client, which has just saved a file and has not scanned yet; a table without it is on
    * its way. */
  function JustSaved(ip: IP, x: Path, byte: Files.byte): World {
    World(Tracker.State(map[], {ip}, map[ip := map[]]),
          map[ip := Client(map[x := Plain(5, [byte])], map[], [], [map[]])])
  }

  function LateScan(ip: IP, f: Answers, times: map<Path, nat>): seq<Step> {
    [Follow(ip, f, times)] + ([Scan(ip, times, true)] + ([Merge(ip)] + []))
  }

  /** The table finds nothing to do: the file is not listed yet. */
  lemma NothingListed(ip: IP, x: Path, byte: Files.byte, f: Answers, times: map<Path, nat>)
    ensures var w := JustSaved(ip, x, byte);
            && Enabled(w, Follow(ip, f, times)) && !Loses(w, Follow(ip, f, times), ip, x)
            && Apply(w, Follow(ip, f, times)).tracker == w.tracker
            && ip in Apply(w, Follow(ip, f, times)).clients
            && Apply(w, Follow(ip, f, times)).clients[ip] == w.clients[ip].(down := [])
  {
    var c := JustSaved(ip, x, byte).clients[ip];
    NothingFound(c.listed, c.disk, c.down[0], f);
  }

  lemma ThenScanned(w: World, ip: IP, x: Path, byte: Files.byte, times: map<Path, nat>)
    requires ip in w.clients && w.clients[ip] == Client(map[x := Plain(5, [byte])], map[], [], [])
    ensures Enabled(w, Scan(ip, times, true)) && Apply(w, Scan(ip, times, true)).tracker == w.tracker
    ensures ip in Apply(w, Scan(ip, times, true)).clients
    ensures var r := map[x := Stat(File, 1, 5)];
            Apply(w, Scan(ip, times, true)).clients[ip] == Client(map[x := Plain(5, [byte])], r, [r], [])
  {
    assert ReportOf(w.clients[ip].disk, times) == map[x := Stat(File, 1, 5)];
  }

  lemma ThenMerged(w: World, ip: IP, x: Path, disk: Disk)
    requires var r := map[x := Stat(File, 1, 5)];
             ip in w.clients && w.clients[ip] == Client(disk, r, [r], []) && w.tracker.table == map[]
    ensures Enabled(w, Merge(ip)) && ip in Apply(w, Merge(ip)).clients
    ensures var c := Apply(w, Merge(ip)).clients[ip];
            c.disk == disk && c.down == [map[x := Info(Stat(File, 1, 5), [ip])]]
  {
    assert MergedState(w, ip).table == map[x := Info(Stat(File, 1, 5), [ip])];
  }

  lemma NoLossBut(w: World, step: Step, ip: IP, x: Path)
    requires !step.Follow?
    ensures !Loses(w, step, ip, x)
  {
  }

  /** A table is applied after the file was saved, and yet the file is still there when its own
    * table is next: the scan came later. */
  lemma SavedInTime(ip: IP, name: string, byte: Files.byte, f: Answers, times: map<Path, nat>)
    ensures var x := [name];
            var w, steps := JustSaved(ip, x, byte), LateScan(ip, f, times);
            && Unheard(w, ip, x) && CanRun(w, steps) && NoneLoses(w, steps, ip, x)
            && ip in Run(w, steps).clients
            && Run(w, steps).clients[ip].disk == map[x := Plain(5, [byte])]
            && Run(w, steps).clients[ip].down == [map[x := Info(Stat(File, 1, 5), [ip])]]
  {
    hide Enabled, Apply, Run, CanRun, NoneLoses, Loses;
    var x := [name];
    var w := JustSaved(ip, x, byte);
    NothingListed(ip, x, byte, f, times);
    var w1 := Apply(w, Follow(ip, f, times));
    ThenScanned(w1, ip, x, byte, times);
    var w2 := Apply(w1, Scan(ip, times, true));
    ThenMerged(w2, ip, x, map[x := Plain(5, [byte])]);
    var w3 := Apply(w2, Merge(ip));
    RunNone(w3);
    RunCons(w2, Merge(ip), []);
    RunCons(w1, Scan(ip, times, true), [Merge(ip)] + []);
    RunCons(w, Follow(ip, f, times), [Scan(ip, times, true)] + ([Merge(ip)] + []));
    NoLossBut(w1, Scan(ip, times, true), ip, x);
    NoLossBut(w2, Merge(ip), ip, x);
  }
}
