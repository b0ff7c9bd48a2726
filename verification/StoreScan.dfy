/**
 A reader takes no lock: its scan lists one directory, opens the listed files
 one by one, then does the same with the next directory, while mutators rewrite
 and file tickets away underneath it. A listing is not a snapshot either: a name
 that appears or disappears while the directory is being read may be missed.
 */
module StoreScan {
  import opened Tickets
  import opened TicketStore
  import opened StoreProtocol

  datatype ScanPhase =
    | Listing(dir: Dir, stable: set<FileName>, everThere: set<FileName>)
    | Opening(dir: Dir, todo: set<FileName>)
    | Finished

  /** `stored` is every body that has been on disk since the scan began. */
  datatype Scan = Scan(disk: Disk, includeClosed: bool, phase: ScanPhase, out: seq<Body>, stored: set<Body>)

  datatype Act =
    | Disturb(disk: Disk)
    | EndListing(names: set<FileName>)
    | OpenFile(name: FileName)
    | NextDir

  ghost function Names(d: Disk, dir: Dir): set<FileName> {
    set p | p in d && p.dir == dir :: p.name
  }

  ghost function Bodies(d: Disk): set<Body> {
    set p | p in d :: d[p].body
  }

  ghost function Begin(d: Disk, includeClosed: bool): Scan {
    Scan(d, includeClosed, Listing(Active, Names(d, Active), Names(d, Active)), [], Bodies(d))
  }

  /** What mutators do to the disk, one atomic replace at a time. */
  ghost predicate Disturbs(d: Disk, e: Disk) {
    && Wf(d) && Wf(e)
    && (e == d || Rewrites(d, e) || FilesAway(d, e) || BringsBack(d, e) || Creates(d, e))
  }

  ghost predicate Rewrites(d: Disk, e: Disk) {
    exists p, b :: p in d && IdOf(b) == IdOf(d[p].body) && e == d[p := d[p].(body := b)]
  }

  ghost predicate FilesAway(d: Disk, e: Disk) {
    exists p :: p in d && p.dir.Active? && e == (d - {p})[Path(ClosedDir, p.name) := d[p]]
  }

  ghost predicate BringsBack(d: Disk, e: Disk) {
    exists p :: p in d && p.dir.ClosedDir? && e == (d - {p})[Path(Active, p.name) := d[p]]
  }

  ghost predicate Creates(d: Disk, e: Disk) {
    exists p :: p in e && p !in d && e == d[p := e[p]]
  }

  ghost predicate CanAct(s: Scan, a: Act) {
    match a
    case Disturb(e) => Disturbs(s.disk, e)
    case EndListing(names) => s.phase.Listing? && s.phase.stable <= names <= s.phase.everThere
    case OpenFile(name) => s.phase.Opening? && name in s.phase.todo
    case NextDir => s.phase.Opening? && s.phase.todo == {}
  }

  ghost function Seen(out: seq<Body>): set<Value> {
    set b | b in out :: IdOf(b)
  }

  ghost function Collect(s: Scan, b: Body): seq<Body> {
    if IdOf(b) in Seen(s.out) || (!s.includeClosed && TerminalBody(b)) then s.out else s.out + [b]
  }

  /** The disk changes; a listing in progress may or may not notice. */
  ghost function Observe(s: Scan, e: Disk): Scan {
    var s := s.(disk := e, stored := s.stored + Bodies(e));
    if s.phase.Listing? then
      var here := Names(e, s.phase.dir);
      s.(phase := Listing(s.phase.dir, s.phase.stable * here, s.phase.everThere + here))
    else s
  }

  ghost function Perform(s: Scan, a: Act): Scan
    requires CanAct(s, a)
  {
    match a
    case Disturb(e) => Observe(s, e)
    case EndListing(names) => s.(phase := Opening(s.phase.dir, names))
    case OpenFile(name) =>
      var p := Path(s.phase.dir, name);
      s.(phase := Opening(p.dir, s.phase.todo - {name}),
         out := if p in s.disk then Collect(s, s.disk[p].body) else s.out)
    case NextDir =>
      if s.phase.dir.Active? && s.includeClosed then
        var here := Names(s.disk, ClosedDir);
        s.(phase := Listing(ClosedDir, here, here))
      else s.(phase := Finished)
  }

  ghost predicate ScanRun(s: Scan, acts: seq<Act>, t: Scan)
    decreases |acts|
  {
    if acts == [] then s == t
    else CanAct(s, acts[0]) && ScanRun(Perform(s, acts[0]), acts[1..], t)
  }

  // ---- Completeness ----

  /** The ticket `id` lives in the file called `n`, in one directory or the other. */
  ghost predicate Lives(d: Disk, n: FileName, id: Value) {
    Wf(d) && exists dir :: Path(dir, n) in d && IdOf(d[Path(dir, n)].body) == id
  }

  /** The scan has the ticket, will still open its file, or the file is already in a directory yet to be listed. */
  ghost predicate Covered(s: Scan, n: FileName, id: Value) {
    && Lives(s.disk, n, id)
    && (id in Seen(s.out) ||
        match s.phase
        case Listing(dir, stable, _) => n in stable || (dir.Active? && Path(ClosedDir, n) in s.disk)
        case Opening(dir, todo) => n in todo || (dir.Active? && Path(ClosedDir, n) in s.disk)
        case Finished => false)
    && (id !in Seen(s.out) && (s.phase.Listing? || s.phase.Opening?) && s.phase.dir.ClosedDir? ==> Path(ClosedDir, n) in s.disk)
  }

  /** The file called `n`, once filed, is not brought back. */
  ghost predicate StaysFiled(d: Disk, e: Disk, n: FileName) {
    Path(ClosedDir, n) in d ==> Path(ClosedDir, n) in e
  }

  lemma MovedFile(d: Disk, p: Path, to: Dir, n: FileName, id: Value)
    requires Wf(d) && p in d && p.dir != to && Lives(d, n, id)
    requires Wf((d - {p})[Path(to, p.name) := d[p]])
    ensures Lives((d - {p})[Path(to, p.name) := d[p]], n, id)
  {
    var e := (d - {p})[Path(to, p.name) := d[p]];
    var dir :| Path(dir, n) in d && IdOf(d[Path(dir, n)].body) == id;
    var q := if p == Path(dir, n) then Path(to, n) else Path(dir, n);
    assert q in e && IdOf(e[q].body) == id;
  }

  /** A ticket keeps its file name through every disturbance. */
  lemma DisturbKeepsFiles(d: Disk, e: Disk, n: FileName, id: Value)
    requires Disturbs(d, e) && Lives(d, n, id)
    ensures Lives(e, n, id)
  {
    if FilesAway(d, e) {
      var p :| p in d && p.dir.Active? && e == (d - {p})[Path(ClosedDir, p.name) := d[p]];
      MovedFile(d, p, ClosedDir, n, id);
    } else if BringsBack(d, e) {
      var p :| p in d && p.dir.ClosedDir? && e == (d - {p})[Path(Active, p.name) := d[p]];
      MovedFile(d, p, Active, n, id);
    } else {
      var dir :| Path(dir, n) in d && IdOf(d[Path(dir, n)].body) == id;
      assert Path(dir, n) in e && IdOf(e[Path(dir, n)].body) == id;
    }
  }

  lemma LivesSomewhere(d: Disk, n: FileName, id: Value)
    requires Lives(d, n, id)
    ensures Path(Active, n) in d <==> Path(ClosedDir, n) !in d
    ensures forall p :: p in d && p.name == n ==> IdOf(d[p].body) == id
  {
    var dir :| Path(dir, n) in d && IdOf(d[Path(dir, n)].body) == id;
    assert dir.Active? || dir.ClosedDir?;
  }

  lemma CollectSees(s: Scan, b: Body)
    ensures Seen(Collect(s, b)) == if !s.includeClosed && TerminalBody(b) then Seen(s.out) else Seen(s.out) + {IdOf(b)}
  {
    assert b in s.out + [b];
  }

  lemma DisturbKeepsCovered(s: Scan, e: Disk, n: FileName, id: Value)
    requires Disturbs(s.disk, e) && s.includeClosed && Covered(s, n, id) && StaysFiled(s.disk, e, n)
    ensures Covered(Observe(s, e), n, id)
  {
    DisturbKeepsFiles(s.disk, e, n, id);
    LivesSomewhere(s.disk, n, id);
    LivesSomewhere(e, n, id);
    if s.phase.Listing? && n in s.phase.stable && Path(s.phase.dir, n) in e {
      assert n in Names(e, s.phase.dir);
    }
  }

  lemma OpenKeepsCovered(s: Scan, name: FileName, n: FileName, id: Value)
    requires CanAct(s, OpenFile(name)) && s.includeClosed && Covered(s, n, id)
    ensures Covered(Perform(s, OpenFile(name)), n, id)
  {
    var p := Path(s.phase.dir, name);
    LivesSomewhere(s.disk, n, id);
    if p in s.disk {
      CollectSees(s, s.disk[p].body);
    }
  }

  lemma ActKeepsCovered(s: Scan, a: Act, n: FileName, id: Value)
    requires CanAct(s, a) && s.includeClosed && Covered(s, n, id)
    requires a.Disturb? ==> StaysFiled(s.disk, a.disk, n)
    ensures Covered(Perform(s, a), n, id)
  {
    match a
    case Disturb(e) => DisturbKeepsCovered(s, e, n, id);
    case EndListing(_) =>
    case OpenFile(name) => OpenKeepsCovered(s, name, n, id);
    case NextDir =>
      if s.phase.dir.Active? {
        assert Path(ClosedDir, n) in s.disk ==> n in Names(s.disk, ClosedDir);
      }
  }

  /** From disk `d` on, no disturbance of the scan brings the file called `n` back. */
  ghost predicate NeverBroughtBack(d: Disk, acts: seq<Act>, n: FileName)
    decreases |acts|
  {
    acts == [] ||
    if acts[0].Disturb? then StaysFiled(d, acts[0].disk, n) && NeverBroughtBack(acts[0].disk, acts[1..], n)
    else NeverBroughtBack(d, acts[1..], n)
  }

  lemma {:induction false} RunKeepsCovered(s: Scan, acts: seq<Act>, t: Scan, n: FileName, id: Value)
    requires ScanRun(s, acts, t) && s.includeClosed && Covered(s, n, id) && NeverBroughtBack(s.disk, acts, n)
    ensures Covered(t, n, id)
    decreases |acts|
  {
    if acts != [] {
      ActKeepsCovered(s, acts[0], n, id);
      RunKeepsCovered(Perform(s, acts[0]), acts[1..], t, n, id);
    }
  }

  // ---- Soundness: no repeats, nothing invented ----

  ghost predicate Clean(s: Scan) {
    && (forall i, j :: 0 <= i < j < |s.out| ==> IdOf(s.out[i]) != IdOf(s.out[j]))
    && (forall b :: b in s.out ==> b in s.stored && (TerminalBody(b) ==> s.includeClosed))
    && Bodies(s.disk) <= s.stored
  }

  lemma ActKeepsClean(s: Scan, a: Act)
    requires CanAct(s, a) && Clean(s)
    ensures Clean(Perform(s, a)) && s.stored <= Perform(s, a).stored
  {
    if a.OpenFile? && Path(s.phase.dir, a.name) in s.disk {
      var b := s.disk[Path(s.phase.dir, a.name)].body;
      assert b in Bodies(s.disk);
      forall k | 0 <= k < |s.out| ensures IdOf(s.out[k]) in Seen(s.out) {
        assert s.out[k] in s.out;
      }
    }
  }

  lemma {:induction false} RunKeepsClean(s: Scan, acts: seq<Act>, t: Scan)
    requires ScanRun(s, acts, t) && Clean(s)
    ensures Clean(t) && t.includeClosed == s.includeClosed
    decreases |acts|
  {
    if acts != [] {
      ActKeepsClean(s, acts[0]);
      RunKeepsClean(Perform(s, acts[0]), acts[1..], t);
    }
  }

  ghost predicate ReturnedOnce(t: Scan, id: Value) {
    exists k :: 0 <= k < |t.out| && IdOf(t.out[k]) == id && t.out[k] in t.stored
      && forall j :: 0 <= j < |t.out| && IdOf(t.out[j]) == id ==> j == k
  }

  lemma SeenOnce(t: Scan, id: Value)
    requires Clean(t) && id in Seen(t.out)
    ensures ReturnedOnce(t, id)
  {
    var b :| b in t.out && IdOf(b) == id;
    var k :| 0 <= k < |t.out| && t.out[k] == b;
  }

  /**
   Every full scan, however it interleaves with rewrites, creations and moves in both directions: a ticket that was there
   when it began, and whose own file is not brought back meanwhile, is returned exactly once, with a body it really had.
   */
  lemma ScanLosesNoTicket(d: Disk, acts: seq<Act>, t: Scan, id: Value)
    requires Wf(d) && id in Ids(d)
    requires ScanRun(Begin(d, true), acts, t) && t.phase.Finished?
    requires NeverBroughtBack(d, acts, HolderOf(d, id).name)
    ensures ReturnedOnce(t, id)
    ensures forall i, j :: 0 <= i < j < |t.out| ==> IdOf(t.out[i]) != IdOf(t.out[j])
    ensures forall b :: b in t.out ==> b in t.stored
  {
    var s := Begin(d, true);
    var p := HolderOf(d, id);
    assert p == Path(p.dir, p.name);
    assert Lives(d, p.name, id);
    assert p.dir.Active? ==> p.name in Names(d, Active);
    RunKeepsCovered(s, acts, t, p.name, id);
    RunKeepsClean(s, acts, t);
    SeenOnce(t, id);
  }

  // ---- What a scan misses ----

  /** While a directory is being listed, the file called `n` is not in it. */
  ghost predicate OutOfSight(s: Scan, acts: seq<Act>, n: FileName)
    decreases |acts|
  {
    && (s.phase.Listing? ==> Path(s.phase.dir, n) !in s.disk)
    && (acts == [] || (CanAct(s, acts[0]) ==> OutOfSight(Perform(s, acts[0]), acts[1..], n)))
  }

  /** The scan neither has the ticket nor knows of its file. */
  ghost predicate Blind(s: Scan, n: FileName, id: Value) {
    && Lives(s.disk, n, id) && id !in Seen(s.out)
    && (s.phase.Listing? ==> n !in s.phase.everThere && n !in s.phase.stable)
    && (s.phase.Opening? ==> n !in s.phase.todo)
  }

  lemma OpenStaysBlind(s: Scan, name: FileName, n: FileName, id: Value)
    requires CanAct(s, OpenFile(name)) && Blind(s, n, id)
    ensures Blind(Perform(s, OpenFile(name)), n, id)
  {
    var p := Path(s.phase.dir, name);
    var dir :| Path(dir, n) in s.disk && IdOf(s.disk[Path(dir, n)].body) == id;
    if p in s.disk {
      assert IdOf(s.disk[p].body) == id ==> p == Path(dir, n);
      CollectSees(s, s.disk[p].body);
    }
  }

  lemma ActStaysBlind(s: Scan, a: Act, n: FileName, id: Value)
    requires CanAct(s, a) && Blind(s, n, id)
    requires var t := Perform(s, a); t.phase.Listing? ==> Path(t.phase.dir, n) !in t.disk
    ensures Blind(Perform(s, a), n, id)
  {
    match a
    case Disturb(e) =>
      DisturbKeepsFiles(s.disk, e, n, id);
      if s.phase.Listing? {
        assert n !in Names(e, s.phase.dir);
      }
    case EndListing(_) =>
    case OpenFile(name) => OpenStaysBlind(s, name, n, id);
    case NextDir =>
      if s.phase.dir.Active? && s.includeClosed {
        assert n !in Names(s.disk, ClosedDir);
      }
  }

  lemma {:induction false} RunStaysBlind(s: Scan, acts: seq<Act>, t: Scan, n: FileName, id: Value)
    requires ScanRun(s, acts, t) && Blind(s, n, id) && OutOfSight(s, acts, n)
    ensures Blind(t, n, id)
    decreases |acts|
  {
    if acts != [] {
      ActStaysBlind(s, acts[0], n, id);
      RunStaysBlind(Perform(s, acts[0]), acts[1..], t, n, id);
    }
  }

  /** On every sound disk: a ticket whose file is in `closed/` while `tickets/` is listed and back before `closed/` is listed is missed. */
  lemma OutOfSightIsMissed(d: Disk, includeClosed: bool, acts: seq<Act>, t: Scan, n: FileName, id: Value)
    requires Lives(d, n, id) && ScanRun(Begin(d, includeClosed), acts, t) && OutOfSight(Begin(d, includeClosed), acts, n)
    ensures id !in Seen(t.out)
  {
    assert n !in Names(d, Active);
    RunStaysBlind(Begin(d, includeClosed), acts, t, n, id);
  }

  // ---- The in-flight listing reads only `tickets/` ----

  /** The ticket is open and in `tickets/` now, and the scan has it or will still open it. */
  ghost predicate CoveredInFlight(s: Scan, n: FileName, id: Value) {
    id in Seen(s.out) ||
    match s.phase
    case Listing(dir, stable, _) => dir.Active? && n in stable
    case Opening(dir, todo) => dir.Active? && n in todo
    case Finished => false
  }

  ghost predicate OpenTicketAt(d: Disk, n: FileName, id: Value) {
    var p := Path(Active, n);
    p in d && IdOf(d[p].body) == id && !TerminalBody(d[p].body)
  }

  ghost predicate OpenThroughout(s: Scan, acts: seq<Act>, n: FileName, id: Value) {
    && OpenTicketAt(s.disk, n, id)
    && forall i :: 0 <= i < |acts| && acts[i].Disturb? ==> OpenTicketAt(acts[i].disk, n, id)
  }

  lemma {:induction false} RunKeepsCoveredInFlight(s: Scan, acts: seq<Act>, t: Scan, n: FileName, id: Value)
    requires ScanRun(s, acts, t) && !s.includeClosed && OpenThroughout(s, acts, n, id) && CoveredInFlight(s, n, id)
    ensures CoveredInFlight(t, n, id)
    decreases |acts|
  {
    if acts != [] {
      var u := Perform(s, acts[0]);
      if acts[0].OpenFile? && Path(s.phase.dir, acts[0].name) in s.disk {
        CollectSees(s, s.disk[Path(s.phase.dir, acts[0].name)].body);
      }
      if acts[0].Disturb? && s.phase.Listing? {
        assert Path(Active, n) in acts[0].disk;
        assert s.phase.dir.Active? ==> n in Names(acts[0].disk, Active);
      }
      forall i | 0 <= i < |acts[1..]| && acts[1..][i].Disturb? ensures OpenTicketAt(acts[1..][i].disk, n, id) {
        assert acts[1..][i] == acts[i + 1];
      }
      RunKeepsCoveredInFlight(u, acts[1..], t, n, id);
    }
  }

  /** A ticket that stays open in `tickets/` for the whole scan is in the in-flight listing exactly once. */
  lemma InFlightScanKeepsOpenTickets(d: Disk, acts: seq<Act>, t: Scan, n: FileName, id: Value)
    requires Wf(d) && ScanRun(Begin(d, false), acts, t) && t.phase.Finished?
    requires OpenThroughout(Begin(d, false), acts, n, id)
    ensures exists k :: 0 <= k < |t.out| && IdOf(t.out[k]) == id
              && forall j :: 0 <= j < |t.out| && IdOf(t.out[j]) == id ==> j == k
    ensures forall b :: b in t.out ==> b in t.stored && !TerminalBody(b)
  {
    assert n in Names(d, Active) by {
      assert Path(Active, n) in d;
    }
    RunKeepsCoveredInFlight(Begin(d, false), acts, t, n, id);
    RunKeepsClean(Begin(d, false), acts, t);
    var b :| b in t.out && IdOf(b) == id;
    var k :| 0 <= k < |t.out| && t.out[k] == b;
  }

  // ---- Scans of the running protocol ----

  /** Every step of the locked protocol is something a scan can be disturbed by. */
  lemma ProtocolStepsDisturbOnly(m: map<Value, Body>, s: State, l: Label)
    requires Inv(m, s) && Enabled(s, l)
    ensures Disturbs(s.disk, Next(s, l).disk)
  {
    StepKeepsInv(m, s, l);
    match l
    case Replace(_, now, newName) =>
      CommitDisturbs(s.disk, Stamped(s.lock.value.phase.body, now), newName);
    case MoveAndRelease(_) =>
      RelocateDisturbs(s.disk, s.lock.value.phase.id);
    case _ => assert Next(s, l).disk == s.disk;
  }

  lemma CommitDisturbs(d: Disk, b: Body, newName: FileName)
    requires Unused(d, newName)
    ensures var e := Commit(d, b, newName); e == d || Rewrites(d, e) || Creates(d, e)
  {
    var at := FindPath(d, IdOf(b));
    if !Settled(d, b) && at.None? {
      assert Path(TargetDir(b), newName) !in d;
    }
  }

  lemma RelocateDisturbs(d: Disk, id: Value)
    ensures var e := Relocate(d, id); e == d || FilesAway(d, e) || BringsBack(d, e)
  {
  }

  /** Mutators and one scan, interleaved. */
  datatype Move = Mutate(step: Label) | Look(act: Act)

  ghost predicate Moves(s: State, c: Scan, mv: Move, s1: State, c1: Scan) {
    match mv
    case Mutate(l) => Enabled(s, l) && s1 == Next(s, l) && c1 == Observe(c, s1.disk)
    case Look(a) => !a.Disturb? && CanAct(c, a) && s1 == s && c1 == Perform(c, a)
  }

  ghost predicate Joint(s: State, c: Scan, moves: seq<Move>, s': State, c': Scan)
    decreases |moves|
  {
    if moves == [] then s == s' && c == c'
    else match moves[0]
      case Mutate(l) => Enabled(s, l) && Joint(Next(s, l), Observe(c, Next(s, l).disk), moves[1..], s', c')
      case Look(a) => !a.Disturb? && CanAct(c, a) && Joint(s, Perform(c, a), moves[1..], s', c')
  }

  ghost predicate NeverReopened(log: seq<Entry>, from: nat, id: Value) {
    forall i :: from <= i < |log| && IdOf(log[i].after) == id ==> !Reopens(log[i])
  }

  /** The file called `n`, if filed, holds a terminal ticket. */
  ghost predicate FiledRight(d: Disk, n: FileName) {
    Path(ClosedDir, n) in d ==> TerminalBody(d[Path(ClosedDir, n)].body)
  }

  lemma ReplaceKeepsFiled(d: Disk, b: Body, newName: FileName, n: FileName, id: Value)
    requires Lives(d, n, id) && FiledRight(d, n) && Unused(d, newName) && Wf(Commit(d, b, newName))
    requires !(IdOf(b) == id && Read(d, id).Some? && TerminalBody(Read(d, id).value) && !TerminalBody(b))
    ensures StaysFiled(d, Commit(d, b, newName), n) && FiledRight(Commit(d, b, newName), n)
  {
    LivesSomewhere(d, n, id);
    var at := FindPath(d, IdOf(b));
    if at.Some? && at.value.name == n {
      assert at.value in d;
    }
  }

  lemma RelocateKeepsFiled(d: Disk, other: Value, n: FileName)
    requires Wf(d) && FiledRight(d, n)
    ensures StaysFiled(d, Relocate(d, other), n) && FiledRight(Relocate(d, other), n)
  {
  }

  /** A step that does not reopen the ticket leaves its file where a scan can still find it. */
  lemma StepKeepsFiled(m: map<Value, Body>, s: State, l: Label, n: FileName, id: Value)
    requires Inv(m, s) && Enabled(s, l) && Lives(s.disk, n, id) && FiledRight(s.disk, n)
    requires NeverReopened(Next(s, l).log, |s.log|, id)
    ensures Lives(Next(s, l).disk, n, id) && StaysFiled(s.disk, Next(s, l).disk, n) && FiledRight(Next(s, l).disk, n)
  {
    StepKeepsInv(m, s, l);
    ProtocolStepsDisturbOnly(m, s, l);
    DisturbKeepsFiles(s.disk, Next(s, l).disk, n, id);
    match l
    case Replace(_, now, newName) =>
      var b := Stamped(s.lock.value.phase.body, now);
      if !Settled(s.disk, b) {
        assert IdOf(b) == id ==> !Reopens(Next(s, l).log[|s.log|]);
        ReplaceKeepsFiled(s.disk, b, newName, n, id);
      }
    case MoveAndRelease(_) => RelocateKeepsFiled(s.disk, s.lock.value.phase.id, n);
    case _ => assert Next(s, l).disk == s.disk;
  }

  lemma {:induction false} JointLogGrows(s: State, c: Scan, moves: seq<Move>, s': State, c': Scan)
    requires Joint(s, c, moves, s', c')
    ensures s.log <= s'.log
    decreases |moves|
  {
    if moves != [] {
      match moves[0]
      case Mutate(l) => JointLogGrows(Next(s, l), Observe(c, Next(s, l).disk), moves[1..], s', c');
      case Look(a) => JointLogGrows(s, Perform(c, a), moves[1..], s', c');
    }
  }

  lemma ScanStep(c: Scan, a: Act, acts: seq<Act>, t: Scan)
    requires CanAct(c, a) && ScanRun(Perform(c, a), acts, t)
    ensures ScanRun(c, [a] + acts, t)
  {
    assert ([a] + acts)[1..] == acts;
  }

  lemma NeverBackStep(d: Disk, a: Act, acts: seq<Act>, n: FileName)
    requires if a.Disturb? then StaysFiled(d, a.disk, n) && NeverBroughtBack(a.disk, acts, n) else NeverBroughtBack(d, acts, n)
    ensures NeverBroughtBack(d, [a] + acts, n)
  {
    assert ([a] + acts)[1..] == acts;
  }

  /** The scan of a joint run is a scan as above, and a ticket that is not reopened is never brought back in it. */
  lemma {:induction false} JointIsScan(m: map<Value, Body>, s: State, c: Scan, moves: seq<Move>, s': State, c': Scan, n: FileName, id: Value)
    returns (acts: seq<Act>)
    requires Inv(m, s) && c.disk == s.disk && Joint(s, c, moves, s', c')
    requires Lives(s.disk, n, id) && FiledRight(s.disk, n) && NeverReopened(s'.log, |s.log|, id)
    ensures ScanRun(c, acts, c') && NeverBroughtBack(c.disk, acts, n)
    decreases |moves|
  {
    if moves == [] {
      acts := [];
    } else {
      match moves[0]
      case Mutate(l) =>
        var u := Next(s, l);
        JointLogGrows(u, Observe(c, u.disk), moves[1..], s', c');
        forall i | |s.log| <= i < |u.log| && IdOf(u.log[i].after) == id ensures !Reopens(u.log[i]) {
          assert u.log[i] == s'.log[i];
        }
        StepKeepsFiled(m, s, l, n, id);
        StepKeepsInv(m, s, l);
        ProtocolStepsDisturbOnly(m, s, l);
        var rest := JointIsScan(m, u, Observe(c, u.disk), moves[1..], s', c', n, id);
        acts := [Disturb(u.disk)] + rest;
        ScanStep(c, Disturb(u.disk), rest, c');
        NeverBackStep(c.disk, Disturb(u.disk), rest, n);
      case Look(a) =>
        var rest := JointIsScan(m, s, Perform(c, a), moves[1..], s', c', n, id);
        acts := [a] + rest;
        ScanStep(c, a, rest, c');
        NeverBackStep(c.disk, a, rest, n);
    }
  }

  /**
   A full scan during any run of the protocol, crashes and reopenings of other tickets included, returns every ticket
   that is there at its start, is not an open one left in `closed/`, and is not reopened meanwhile, exactly once.
   */
  lemma ProtocolScanLosesNoTicket(m: map<Value, Body>, s: State, moves: seq<Move>, s': State, t: Scan, id: Value)
    requires Inv(m, s) && id in Ids(s.disk) && FiledRight(s.disk, HolderOf(s.disk, id).name)
    requires Joint(s, Begin(s.disk, true), moves, s', t) && t.phase.Finished?
    requires NeverReopened(s'.log, |s.log|, id)
    ensures ReturnedOnce(t, id)
  {
    var p := HolderOf(s.disk, id);
    assert p == Path(p.dir, p.name) && Lives(s.disk, p.name, id);
    var acts := JointIsScan(m, s, Begin(s.disk, true), moves, s', t, p.name, id);
    ScanLosesNoTicket(s.disk, acts, t, id);
  }

  // ---- Reopening lets a ticket slip through ----

  lemma JointStep(s: State, c: Scan, mv: Move, s1: State, c1: Scan, moves: seq<Move>, s': State, c': Scan)
    requires Joint(s1, c1, moves, s', c')
    requires Moves(s, c, mv, s1, c1)
    ensures Joint(s, c, [mv] + moves, s', c')
  {
    assert ([mv] + moves)[1..] == moves;
  }

  lemma {:induction false} JointConcat(s: State, c: Scan, a: seq<Move>, s1: State, c1: Scan, b: seq<Move>, s2: State, c2: Scan)
    requires Joint(s, c, a, s1, c1) && Joint(s1, c1, b, s2, c2)
    ensures Joint(s, c, a + b, s2, c2)
    decreases |a|
  {
    if a == [] {
      assert a + b == b;
    } else {
      assert a + b == [a[0]] + (a[1..] + b);
      match a[0]
      case Mutate(l) =>
        JointConcat(Next(s, l), Observe(c, Next(s, l).disk), a[1..], s1, c1, b, s2, c2);
        JointStep(s, c, a[0], Next(s, l), Observe(c, Next(s, l).disk), a[1..] + b, s2, c2);
      case Look(act) =>
        JointConcat(s, Perform(c, act), a[1..], s1, c1, b, s2, c2);
        JointStep(s, c, a[0], s, Perform(c, act), a[1..] + b, s2, c2);
    }
  }

  lemma OneMove(s: State, c: Scan, mv: Move, s1: State, c1: Scan)
    requires Moves(s, c, mv, s1, c1)
    ensures Joint(s, c, [mv], s1, c1)
  {
    assert [mv][1..] == [];
    assert Joint(s1, c1, [], s1, c1);
  }

  /** Opening every listed file, none of which holds the ticket. */
  lemma {:induction false} OpenAll(s: State, c: Scan, id: Value) returns (moves: seq<Move>, t: Scan)
    requires c.phase.Opening? && id !in Seen(c.out)
    requires forall n :: n in c.phase.todo && Path(c.phase.dir, n) in c.disk ==> IdOf(c.disk[Path(c.phase.dir, n)].body) != id
    ensures Joint(s, c, moves, s, t) && t.phase == Opening(c.phase.dir, {}) && t.disk == c.disk
    ensures id !in Seen(t.out) && t.includeClosed == c.includeClosed
    decreases c.phase.todo
  {
    if c.phase.todo == {} {
      moves, t := [], c;
    } else {
      var n :| n in c.phase.todo;
      var a := OpenFile(n);
      if Path(c.phase.dir, n) in c.disk {
        CollectSees(c, c.disk[Path(c.phase.dir, n)].body);
      }
      var rest;
      rest, t := OpenAll(s, Perform(c, a), id);
      moves := [Look(a)] + rest;
      JointStep(s, c, Look(a), s, Perform(c, a), rest, s, t);
    }
  }

  /** One directory, listed while nothing changes, then opened file by file: a ticket that is elsewhere is not seen. */
  lemma ScanDirectory(s: State, c: Scan, id: Value) returns (moves: seq<Move>, t: Scan)
    requires c.disk == s.disk && c.phase.Listing? && c.phase.stable == c.phase.everThere == Names(s.disk, c.phase.dir)
    requires id !in Seen(c.out) && forall p :: p in s.disk && IdOf(s.disk[p].body) == id ==> p.dir != c.phase.dir
    ensures Joint(s, c, moves, s, t) && t.phase == Opening(c.phase.dir, {}) && t.disk == c.disk
    ensures id !in Seen(t.out) && t.includeClosed == c.includeClosed
  {
    var a := EndListing(c.phase.stable);
    var rest;
    rest, t := OpenAll(s, Perform(c, a), id);
    moves := [Look(a)] + rest;
    JointStep(s, c, Look(a), s, Perform(c, a), rest, s, t);
  }

  lemma FourMoves(s: State, c: Scan, l1: Label, s1: State, l2: Label, s2: State, l3: Label, s3: State, l4: Label, s4: State)
    requires Enabled(s, l1) && s1 == Next(s, l1) && Enabled(s1, l2) && s2 == Next(s1, l2)
    requires Enabled(s2, l3) && s3 == Next(s2, l3) && Enabled(s3, l4) && s4 == Next(s3, l4)
    ensures Joint(s, c, [Mutate(l1), Mutate(l2), Mutate(l3), Mutate(l4)],
                  s4, Observe(Observe(Observe(Observe(c, s1.disk), s2.disk), s3.disk), s4.disk))
  {
    var c1 := Observe(c, s1.disk);
    var c2 := Observe(c1, s2.disk);
    var c3 := Observe(c2, s3.disk);
    var c4 := Observe(c3, s4.disk);
    OneMove(s3, c3, Mutate(l4), s4, c4);
    JointStep(s2, c2, Mutate(l3), s3, c3, [Mutate(l4)], s4, c4);
    JointStep(s1, c1, Mutate(l2), s2, c2, [Mutate(l3)] + [Mutate(l4)], s4, c4);
    JointStep(s, c, Mutate(l1), s1, c1, [Mutate(l2)] + ([Mutate(l3)] + [Mutate(l4)]), s4, c4);
    assert [Mutate(l1)] + ([Mutate(l2)] + ([Mutate(l3)] + [Mutate(l4)])) == [Mutate(l1), Mutate(l2), Mutate(l3), Mutate(l4)];
  }

  /** The first replace of such a write: the body changes in place, in `closed/`. */
  lemma ReopenInPlace(m: map<Value, Body>, s: State, p: Path, b: Body, pid: nat, now: Stamp, newName: FileName)
    returns (s1: State, s2: State, s3: State)
    requires Inv(m, s) && s.lock.None? && p in s.disk && p.dir.ClosedDir? && Unused(s.disk, newName)
    requires IdOf(b) == IdOf(s.disk[p].body) && !TerminalBody(b) && TerminalBody(s.disk[p].body) && Truthy(IdOf(b))
    ensures Enabled(s, Acquire(pid, Write(b))) && s1 == Next(s, Acquire(pid, Write(b)))
    ensures Enabled(s1, Fetch(pid, now)) && s2 == Next(s1, Fetch(pid, now))
    ensures Enabled(s2, Replace(pid, now, newName)) && s3 == Next(s2, Replace(pid, now, newName))
    ensures Inv(m, s3) && s1.disk == s2.disk == s.disk && s3.disk == s.disk[p := s.disk[p].(body := b)]
    ensures s3.lock == Some(Holder(pid, Written(IdOf(b))))
  {
    s1 := Next(s, Acquire(pid, Write(b)));
    s2 := Next(s1, Fetch(pid, now));
    assert s2.lock == Some(Holder(pid, Decided(Write(b), b)));
    assert FindPath(s.disk, IdOf(b)) == Some(p);
    assert Stamped(b, now) == b && !Settled(s.disk, b);
    s3 := Next(s2, Replace(pid, now, newName));
    StepKeepsInv(m, s, Acquire(pid, Write(b)));
    StepKeepsInv(m, s1, Fetch(pid, now));
    StepKeepsInv(m, s2, Replace(pid, now, newName));
  }

  lemma FiledBack(d: Disk, p: Path, id: Value)
    requires Wf(d) && p in d && p.dir.ClosedDir? && IdOf(d[p].body) == id && !TerminalBody(d[p].body)
    ensures Relocate(d, id) == (d - {p})[Path(Active, p.name) := d[p]]
  {
    assert FindPath(d, id) == Some(p);
  }

  /** A whole `write` of an open body over a filed terminal ticket, with no crash, while a scan opens files. */
  lemma ReopeningMoves(m: map<Value, Body>, s: State, p: Path, b: Body, pid: nat, now: Stamp, newName: FileName, c: Scan)
    returns (moves: seq<Move>, s': State, c': Scan)
    requires Inv(m, s) && s.lock.None? && p in s.disk && p.dir.ClosedDir? && Unused(s.disk, newName)
    requires IdOf(b) == IdOf(s.disk[p].body) && !TerminalBody(b) && TerminalBody(s.disk[p].body) && Truthy(IdOf(b))
    requires c.phase.Opening? && c.disk == s.disk
    ensures Inv(m, s') && Path(Active, p.name) in s'.disk && s'.disk[Path(Active, p.name)].body == b
    ensures Joint(s, c, moves, s', c') && c'.disk == s'.disk
    ensures c'.phase == c.phase && c'.out == c.out && c'.includeClosed == c.includeClosed
  {
    var s1, s2, s3 := ReopenInPlace(m, s, p, b, pid, now, newName);
    FiledBack(s3.disk, p, IdOf(b));
    StepKeepsInv(m, s3, MoveAndRelease(pid));
    s' := Next(s3, MoveAndRelease(pid));
    FourMoves(s, c, Acquire(pid, Write(b)), s1, Fetch(pid, now), s2, Replace(pid, now, newName), s3, MoveAndRelease(pid), s');
    moves := [Mutate(Acquire(pid, Write(b))), Mutate(Fetch(pid, now)), Mutate(Replace(pid, now, newName)), Mutate(MoveAndRelease(pid))];
    c' := Observe(Observe(Observe(Observe(c, s1.disk), s2.disk), s3.disk), s'.disk);
  }

  /** Any filed terminal ticket of any sound store can slip through: some full scan meets a write that reopens it and misses it. */
  lemma ReopeningEscapesScan(m: map<Value, Body>, s: State, p: Path, b: Body, pid: nat, now: Stamp, newName: FileName)
    returns (moves: seq<Move>, s': State, t: Scan)
    requires Inv(m, s) && s.lock.None? && p in s.disk && p.dir.ClosedDir? && Unused(s.disk, newName)
    requires IdOf(b) == IdOf(s.disk[p].body) && !TerminalBody(b) && TerminalBody(s.disk[p].body)
    ensures Joint(s, Begin(s.disk, true), moves, s', t) && t.phase.Finished?
    ensures IdOf(b) in Ids(s'.disk) && IdOf(b) !in Seen(t.out)
  {
    var id, c := IdOf(b), Begin(s.disk, true);
    assert SoundFile(p, s.disk[p]);
    var first, c1 := ScanDirectory(s, c, id);
    var middle, c2;
    middle, s', c2 := ReopeningMoves(m, s, p, b, pid, now, newName, c1);
    var c3 := Perform(c2, NextDir);
    var last, c4 := ScanDirectory(s', c3, id);
    t := Perform(c4, NextDir);
    OneMove(s', c2, Look(NextDir), s', c3);
    OneMove(s', c4, Look(NextDir), s', t);
    JointConcat(s, c, first, s, c1, middle, s', c2);
    JointConcat(s, c, first + middle, s', c2, [Look(NextDir)], s', c3);
    JointConcat(s, c, first + middle + [Look(NextDir)], s', c3, last, s', c4);
    moves := first + middle + [Look(NextDir)] + last + [Look(NextDir)];
    JointConcat(s, c, first + middle + [Look(NextDir)] + last, s', c4, [Look(NextDir)], s', t);
  }
}
