/**
 Any number of processes mutating the store under the advisory lock. One
 mutation is several steps: take the lock, look the ticket up and decide the
 new body, replace (or create) the file, rename it across, release. The holder
 may die between any two steps; the operating system then drops its lock.
 */
module StoreProtocol {
  import opened Tickets
  import opened TicketStore

  datatype Op =
    | Write(ticket: Body)
    | SetWorker(id: Value, worker: Value)
    | SetStatus(id: Value, status: Status)
    | Close(id: Value, result: Value, status: Status)
    | ConditionalUpdate(id: Value, expected: set<Value>, mutate: Body -> Body)

  /** What a mutator makes of the live body it reads under the lock. */
  datatype Decision =
    | Persist(body: Body)
    | UnknownTicket
    | Declined
    | BadRequest

  function Subject(op: Op): Value {
    if op.Write? then IdOf(op.ticket) else op.id
  }

  function PersistWithId(b: Body): Decision {
    if Truthy(IdOf(b)) then Persist(b) else BadRequest
  }

  function CloseDecision(live: Option<Body>, result: Value, status: Status, now: Stamp): Decision {
    if !IsTerminal(status) then BadRequest
    else if live.None? then UnknownTicket
    else PersistWithId(Closing(live.value, result, status, now))
  }

  function Closing(b: Body, result: Value, status: Status, now: Stamp): Body {
    var b := b[KeyStatus := Stat(status)];
    var b := if result.Null? then b else b[KeyResult := result];
    b[KeyCompletedAt := Text(now)][KeyUpdatedAt := Text(now)]
  }

  function Decide(op: Op, live: Option<Body>, now: Stamp): (d: Decision)
    ensures d.Persist? ==> Truthy(IdOf(d.body))
  {
    match op
    case Write(ticket) => PersistWithId(ticket)
    case SetWorker(_, worker) =>
      if live.None? then UnknownTicket
      else if TerminalBody(live.value) then Declined
      else PersistWithId(live.value[KeyWorker := worker][KeyUpdatedAt := Text(now)])
    case SetStatus(_, status) =>
      if IsTerminal(status) then CloseDecision(live, Null, status, now)
      else if live.None? then UnknownTicket
      else if TerminalBody(live.value) then Declined
      else PersistWithId(live.value[KeyStatus := Stat(status)][KeyUpdatedAt := Text(now)])
    case Close(_, result, status) => CloseDecision(live, result, status, now)
    case ConditionalUpdate(_, expected, mutate) =>
      if live.None? then UnknownTicket
      else if Get(live.value, KeyStatus) !in expected then Declined
      else PersistWithId(mutate(live.value)[KeyUpdatedAt := Text(now)])
  }

  // ---- The step relation ----

  datatype Phase = Locked(op: Op) | Decided(op: Op, body: Body) | Written(id: Value)
  datatype Holder = Holder(pid: nat, phase: Phase)

  /** One effective in-place replace: the operation, the body it replaced and the body it stored. */
  datatype Entry = Entry(op: Op, before: Option<Body>, after: Body)

  datatype State = State(disk: Disk, lock: Option<Holder>, log: seq<Entry>)

  datatype Label =
    | Acquire(pid: nat, op: Op)
    | Fetch(pid: nat, now: Stamp)
    | Replace(pid: nat, now: Stamp, newName: FileName)
    | MoveAndRelease(pid: nat)
    | Crash(pid: nat)

  ghost predicate Enabled(s: State, l: Label) {
    match l
    case Acquire(_, _) => s.lock.None?
    case Fetch(pid, _) => s.lock.Some? && s.lock.value.pid == pid && s.lock.value.phase.Locked?
    case Replace(pid, _, newName) =>
      s.lock.Some? && s.lock.value.pid == pid && s.lock.value.phase.Decided? && Unused(s.disk, newName)
    case MoveAndRelease(pid) => s.lock.Some? && s.lock.value.pid == pid && s.lock.value.phase.Written?
    case Crash(pid) => s.lock.Some? && s.lock.value.pid == pid
  }

  ghost function Next(s: State, l: Label): State
    requires Enabled(s, l)
  {
    match l
    case Acquire(pid, op) => s.(lock := Some(Holder(pid, Locked(op))))
    case Fetch(pid, now) =>
      var op := s.lock.value.phase.op;
      var decision := Decide(op, Read(s.disk, Subject(op)), now);
      s.(lock := if decision.Persist? then Some(Holder(pid, Decided(op, decision.body))) else None)
    case Replace(pid, now, newName) =>
      var op, b := s.lock.value.phase.op, Stamped(s.lock.value.phase.body, now);
      State(Commit(s.disk, b, newName),
            Some(Holder(pid, Written(IdOf(b)))),
            if Settled(s.disk, b) then s.log else s.log + [Entry(op, Read(s.disk, IdOf(b)), b)])
    case MoveAndRelease(pid) => State(Relocate(s.disk, s.lock.value.phase.id), None, s.log)
    case Crash(pid) => s.(lock := None)
  }

  ghost predicate Run(s: State, labels: seq<Label>, t: State)
    decreases |labels|
  {
    if labels == [] then s == t
    else Enabled(s, labels[0]) && Run(Next(s, labels[0]), labels[1..], t)
  }

  ghost predicate Initial(s: State) {
    Wf(s.disk) && s.lock.None? && s.log == []
  }

  // ---- The sequential history the run is equivalent to ----

  ghost function Lookup(m: map<Value, Body>, id: Value): Option<Body> {
    if id in m then Some(m[id]) else None
  }

  ghost function Replay(m: map<Value, Body>, log: seq<Entry>): map<Value, Body> {
    if log == [] then m
    else
      var e := log[|log| - 1];
      Replay(m, log[..|log| - 1])[IdOf(e.after) := e.after]
  }

  /** The entry is what its operation computes, alone, from the queue left by the entries before it. */
  ghost predicate SequentialEntry(m: map<Value, Body>, e: Entry) {
    && e.before == Lookup(m, IdOf(e.after))
    && exists decidedAt: Stamp, storedAt: Stamp ::
         var d := Decide(e.op, Lookup(m, Subject(e.op)), decidedAt);
         d.Persist? && e.after == Stamped(d.body, storedAt)
  }

  ghost predicate SequentialLog(m: map<Value, Body>, log: seq<Entry>) {
    forall i :: 0 <= i < |log| ==> SequentialEntry(Replay(m, log[..i]), log[i])
  }

  ghost predicate LockInv(s: State) {
    s.lock.Some? && s.lock.value.phase.Decided? ==>
      var op, b := s.lock.value.phase.op, s.lock.value.phase.body;
      && Truthy(IdOf(b))
      && exists now: Stamp :: Decide(op, Read(s.disk, Subject(op)), now) == Persist(b)
  }

  ghost predicate Inv(m: map<Value, Body>, s: State) {
    && Wf(s.disk)
    && Abs(s.disk) == Replay(m, s.log)
    && SequentialLog(m, s.log)
    && LockInv(s)
  }

  lemma ExtendLog(m: map<Value, Body>, log: seq<Entry>, e: Entry)
    requires SequentialLog(m, log) && SequentialEntry(Replay(m, log), e)
    ensures SequentialLog(m, log + [e])
    ensures Replay(m, log + [e]) == Replay(m, log)[IdOf(e.after) := e.after]
  {
    var log' := log + [e];
    assert log'[..|log|] == log;
    forall i | 0 <= i < |log'| ensures SequentialEntry(Replay(m, log'[..i]), log'[i]) {
      if i < |log| {
        assert log'[..i] == log[..i];
      }
    }
  }

  /** Under the lock, the decision taken at the look-up is still the one the live body asks for. */
  lemma DecisionIsLive(d: Disk, op: Op, b: Body, decidedAt: Stamp, storedAt: Stamp)
    requires Wf(d) && Decide(op, Read(d, Subject(op)), decidedAt) == Persist(b)
    ensures var c := Stamped(b, storedAt); SequentialEntry(Abs(d), Entry(op, Read(d, IdOf(c)), c))
  {
    var c := Stamped(b, storedAt);
    ReadIsLookup(d, Subject(op));
    ReadIsLookup(d, IdOf(c));
    assert Lookup(Abs(d), Subject(op)) == Read(d, Subject(op));
  }

  /** What an effective replace adds to the history is legal there, and is what readers then see. */
  lemma CommitExtends(m: map<Value, Body>, d: Disk, log: seq<Entry>, op: Op, b: Body, decidedAt: Stamp, now: Stamp, newName: FileName)
    requires Wf(d) && Abs(d) == Replay(m, log) && SequentialLog(m, log) && Unused(d, newName) && Truthy(IdOf(b))
    requires Decide(op, Read(d, Subject(op)), decidedAt) == Persist(b)
    ensures var c := Stamped(b, now); var e := Commit(d, c, newName);
      var log' := if Settled(d, c) then log else log + [Entry(op, Read(d, IdOf(c)), c)];
      Wf(e) && Abs(e) == Replay(m, log') && SequentialLog(m, log')
  {
    var c := Stamped(b, now);
    CommitRefines(d, c, newName);
    if !Settled(d, c) {
      DecisionIsLive(d, op, b, decidedAt, now);
      ExtendLog(m, log, Entry(op, Read(d, IdOf(c)), c));
    }
  }

  lemma ReplaceKeepsInv(m: map<Value, Body>, s: State, l: Label)
    requires Inv(m, s) && Enabled(s, l) && l.Replace?
    ensures Inv(m, Next(s, l))
  {
    var op, b := s.lock.value.phase.op, s.lock.value.phase.body;
    var decidedAt: Stamp :| Decide(op, Read(s.disk, Subject(op)), decidedAt) == Persist(b);
    CommitExtends(m, s.disk, s.log, op, b, decidedAt, l.now, l.newName);
  }

  lemma FetchKeepsInv(m: map<Value, Body>, s: State, l: Label)
    requires Inv(m, s) && Enabled(s, l) && l.Fetch?
    ensures Inv(m, Next(s, l))
  {
  }

  lemma StepKeepsInv(m: map<Value, Body>, s: State, l: Label)
    requires Inv(m, s) && Enabled(s, l)
    ensures Inv(m, Next(s, l))
  {
    match l
    case Acquire(_, _) =>
    case Fetch(_, _) => FetchKeepsInv(m, s, l);
    case Replace(_, _, _) => ReplaceKeepsInv(m, s, l);
    case MoveAndRelease(_) => RelocateRefines(s.disk, s.lock.value.phase.id);
    case Crash(_) =>
  }

  /**
   Every interleaving, with crashes anywhere: the disk stays sound (one file per ticket over both
   directories, terminal bodies stamped), and what readers see is the replay of a legal sequential
   history of the mutators.
   */
  lemma {:induction false} EveryRunIsSequential(m: map<Value, Body>, s: State, labels: seq<Label>, t: State)
    requires Inv(m, s) && Run(s, labels, t)
    ensures Inv(m, t)
    decreases |labels|
  {
    if labels != [] {
      StepKeepsInv(m, s, labels[0]);
      EveryRunIsSequential(m, Next(s, labels[0]), labels[1..], t);
    }
  }

  lemma InitialInv(s: State)
    requires Initial(s)
    ensures Inv(Abs(s.disk), s)
  {
  }

  /** A step that logged one entry: a replace of the holder's own operation, which readers see as one update. */
  ghost predicate Shows(s: State, l: Label, e: Entry) {
    && l.Replace? && s.lock.Some? && s.lock.value.phase.Decided? && e.op == s.lock.value.phase.op
    && Enabled(s, l) && Next(s, l).log == s.log + [e]
    && Abs(Next(s, l).disk) == Abs(s.disk)[IdOf(e.after) := e.after]
  }

  /** Readers see a change at in-place replaces only; the rename, the release and a crash are invisible. */
  lemma OnlyReplaceIsVisible(m: map<Value, Body>, s: State, l: Label)
    requires Inv(m, s) && Enabled(s, l)
    ensures Next(s, l).log == s.log ==> Abs(Next(s, l).disk) == Abs(s.disk)
    ensures Next(s, l).log != s.log ==> exists e :: Shows(s, l, e)
  {
    StepKeepsInv(m, s, l);
    var t := Next(s, l);
    if l.Replace? {
      ReplaceLogs(s, l);
      if t.log != s.log {
        ReplayOneMore(m, s.log, t.log[|s.log|]);
        assert Shows(s, l, t.log[|s.log|]);
      }
    } else {
      assert t.log == s.log;
    }
  }

  /** A replace logs its own operation, or nothing. */
  lemma ReplaceLogs(s: State, l: Label)
    requires Enabled(s, l) && l.Replace?
    ensures var t := Next(s, l);
      t.log == s.log || (|t.log| == |s.log| + 1 && t.log == s.log + [t.log[|s.log|]] && t.log[|s.log|].op == s.lock.value.phase.op)
  {
  }

  lemma ReplayOneMore(m: map<Value, Body>, log: seq<Entry>, e: Entry)
    ensures Replay(m, log + [e]) == Replay(m, log)[IdOf(e.after) := e.after]
  {
    assert (log + [e])[..|log|] == log;
  }

  // ---- Where files live ----

  ghost predicate Reopens(e: Entry) {
    e.before.Some? && TerminalBody(e.before.value) && !TerminalBody(e.after)
  }

  ghost predicate NoReopening(log: seq<Entry>) {
    forall i :: 0 <= i < |log| ==> !Reopens(log[i])
  }

  /** The only misplaced file is a terminal body still in `tickets/`. */
  ghost predicate OnlyStragglers(d: Disk) {
    forall p :: p in d && p.dir.ClosedDir? ==> TerminalBody(d[p].body)
  }

  /** The bodies the in-flight listing returns. */
  ghost function InFlight(d: Disk): set<Body> {
    set p | p in d && p.dir.Active? && !TerminalBody(d[p].body) :: d[p].body
  }

  ghost function NonTerminalPart(m: map<Value, Body>): set<Body> {
    set id | id in m && !TerminalBody(m[id]) :: m[id]
  }

  /** The in-flight listing is the non-terminal queue exactly when no open body sits in `closed/`. */
  lemma InFlightExactIff(d: Disk)
    requires Wf(d)
    ensures InFlight(d) == NonTerminalPart(Abs(d)) <==> OnlyStragglers(d)
  {
    var m := Abs(d);
    forall b | b in InFlight(d) ensures b in NonTerminalPart(m) {
      var p :| p in d && p.dir.Active? && !TerminalBody(d[p].body) && d[p].body == b;
      AbsAt(d, p);
    }
    if OnlyStragglers(d) {
      forall b | b in NonTerminalPart(m) ensures b in InFlight(d) {
        var id :| id in m && m[id] == b;
        assert d[HolderOf(d, id)].body == b;
      }
    } else {
      var p :| p in d && p.dir.ClosedDir? && !TerminalBody(d[p].body);
      AbsAt(d, p);
      assert d[p].body in NonTerminalPart(m);
      OneFilePerBody(d, p);
    }
  }

  lemma OneFilePerBody(d: Disk, p: Path)
    requires IdsUnique(d) && p in d && p.dir.ClosedDir?
    ensures d[p].body !in InFlight(d)
  {
    forall q | q in d && d[q].body == d[p].body ensures q == p {
    }
  }

  lemma StepKeepsPlacement(s: State, l: Label)
    requires Enabled(s, l) && OnlyStragglers(s.disk) && NoReopening(Next(s, l).log)
    ensures OnlyStragglers(Next(s, l).disk)
  {
    match l
    case Replace(_, now, newName) =>
      var b := Stamped(s.lock.value.phase.body, now);
      if !Settled(s.disk, b) {
        assert !Reopens(Next(s, l).log[|s.log|]);
        CommitKeepsPlacement(s.disk, b, newName);
      }
    case MoveAndRelease(_) => RelocateKeepsPlacement(s.disk, s.lock.value.phase.id);
    case _ => assert Next(s, l).disk == s.disk;
  }

  lemma RelocateKeepsPlacement(d: Disk, id: Value)
    requires OnlyStragglers(d)
    ensures OnlyStragglers(Relocate(d, id))
  {
  }

  lemma CommitKeepsPlacement(d: Disk, b: Body, newName: FileName)
    requires OnlyStragglers(d)
    requires !(Read(d, IdOf(b)).Some? && TerminalBody(Read(d, IdOf(b)).value) && !TerminalBody(b))
    ensures OnlyStragglers(Commit(d, b, newName))
  {
  }

  lemma LogGrows(s: State, labels: seq<Label>, t: State)
    requires Run(s, labels, t)
    ensures s.log <= t.log
    decreases |labels|
  {
    if labels != [] {
      LogGrows(Next(s, labels[0]), labels[1..], t);
    }
  }

  /** In runs without reopening, the in-flight listing is exactly the non-terminal queue at every moment. */
  lemma {:induction false} InFlightIsExactWithoutReopening(m: map<Value, Body>, s: State, labels: seq<Label>, t: State)
    requires Inv(m, s) && OnlyStragglers(s.disk) && Run(s, labels, t) && NoReopening(t.log)
    ensures OnlyStragglers(t.disk) && InFlight(t.disk) == NonTerminalPart(Replay(m, t.log))
    decreases |labels|
  {
    EveryRunIsSequential(m, s, labels, t);
    InFlightExactIff(t.disk);
    if labels != [] {
      var u := Next(s, labels[0]);
      LogGrows(u, labels[1..], t);
      forall i | 0 <= i < |u.log| ensures !Reopens(u.log[i]) {
        assert u.log[i] == t.log[i];
      }
      StepKeepsInv(m, s, labels[0]);
      StepKeepsPlacement(s, labels[0]);
      InFlightIsExactWithoutReopening(m, u, labels[1..], t);
    }
  }

  // ---- Reopening is harmless unless it crashes half way ----

  /** An open body may sit in `closed/` only between the two replaces of the holder that is reopening it. */
  ghost predicate StraysAreHeld(s: State) {
    forall p :: p in s.disk && p.dir.ClosedDir? && !TerminalBody(s.disk[p].body) ==> IsHeld(s, IdOf(s.disk[p].body))
  }

  ghost predicate IsHeld(s: State, id: Value) {
    s.lock.Some? && s.lock.value.phase == Written(id)
  }

  /** A crash of a holder whose written ticket is an open body in `closed/`. */
  ghost predicate Harmful(s: State, l: Label) {
    l.Crash? && exists p :: p in s.disk && p.dir.ClosedDir? && !TerminalBody(s.disk[p].body)
                            && IsHeld(s, IdOf(s.disk[p].body))
  }

  lemma CommitStraysOnlyItself(d: Disk, b: Body, newName: FileName)
    requires OnlyStragglers(d)
    ensures forall p :: p in Commit(d, b, newName) && p.dir.ClosedDir? && !TerminalBody(Commit(d, b, newName)[p].body)
              ==> IdOf(Commit(d, b, newName)[p].body) == IdOf(b)
  {
  }

  /** Filing the written ticket leaves no open body of it in `closed/`, and moves nothing else there. */
  lemma RelocateEndsStray(d: Disk, id: Value)
    requires Wf(d)
    requires forall p :: p in d && p.dir.ClosedDir? && !TerminalBody(d[p].body) ==> IdOf(d[p].body) == id
    ensures OnlyStragglers(Relocate(d, id))
  {
    RelocateRefines(d, id);
    var e := Relocate(d, id);
    forall p | p in e && p.dir.ClosedDir? ensures TerminalBody(e[p].body) {
      if IdOf(e[p].body) != id {
        RelocateKeepsOthers(d, id, p);
      }
    }
  }

  lemma RelocateKeepsOthers(d: Disk, id: Value, p: Path)
    requires p in Relocate(d, id) && IdOf(Relocate(d, id)[p].body) != id
    ensures p in d && d[p] == Relocate(d, id)[p]
  {
  }

  lemma FreeMeansOnlyStragglers(s: State)
    requires StraysAreHeld(s) && !(s.lock.Some? && s.lock.value.phase.Written?)
    ensures OnlyStragglers(s.disk)
  {
  }

  lemma StepKeepsStraysHeld(m: map<Value, Body>, s: State, l: Label)
    requires Inv(m, s) && Enabled(s, l) && StraysAreHeld(s)
    ensures StraysAreHeld(Next(s, l)) <==> !Harmful(s, l)
  {
    match l
    case Replace(_, now, newName) => ReplaceHoldsStray(s, l);
    case MoveAndRelease(_) => RelocateEndsStray(s.disk, s.lock.value.phase.id);
    case Crash(_) => CrashLeavesStray(s, l);
    case _ => FreeMeansOnlyStragglers(s);
  }

  lemma ReplaceHoldsStray(s: State, l: Label)
    requires Enabled(s, l) && l.Replace? && StraysAreHeld(s)
    ensures StraysAreHeld(Next(s, l))
  {
    FreeMeansOnlyStragglers(s);
    CommitStraysOnlyItself(s.disk, Stamped(s.lock.value.phase.body, l.now), l.newName);
  }

  lemma CrashLeavesStray(s: State, l: Label)
    requires Enabled(s, l) && l.Crash? && StraysAreHeld(s)
    ensures StraysAreHeld(Next(s, l)) <==> !Harmful(s, l)
  {
    assert Next(s, l).lock.None? && Next(s, l).disk == s.disk;
  }

  ghost predicate NoHarmfulCrash(s: State, labels: seq<Label>)
    decreases |labels|
  {
    labels == [] || (Enabled(s, labels[0]) ==> !Harmful(s, labels[0]) && NoHarmfulCrash(Next(s, labels[0]), labels[1..]))
  }

  lemma {:induction false} RunKeepsStraysHeld(m: map<Value, Body>, s: State, labels: seq<Label>, t: State)
    requires Inv(m, s) && StraysAreHeld(s) && Run(s, labels, t) && NoHarmfulCrash(s, labels)
    ensures StraysAreHeld(t)
    decreases |labels|
  {
    if labels != [] {
      StepKeepsStraysHeld(m, s, labels[0]);
      StepKeepsInv(m, s, labels[0]);
      RunKeepsStraysHeld(m, Next(s, labels[0]), labels[1..], t);
    }
  }

  /**
   In every run, reopenings included, in which no reopening dies between its two replaces, the in-flight listing is
   exactly the non-terminal queue whenever the lock is free.
   */
  lemma InFlightIsExactWhenUnlocked(m: map<Value, Body>, s: State, labels: seq<Label>, t: State)
    requires Inv(m, s) && StraysAreHeld(s) && Run(s, labels, t) && NoHarmfulCrash(s, labels) && t.lock.None?
    ensures InFlight(t.disk) == NonTerminalPart(Replay(m, t.log))
  {
    RunKeepsStraysHeld(m, s, labels, t);
    EveryRunIsSequential(m, s, labels, t);
    FreeMeansOnlyStragglers(t);
    InFlightExactIff(t.disk);
  }

  /** And only such a crash does harm: after any other crash the listing is exact, after that one it is not. */
  lemma CrashHarmsIff(m: map<Value, Body>, s: State, l: Label)
    requires Inv(m, s) && StraysAreHeld(s) && Enabled(s, l) && l.Crash?
    ensures InFlight(Next(s, l).disk) == NonTerminalPart(Abs(Next(s, l).disk)) <==> !Harmful(s, l)
  {
    StepKeepsStraysHeld(m, s, l);
    InFlightExactIff(s.disk);
    if !Harmful(s, l) {
      FreeMeansOnlyStragglers(Next(s, l));
    }
  }

  /**
   The residue the module's documentation does not admit: whenever a write reopens a filed ticket and
   dies between its two replaces, readers by id see the open ticket but the in-flight listing does not.
   */
  lemma ReopeningCrashHidesTicket(d: Disk, p: Path, b: Body, pid: nat, now: Stamp, newName: FileName)
    requires Wf(d) && p in d && p.dir.ClosedDir? && Unused(d, newName)
    requires IdOf(b) == IdOf(d[p].body) && !TerminalBody(b) && TerminalBody(d[p].body)
    ensures var t := State(d[p := d[p].(body := b)], None, [Entry(Write(b), Some(d[p].body), b)]);
      && Run(State(d, None, []), [Acquire(pid, Write(b)), Fetch(pid, now), Replace(pid, now, newName), Crash(pid)], t)
      && Read(t.disk, IdOf(b)) == Some(b)
      && b !in InFlight(t.disk)
  {
    var s0 := State(d, None, []);
    var s1 := Next(s0, Acquire(pid, Write(b)));
    var s2 := Next(s1, Fetch(pid, now));
    assert s2.lock == Some(Holder(pid, Decided(Write(b), b)));
    assert FindPath(d, IdOf(b)) == Some(p);
    assert Stamped(b, now) == b;
    assert !Settled(d, b);
    var s3 := Next(s2, Replace(pid, now, newName));
    var t := Next(s3, Crash(pid));
    RunOf4(s0, Acquire(pid, Write(b)), Fetch(pid, now), Replace(pid, now, newName), Crash(pid));
    assert t.log == [Entry(Write(b), Some(d[p].body), b)];
    CommitRefines(d, b, newName);
    assert t.disk[p].body == b;
    OneFilePerBody(t.disk, p);
  }

  lemma RunOf4(s: State, a: Label, b: Label, c: Label, e: Label)
    requires Enabled(s, a) && Enabled(Next(s, a), b) && Enabled(Next(Next(s, a), b), c)
    requires Enabled(Next(Next(Next(s, a), b), c), e)
    ensures Run(s, [a, b, c, e], Next(Next(Next(Next(s, a), b), c), e))
  {
    var s1 := Next(s, a);
    var s2 := Next(s1, b);
    var s3 := Next(s2, c);
    var s4 := Next(s3, e);
    assert Run(s4, [], s4);
    assert [e][1..] == [];
    assert Run(s3, [e], s4);
    assert [c, e][1..] == [e];
    assert Run(s2, [c, e], s4);
    assert [b, c, e][1..] == [c, e];
    assert Run(s1, [b, c, e], s4);
    assert [a, b, c, e][1..] == [b, c, e];
  }

  // ---- A mutation that is left alone ----

  /** Steps of the holder itself, none of them a crash. */
  ghost predicate OwnSteps(labels: seq<Label>, pid: nat) {
    forall i :: 0 <= i < |labels| ==> !labels[i].Crash? && labels[i].pid == pid
  }

  lemma OneMore(s: State, l: Label, labels: seq<Label>, t: State)
    requires Enabled(s, l) && Run(Next(s, l), labels, t)
    ensures Run(s, [l] + labels, t)
  {
    assert ([l] + labels)[1..] == labels;
  }

  /** What the disk becomes if the holder finishes its mutation undisturbed. */
  ghost function Completed(d: Disk, phase: Phase, now: Stamp, newName: FileName): Disk {
    match phase
    case Written(id) => Relocate(d, id)
    case Decided(_, b) => Put(d, b, now, newName)
    case Locked(op) =>
      var decision := Decide(op, Read(d, Subject(op)), now);
      if decision.Persist? then Put(d, decision.body, now, newName) else d
  }

  /** From any state the holder of the lock can finish on its own, and then the lock is free. */
  lemma HolderCanFinish(s: State, now: Stamp, newName: FileName) returns (labels: seq<Label>, t: State)
    requires s.lock.Some? && Unused(s.disk, newName)
    ensures Run(s, labels, t) && OwnSteps(labels, s.lock.value.pid) && t.lock.None?
    ensures t.disk == Completed(s.disk, s.lock.value.phase, now, newName)
    decreases if s.lock.value.phase.Locked? then 2 else if s.lock.value.phase.Decided? then 1 else 0
  {
    var pid := s.lock.value.pid;
    var l := match s.lock.value.phase
      case Locked(_) => Fetch(pid, now)
      case Decided(_, _) => Replace(pid, now, newName)
      case Written(_) => MoveAndRelease(pid);
    var u := Next(s, l);
    if u.lock.None? {
      labels, t := [], u;
    } else if l.Replace? {
      labels, t := FinishMove(u);
    } else {
      labels, t := HolderCanFinish(u, now, newName);
    }
    OneMore(s, l, labels, t);
    labels := [l] + labels;
  }

  lemma FinishMove(s: State) returns (labels: seq<Label>, t: State)
    requires s.lock.Some? && s.lock.value.phase.Written?
    ensures Run(s, labels, t) && OwnSteps(labels, s.lock.value.pid) && t.lock.None?
    ensures t.disk == Relocate(s.disk, s.lock.value.phase.id)
  {
    var l := MoveAndRelease(s.lock.value.pid);
    assert Run(Next(s, l), [], Next(s, l));
    OneMore(s, l, [], Next(s, l));
    labels, t := [l], Next(s, l);
    assert [l] + [] == [l];
  }

  /** So a mutator that is left alone does exactly one `_put` of what it decides on the live body, and lets the lock go. */
  lemma AloneIsOnePut(s: State, op: Op, pid: nat, now: Stamp, newName: FileName) returns (labels: seq<Label>, t: State)
    requires s.lock.None? && Unused(s.disk, newName)
    ensures Run(s, labels, t) && OwnSteps(labels, pid) && t.lock.None?
    ensures
      var decision := Decide(op, Read(s.disk, Subject(op)), now);
      t.disk == if decision.Persist? then Put(s.disk, decision.body, now, newName) else s.disk
  {
    var l := Acquire(pid, op);
    labels, t := HolderCanFinish(Next(s, l), now, newName);
    OneMore(s, l, labels, t);
    labels := [l] + labels;
  }

  /** The next completed mutation of that ticket files it where its status says: it is listed again. */
  lemma CompletedPutHeals(d: Disk, b: Body, now: Stamp, newName: FileName)
    requires Wf(d) && Unused(d, newName) && Truthy(IdOf(b))
    ensures var e := Put(d, b, now, newName);
      Read(e, IdOf(b)).Some? && (Read(e, IdOf(b)).value in InFlight(e) <==> !TerminalBody(Read(e, IdOf(b)).value))
  {
    PutRefines(d, b, now, newName);
    var e := Put(d, b, now, newName);
    ReadIsLookup(e, IdOf(b));
    var p := FindPath(e, IdOf(b)).value;
    assert p.dir == TargetDir(e[p].body);
  }
}
