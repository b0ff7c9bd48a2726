/**
 `_load` and `_save`: the whole queue is read (with defaults filled in), edited
 in memory, and written back ticket by ticket where it differs from the disk.
 No lock spans the three steps.
 */
module QueueSave {
  import opened Tickets
  import opened TicketStore
  import opened TicketFiles

  /** The keys every caller assumes present. */
  function Defaults(): Body {
    map[
      KeyResult := Null,
      KeyRole := Text("master"),
      KeyPriority := Num(0.5),
      KeyGate := Null,
      KeyRelatedTo := Null,
      KeyGithubIssue := Null,
      KeyDispatchedAt := Null,
      KeyRequiredFiles := Items([]),
      KeyTargetDifficulty := Num(1.0)
    ]
  }

  /** Backfills missing keys without clobbering present ones. */
  function WithDefaults(b: Body): Body {
    Defaults() + b
  }

  /** Present keys are kept, missing ones filled; doing it twice changes nothing. */
  lemma DefaultsFillOnly(b: Body)
    ensures forall k :: k in WithDefaults(b) <==> k in b || k in Defaults()
    ensures forall k :: k in b ==> WithDefaults(b)[k] == b[k]
    ensures forall k :: k in Defaults() && k !in b ==> WithDefaults(b)[k] == Defaults()[k]
    ensures WithDefaults(WithDefaults(b)) == WithDefaults(b)
  {
  }

  /** `_save` leaves a task alone when its disk snapshot, with defaults, is the same up to `updated_at`. */
  predicate Unchanged(snapshot: map<Value, Body>, t: Body) {
    IdOf(t) in snapshot && EqIgnoringUpdatedAt(WithDefaults(snapshot[IdOf(t)]), t)
  }

  predicate Writes(snapshot: map<Value, Body>, t: Body) {
    Truthy(IdOf(t)) && !Unchanged(snapshot, t)
  }

  ghost function SaveOne(snapshot: map<Value, Body>, d: Disk, t: Body, now: Stamp, newName: FileName): Disk {
    if Writes(snapshot, t) then Put(d, t, now, newName) else d
  }

  ghost function SaveAll(snapshot: map<Value, Body>, d: Disk, tasks: seq<Body>, now: Stamp, names: seq<FileName>): Disk
    requires |names| == |tasks|
  {
    if tasks == [] then d
    else
      var n := |tasks| - 1;
      SaveOne(snapshot, SaveAll(snapshot, d, tasks[..n], now, names[..n]), tasks[n], now, names[n])
  }

  /** How many of the first `n` tasks a save writes. */
  function CountWrites(snapshot: map<Value, Body>, tasks: seq<Body>, n: nat): nat
    requires n <= |tasks|
  {
    if n == 0 then 0 else CountWrites(snapshot, tasks, n - 1) + if Writes(snapshot, tasks[n - 1]) then 1 else 0
  }

  /** Supply of names for tickets not on disk yet. */
  ghost predicate FreshNames(d: Disk, names: seq<FileName>) {
    && (forall i :: 0 <= i < |names| ==> Unused(d, names[i]))
    && (forall i, j :: 0 <= i < j < |names| ==> names[i] != names[j])
  }

  ghost predicate DistinctIds(tasks: seq<Body>) {
    forall i, j :: 0 <= i < j < |tasks| ==> IdOf(tasks[i]) != IdOf(tasks[j])
  }

  /** `list(include_closed=True)`: exactly the bodies of the abstract queue. */
  method ListAll(store: Store) returns (bodies: seq<Body>)
    requires Wf(store.disk)
    ensures DistinctIds(bodies)
    ensures forall b :: b in bodies ==>
      IdOf(b) in Abs(store.disk) && Abs(store.disk)[IdOf(b)] == b && Truthy(IdOf(b))
    ensures forall id :: id in Abs(store.disk) ==> Abs(store.disk)[id] in bodies
  {
    bodies := store.List(None, true);
    ghost var d := store.disk;
    forall b | b in bodies ensures IdOf(b) in Abs(d) && Abs(d)[IdOf(b)] == b && Truthy(IdOf(b)) {
      var p :| p in d && d[p].body == b;
      AbsAt(d, p);
    }
    forall id | id in Abs(d) ensures Abs(d)[id] in bodies {
      assert d[HolderOf(d, id)].body == Abs(d)[id];
    }
  }

  /** The list is the queue, ticket by ticket, with defaults. */
  ghost predicate LoadOf(m: map<Value, Body>, tasks: seq<Body>) {
    && DistinctIds(tasks)
    && (forall t :: t in tasks ==> IdOf(t) in m && t == WithDefaults(m[IdOf(t)]))
    && (forall id :: id in m ==> WithDefaults(m[id]) in tasks)
  }

  /** `_load`: every stored ticket once, with defaults. */
  method Load(store: Store) returns (tasks: seq<Body>)
    requires Wf(store.disk)
    ensures LoadOf(Abs(store.disk), tasks)
  {
    var bodies := ListAll(store);
    tasks := FillAll(bodies);
    LoadedList(Abs(store.disk), bodies, tasks);
  }

  /** The loop of the load. */
  method FillAll(bodies: seq<Body>) returns (tasks: seq<Body>)
    ensures |tasks| == |bodies| && forall k :: 0 <= k < |tasks| ==> tasks[k] == WithDefaults(bodies[k])
  {
    tasks := [];
    var i := 0;
    while i < |bodies|
      invariant 0 <= i <= |bodies| && |tasks| == i
      invariant forall k :: 0 <= k < i ==> tasks[k] == WithDefaults(bodies[k])
    {
      tasks := tasks + [WithDefaults(bodies[i])];
      i := i + 1;
    }
  }

  lemma LoadedList(m: map<Value, Body>, bodies: seq<Body>, tasks: seq<Body>)
    requires |tasks| == |bodies| && DistinctIds(bodies)
    requires forall k :: 0 <= k < |tasks| ==> tasks[k] == WithDefaults(bodies[k])
    requires forall b :: b in bodies ==> IdOf(b) in m && m[IdOf(b)] == b && Truthy(IdOf(b))
    requires forall id :: id in m ==> m[id] in bodies
    ensures LoadOf(m, tasks)
  {
    forall k | 0 <= k < |tasks| ensures IdOf(tasks[k]) == IdOf(bodies[k]) && bodies[k] in bodies {
      DefaultsFillOnly(bodies[k]);
    }
    forall t | t in tasks ensures IdOf(t) in m && t == WithDefaults(m[IdOf(t)]) {
      var k :| 0 <= k < |tasks| && tasks[k] == t;
    }
    forall id | id in m ensures WithDefaults(m[id]) in tasks {
      var k :| 0 <= k < |bodies| && bodies[k] == m[id];
      assert tasks[k] == WithDefaults(m[id]);
    }
  }

  method Snapshot(store: Store) returns (m: map<Value, Body>)
    requires Wf(store.disk)
    ensures m == Abs(store.disk)
  {
    var bodies := ListAll(store);
    m := ById(bodies);
  }

  /** The names not used up yet are still free. */
  ghost predicate FreshFrom(d: Disk, names: seq<FileName>, i: nat) {
    && (forall k :: i <= k < |names| ==> Unused(d, names[k]))
    && (forall j, k :: i <= j < k < |names| ==> names[j] != names[k])
  }

  lemma SaveOneLeavesFresh(snapshot: map<Value, Body>, d: Disk, t: Body, now: Stamp, names: seq<FileName>, i: nat)
    requires Wf(d) && i < |names| && FreshFrom(d, names, i)
    ensures var e := SaveOne(snapshot, d, t, now, names[i]); Wf(e) && FreshFrom(e, names, i + 1)
  {
    SaveOneKeeps(snapshot, d, t, now, names[i]);
  }

  /** One iteration of the save. */
  method SaveTask(store: Store, diskById: map<Value, Body>, t: Body, now: Stamp, newName: FileName) returns (wrote: bool)
    requires Wf(store.disk) && Unused(store.disk, newName)
    modifies store
    ensures store.disk == SaveOne(diskById, old(store.disk), t, now, newName)
    ensures wrote <==> Writes(diskById, t)
  {
    if !Truthy(IdOf(t)) {
      return false;
    }
    if IdOf(t) in diskById && EqIgnoringUpdatedAt(WithDefaults(diskById[IdOf(t)]), t) {
      return false;
    }
    var _ := store.WriteTicket(t, now, newName);
    return true;
  }

  /** `_save`, against one snapshot of the disk taken at its start. */
  method Save(store: Store, tasks: seq<Body>, now: Stamp, names: seq<FileName>) returns (written: nat)
    requires Wf(store.disk) && |names| == |tasks| && FreshNames(store.disk, names)
    modifies store
    ensures store.disk == SaveAll(old(Abs(store.disk)), old(store.disk), tasks, now, names)
    ensures written == CountWrites(old(Abs(store.disk)), tasks, |tasks|)
  {
    var diskById := Snapshot(store);
    written := SaveChanged(store, diskById, tasks, now, names);
  }

  /** The loop of the save. */
  method SaveChanged(store: Store, diskById: map<Value, Body>, tasks: seq<Body>, now: Stamp, names: seq<FileName>)
    returns (written: nat)
    requires Wf(store.disk) && |names| == |tasks| && FreshFrom(store.disk, names, 0)
    modifies store
    ensures store.disk == SaveAll(diskById, old(store.disk), tasks, now, names)
    ensures written == CountWrites(diskById, tasks, |tasks|)
  {
    hide Put, Wf, Abs, Unused;
    written := 0;
    ghost var d := store.disk;
    var i := 0;
    while i < |tasks|
      invariant 0 <= i <= |tasks|
      invariant store.disk == SavedUpTo(diskById, d, tasks, now, names, i)
      invariant written == CountWrites(diskById, tasks, i)
      invariant Wf(store.disk) && FreshFrom(store.disk, names, i)
    {
      SaveOneLeavesFresh(diskById, store.disk, tasks[i], now, names, i);
      var wrote := SaveTask(store, diskById, tasks[i], now, names[i]);
      if wrote {
        written := written + 1;
      }
      i := i + 1;
    }
    SavedIsAll(diskById, d, tasks, now, names);
  }

  /** The disk when the first `n` tasks have been treated. */
  ghost function SavedUpTo(snapshot: map<Value, Body>, d: Disk, tasks: seq<Body>, now: Stamp, names: seq<FileName>, n: nat): Disk
    requires n <= |tasks| == |names|
  {
    if n == 0 then d else SaveOne(snapshot, SavedUpTo(snapshot, d, tasks, now, names, n - 1), tasks[n - 1], now, names[n - 1])
  }

  lemma {:induction false} SavedIs(snapshot: map<Value, Body>, d: Disk, tasks: seq<Body>, now: Stamp, names: seq<FileName>, n: nat)
    requires n <= |tasks| == |names|
    ensures SavedUpTo(snapshot, d, tasks, now, names, n) == SaveAll(snapshot, d, tasks[..n], now, names[..n])
  {
    if n > 0 {
      SavedIs(snapshot, d, tasks, now, names, n - 1);
      SaveAllUnfold(snapshot, d, tasks, now, names, n - 1);
    }
  }

  lemma SavedIsAll(snapshot: map<Value, Body>, d: Disk, tasks: seq<Body>, now: Stamp, names: seq<FileName>)
    requires |tasks| == |names|
    ensures SavedUpTo(snapshot, d, tasks, now, names, |tasks|) == SaveAll(snapshot, d, tasks, now, names)
  {
    SavedIs(snapshot, d, tasks, now, names, |tasks|);
    assert tasks[..|tasks|] == tasks && names[..|tasks|] == names;
  }

  lemma SaveAllUnfold(snapshot: map<Value, Body>, d: Disk, tasks: seq<Body>, now: Stamp, names: seq<FileName>, i: nat)
    requires |names| == |tasks| && i < |tasks|
    ensures SaveAll(snapshot, d, tasks[..i + 1], now, names[..i + 1])
         == SaveOne(snapshot, SaveAll(snapshot, d, tasks[..i], now, names[..i]), tasks[i], now, names[i])
  {
    assert tasks[..i + 1][..i] == tasks[..i] && names[..i + 1][..i] == names[..i];
  }

  method ById(bodies: seq<Body>) returns (m: map<Value, Body>)
    requires DistinctIds(bodies)
    ensures forall b :: b in bodies ==> IdOf(b) in m && m[IdOf(b)] == b
    ensures forall id :: id in m ==> m[id] in bodies && IdOf(m[id]) == id
  {
    m := map[];
    var i := 0;
    while i < |bodies|
      invariant 0 <= i <= |bodies|
      invariant forall k :: 0 <= k < i ==> IdOf(bodies[k]) in m && m[IdOf(bodies[k])] == bodies[k]
      invariant forall id :: id in m ==> m[id] in bodies && IdOf(m[id]) == id
    {
      m := m[IdOf(bodies[i]) := bodies[i]];
      i := i + 1;
    }
  }

  // ---- What a save does to the store ----

  lemma PutNames(d: Disk, b: Body, now: Stamp, newName: FileName, other: FileName)
    requires Wf(d) && Unused(d, newName) && Unused(d, other) && other != newName
    ensures Unused(Put(d, b, now, newName), other)
  {
    PutCases(d, b, now, newName);
  }

  lemma SaveOneKeeps(snapshot: map<Value, Body>, d: Disk, t: Body, now: Stamp, newName: FileName)
    requires Wf(d) && Unused(d, newName)
    ensures Wf(SaveOne(snapshot, d, t, now, newName))
    ensures forall other :: Unused(d, other) && other != newName ==> Unused(SaveOne(snapshot, d, t, now, newName), other)
  {
    if Writes(snapshot, t) {
      PutRefines(d, t, now, newName);
      forall other | Unused(d, other) && other != newName ensures Unused(Put(d, t, now, newName), other) {
        PutNames(d, t, now, newName, other);
      }
    }
  }

  lemma {:induction false} SaveAllKeeps(snapshot: map<Value, Body>, d: Disk, tasks: seq<Body>, now: Stamp, names: seq<FileName>)
    requires Wf(d) && |names| == |tasks| && FreshNames(d, names)
    ensures Wf(SaveAll(snapshot, d, tasks, now, names))
    ensures forall other :: Unused(d, other) && other !in names ==> Unused(SaveAll(snapshot, d, tasks, now, names), other)
  {
    if tasks != [] {
      var n := |tasks| - 1;
      SaveAllKeeps(snapshot, d, tasks[..n], now, names[..n]);
      SaveOneKeeps(snapshot, SaveAll(snapshot, d, tasks[..n], now, names[..n]), tasks[n], now, names[n]);
    }
  }

  /** A file whose ticket the list does not ask to change is not touched: same place, same bytes. */
  lemma {:induction false} SaveTouchesOnlyChanged(snapshot: map<Value, Body>, d: Disk, tasks: seq<Body>, now: Stamp,
                                                  names: seq<FileName>, p: Path)
    requires Wf(d) && |names| == |tasks| && FreshNames(d, names) && p in d
    requires forall i :: 0 <= i < |tasks| && IdOf(tasks[i]) == IdOf(d[p].body) ==> !Writes(snapshot, tasks[i])
    ensures var e := SaveAll(snapshot, d, tasks, now, names); p in e && e[p] == d[p]
  {
    if tasks != [] {
      var n := |tasks| - 1;
      SaveAllKeeps(snapshot, d, tasks[..n], now, names[..n]);
      SaveTouchesOnlyChanged(snapshot, d, tasks[..n], now, names[..n], p);
      if Writes(snapshot, tasks[n]) {
        PutTouchesOneFile(SaveAll(snapshot, d, tasks[..n], now, names[..n]), tasks[n], now, names[n], p);
      }
    }
  }

  lemma SaveOneCreatesOnlyItsOwn(snapshot: map<Value, Body>, d: Disk, t: Body, now: Stamp, newName: FileName, id: Value)
    requires Wf(d) && Unused(d, newName) && id !in Abs(d) && (IdOf(t) == id ==> !Writes(snapshot, t))
    ensures id !in Abs(SaveOne(snapshot, d, t, now, newName))
  {
    if Writes(snapshot, t) {
      PutRefines(d, t, now, newName);
    }
  }

  /** A ticket id the list does not ask to write is not created either. */
  lemma {:induction false} SaveCreatesOnlyListed(snapshot: map<Value, Body>, d: Disk, tasks: seq<Body>, now: Stamp,
                                                 names: seq<FileName>, id: Value)
    requires Wf(d) && |names| == |tasks| && FreshNames(d, names) && id !in Abs(d)
    requires forall i :: 0 <= i < |tasks| && IdOf(tasks[i]) == id ==> !Writes(snapshot, tasks[i])
    ensures id !in Abs(SaveAll(snapshot, d, tasks, now, names))
  {
    if tasks != [] {
      var n := |tasks| - 1;
      SaveAllKeeps(snapshot, d, tasks[..n], now, names[..n]);
      SaveCreatesOnlyListed(snapshot, d, tasks[..n], now, names[..n], id);
      SaveOneCreatesOnlyItsOwn(snapshot, SaveAll(snapshot, d, tasks[..n], now, names[..n]), tasks[n], now, names[n], id);
    }
  }

  /** `_save(_load())` changes no file at all. */
  lemma {:induction false} SaveOfLoadIsNoOp(snapshot: map<Value, Body>, d: Disk, tasks: seq<Body>, now: Stamp, names: seq<FileName>)
    requires |names| == |tasks|
    requires forall t :: t in tasks ==> IdOf(t) in snapshot && t == WithDefaults(snapshot[IdOf(t)])
    ensures SaveAll(snapshot, d, tasks, now, names) == d
  {
    if tasks != [] {
      var n := |tasks| - 1;
      SaveOfLoadIsNoOp(snapshot, d, tasks[..n], now, names[..n]);
      assert tasks[n] in tasks;
    }
  }

  /** What the save leaves of one task: its stored ticket if unchanged, else the task as given, with its stamp. */
  ghost predicate Stores(m: map<Value, Body>, e: Disk, t: Body, now: Stamp) {
    && IdOf(t) in Abs(e)
    && (Unchanged(m, t) ==> Abs(e)[IdOf(t)] == m[IdOf(t)])
    && (!Unchanged(m, t) ==> EqIgnoringUpdatedAt(Abs(e)[IdOf(t)], Stamped(t, now)))
  }

  /** The save as seen by readers, for one task of a list without repeated ids. */
  lemma {:induction false} SaveStoresTask(m: map<Value, Body>, d: Disk, tasks: seq<Body>, now: Stamp, names: seq<FileName>, k: nat)
    requires Wf(d) && m == Abs(d) && |names| == |tasks| && FreshNames(d, names) && DistinctIds(tasks)
    requires k < |tasks| && Truthy(IdOf(tasks[k]))
    ensures Wf(SaveAll(m, d, tasks, now, names)) && Stores(m, SaveAll(m, d, tasks, now, names), tasks[k], now)
  {
    hide Put, Wf, Abs, Unused;
    var n := |tasks| - 1;
    SaveAllKeeps(m, d, tasks, now, names);
    if k < n {
      SaveStoresTask(m, d, tasks[..n], now, names[..n], k);
      LaterTasksKeep(m, d, tasks, now, names, IdOf(tasks[k]));
    } else {
      SaveStoresLast(m, d, tasks, now, names);
    }
  }

  lemma SaveStoresLast(m: map<Value, Body>, d: Disk, tasks: seq<Body>, now: Stamp, names: seq<FileName>)
    requires Wf(d) && m == Abs(d) && |names| == |tasks| > 0 && FreshNames(d, names) && DistinctIds(tasks)
    requires Truthy(IdOf(tasks[|tasks| - 1]))
    ensures Stores(m, SaveAll(m, d, tasks, now, names), tasks[|tasks| - 1], now)
  {
    var n := |tasks| - 1;
    if Unchanged(m, tasks[n]) {
      UnlistedIsKept(m, d, tasks, now, names, IdOf(tasks[n]));
    } else {
      SaveAllKeeps(m, d, tasks[..n], now, names[..n]);
      PutRefines(SaveAll(m, d, tasks[..n], now, names[..n]), tasks[n], now, names[n]);
    }
  }

  lemma EqIgnoringDefaults(a: Body, b: Body)
    requires EqIgnoringUpdatedAt(a, b)
    ensures EqIgnoringUpdatedAt(WithDefaults(a), WithDefaults(b))
  {
    var x, y := WithDefaults(a) - {KeyUpdatedAt}, WithDefaults(b) - {KeyUpdatedAt};
    forall k ensures (k in x <==> k in y) && (k in x ==> x[k] == y[k]) {
      if k != KeyUpdatedAt {
        EqIgnoringAgree(a, b, k);
      }
    }
  }

  /** A task left alone already carries its stamp, and agrees with the stored ticket. */
  lemma UnchangedIsStamped(m: map<Value, Body>, d: Disk, t: Body, now: Stamp)
    requires Wf(d) && m == Abs(d) && Unchanged(m, t)
    ensures Stamped(t, now) == t && EqIgnoringUpdatedAt(WithDefaults(m[IdOf(t)]), WithDefaults(t))
  {
    var p := HolderOf(d, IdOf(t));
    var b := WithDefaults(m[IdOf(t)]);
    EqIgnoringAgree(b, t, KeyStatus);
    EqIgnoringAgree(b, t, KeyCompletedAt);
    assert TerminalBody(t) ==> TerminalBody(d[p].body);
    assert WithDefaults(b) == b;
    EqIgnoringDefaults(b, t);
  }

  /** After a save the store equals the list, up to defaults and time stamps. */
  lemma StoreEqualsSavedList(m: map<Value, Body>, d: Disk, tasks: seq<Body>, now: Stamp, names: seq<FileName>, k: nat)
    requires Wf(d) && m == Abs(d) && |names| == |tasks| && FreshNames(d, names) && DistinctIds(tasks)
    requires k < |tasks| && Truthy(IdOf(tasks[k]))
    ensures var e, t := SaveAll(m, d, tasks, now, names), tasks[k];
      IdOf(t) in Abs(e) && EqIgnoringUpdatedAt(WithDefaults(Abs(e)[IdOf(t)]), WithDefaults(Stamped(t, now)))
  {
    SaveStoresTask(m, d, tasks, now, names, k);
    var e, t := SaveAll(m, d, tasks, now, names), tasks[k];
    if Unchanged(m, t) {
      UnchangedIsStamped(m, d, t, now);
    } else {
      EqIgnoringDefaults(Abs(e)[IdOf(t)], Stamped(t, now));
    }
  }

  /** A changed task that carries the defaults and, if terminal, its stamp, is really written: stored exactly as given. */
  lemma ChangedTaskIsWritten(d: Disk, t: Body, now: Stamp, newName: FileName)
    requires Wf(d) && Unused(d, newName) && Writes(Abs(d), t)
    requires WithDefaults(t) == t && (TerminalBody(t) ==> Truthy(Get(t, KeyCompletedAt)))
    ensures Abs(SaveOne(Abs(d), d, t, now, newName)) == Abs(d)[IdOf(t) := t]
  {
    PutRefines(d, t, now, newName);
    if Settled(d, t) {
      var p := FindPath(d, IdOf(t)).value;
      AbsAt(d, p);
      var b := d[p].body;
      EqIgnoringDefaults(b, t);
    }
  }

  // ---- No lock spans load, edit and save ----

  /**
   A save puts back the listed status of every listed ticket, whatever happened to the ticket since the list was loaded.
   `m` is the save's own snapshot, which other mutators may have outrun as well: a ticket it finds unchanged is left alone.
   */
  lemma {:induction false} SaveDecidesStatus(m: map<Value, Body>, d: Disk, tasks: seq<Body>, now: Stamp, names: seq<FileName>, k: nat)
    requires Wf(d) && |names| == |tasks| && FreshNames(d, names) && DistinctIds(tasks)
    requires k < |tasks| && Truthy(IdOf(tasks[k])) && IdOf(tasks[k]) in Abs(d)
    ensures var e, t := SaveAll(m, d, tasks, now, names), tasks[k];
      && IdOf(t) in Abs(e)
      && Get(Abs(e)[IdOf(t)], KeyStatus) == Get(if Unchanged(m, t) then Abs(d)[IdOf(t)] else t, KeyStatus)
  {
    var n := |tasks| - 1;
    if k == n {
      SaveDecidesLast(m, d, tasks, now, names);
    } else {
      SaveDecidesStatus(m, d, tasks[..n], now, names[..n], k);
      LaterTasksKeep(m, d, tasks, now, names, IdOf(tasks[k]));
    }
  }

  lemma SaveDecidesLast(m: map<Value, Body>, d: Disk, tasks: seq<Body>, now: Stamp, names: seq<FileName>)
    requires Wf(d) && |names| == |tasks| > 0 && FreshNames(d, names) && DistinctIds(tasks)
    requires var t := tasks[|tasks| - 1]; Truthy(IdOf(t)) && IdOf(t) in Abs(d)
    ensures var e, t := SaveAll(m, d, tasks, now, names), tasks[|tasks| - 1];
      && IdOf(t) in Abs(e)
      && Get(Abs(e)[IdOf(t)], KeyStatus) == Get(if Unchanged(m, t) then Abs(d)[IdOf(t)] else t, KeyStatus)
  {
    var n := |tasks| - 1;
    if Writes(m, tasks[n]) {
      SaveAllKeeps(m, d, tasks[..n], now, names[..n]);
      PutSetsStatus(SaveAll(m, d, tasks[..n], now, names[..n]), tasks[n], now, names[n]);
    } else {
      UnlistedIsKept(m, d, tasks, now, names, IdOf(tasks[n]));
    }
  }

  lemma PutSetsStatus(d: Disk, t: Body, now: Stamp, newName: FileName)
    requires Wf(d) && Unused(d, newName) && Truthy(IdOf(t))
    ensures var e := Put(d, t, now, newName); IdOf(t) in Abs(e) && Get(Abs(e)[IdOf(t)], KeyStatus) == Get(t, KeyStatus)
  {
    PutRefines(d, t, now, newName);
    EqIgnoringAgree(Abs(Put(d, t, now, newName))[IdOf(t)], Stamped(t, now), KeyStatus);
  }

  /** A ticket no task asks to write keeps its body. */
  lemma UnlistedIsKept(m: map<Value, Body>, d: Disk, tasks: seq<Body>, now: Stamp, names: seq<FileName>, id: Value)
    requires Wf(d) && |names| == |tasks| && FreshNames(d, names) && id in Abs(d)
    requires forall i :: 0 <= i < |tasks| && IdOf(tasks[i]) == id ==> !Writes(m, tasks[i])
    ensures id in Abs(SaveAll(m, d, tasks, now, names)) && Abs(SaveAll(m, d, tasks, now, names))[id] == Abs(d)[id]
  {
    var p := HolderOf(d, id);
    SaveTouchesOnlyChanged(m, d, tasks, now, names, p);
    SaveAllKeeps(m, d, tasks, now, names);
    AbsAt(SaveAll(m, d, tasks, now, names), p);
  }

  lemma LaterTasksKeep(m: map<Value, Body>, d: Disk, tasks: seq<Body>, now: Stamp, names: seq<FileName>, id: Value)
    requires Wf(d) && |names| == |tasks| > 0 && FreshNames(d, names) && IdOf(tasks[|tasks| - 1]) != id
    requires var n := |tasks| - 1; id in Abs(SaveAll(m, d, tasks[..n], now, names[..n]))
    ensures var n := |tasks| - 1; var e := SaveAll(m, d, tasks, now, names);
      id in Abs(e) && Abs(e)[id] == Abs(SaveAll(m, d, tasks[..n], now, names[..n]))[id]
  {
    var n := |tasks| - 1;
    var d' := SaveAll(m, d, tasks[..n], now, names[..n]);
    SaveAllKeeps(m, d, tasks[..n], now, names[..n]);
    SaveAllKeeps(m, d, tasks, now, names);
    var p := HolderOf(d', id);
    if Writes(m, tasks[n]) {
      PutTouchesOneFile(d', tasks[n], now, names[n], p);
    }
    AbsAt(SaveAll(m, d, tasks, now, names), p);
  }

  /** Against an up-to-date snapshot the listed status always wins. */
  lemma SaveRestoresListedStatus(d: Disk, tasks: seq<Body>, now: Stamp, names: seq<FileName>, k: nat)
    requires Wf(d) && |names| == |tasks| && FreshNames(d, names) && DistinctIds(tasks)
    requires k < |tasks| && Truthy(IdOf(tasks[k]))
    ensures var e := SaveAll(Abs(d), d, tasks, now, names);
      IdOf(tasks[k]) in Abs(e) && Get(Abs(e)[IdOf(tasks[k])], KeyStatus) == Get(tasks[k], KeyStatus)
  {
    hide Put, Wf, Abs, Unused;
    var t, id := tasks[k], IdOf(tasks[k]);
    SaveStoresTask(Abs(d), d, tasks, now, names, k);
    if Unchanged(Abs(d), t) {
      EqIgnoringAgree(WithDefaults(Abs(d)[id]), t, KeyStatus);
    } else {
      EqIgnoringAgree(Abs(SaveAll(Abs(d), d, tasks, now, names))[id], Stamped(t, now), KeyStatus);
    }
  }

  /** So a claim made since the load survives the save exactly when the list does not hold the ticket, or holds it as claimed. */
  lemma ClaimSurvivesSaveIff(d: Disk, tasks: seq<Body>, now: Stamp, names: seq<FileName>, id: Value)
    requires Wf(d) && |names| == |tasks| && FreshNames(d, names) && DistinctIds(tasks)
    requires id in Abs(d) && HasStatus(Abs(d)[id], InProgress)
    ensures var e := SaveAll(Abs(d), d, tasks, now, names);
      id in Abs(e) && (HasStatus(Abs(e)[id], InProgress) <==> forall t :: t in tasks && IdOf(t) == id ==> HasStatus(t, InProgress))
  {
    var p := HolderOf(d, id);
    if k :| 0 <= k < |tasks| && IdOf(tasks[k]) == id {
      SaveRestoresListedStatus(d, tasks, now, names, k);
      assert tasks[k] in tasks;
    } else {
      UnlistedIsKept(Abs(d), d, tasks, now, names, id);
    }
  }

  /** In particular a stale save undoes a concurrent claim. */
  lemma StaleSaveUndoesClaim(d: Disk, tasks: seq<Body>, now: Stamp, names: seq<FileName>, k: nat)
    requires Wf(d) && |names| == |tasks| && FreshNames(d, names) && DistinctIds(tasks)
    requires k < |tasks| && IdOf(tasks[k]) in Abs(d)
    requires HasStatus(tasks[k], Sprint) && HasStatus(Abs(d)[IdOf(tasks[k])], InProgress)
    ensures var e := SaveAll(Abs(d), d, tasks, now, names);
      IdOf(tasks[k]) in Abs(e) && HasStatus(Abs(e)[IdOf(tasks[k])], Sprint)
  {
    var p := HolderOf(d, IdOf(tasks[k]));
    SaveRestoresListedStatus(d, tasks, now, names, k);
  }
}
