/**
 The store's functions as they run, one file at a time, on a mutable pair of
 directories. Each is proved against the same definitions the concurrent
 protocol uses (`TicketStore.Put`, `StoreProtocol.Decide`).
 */
module TicketFiles {
  import opened Tickets
  import opened TicketStore
  import opened StoreProtocol

  /** What a caller gets back: a path, `None` for an unmet precondition, or an exception. */
  datatype Answer =
    | At(path: Path)
    | NotMet
    | KeyError
    | ValueError

  ghost predicate Distinct(paths: seq<Path>) {
    forall i, j :: 0 <= i < j < |paths| ==> paths[i] != paths[j]
  }

  lemma InOrder(active: seq<Path>, filed: seq<Path>)
    requires (forall p :: p in active ==> p.dir.Active?) && (forall p :: p in filed ==> p.dir.ClosedDir?)
    ensures var all := active + filed;
      forall i, j :: 0 <= i < j < |all| && all[i].dir.ClosedDir? ==> all[j].dir.ClosedDir?
  {
    var all := active + filed;
    assert forall i :: 0 <= i < |active| ==> all[i] == active[i] && active[i] in active;
    assert forall i :: |active| <= i < |all| ==> all[i] == filed[i - |active|] && filed[i - |active|] in filed;
  }

  /** What `list` returns: filtered by status, and in flight means open and in `tickets/`. */
  ghost predicate Listed(d: Disk, b: Body, filter: Option<Status>, includeClosed: bool) {
    exists p :: p in d && d[p].body == b && (includeClosed || (p.dir.Active? && !TerminalBody(b)))
                && (filter.Some? ==> HasStatus(b, filter.value))
  }

  predicate Passes(b: Body, filter: Option<Status>, includeClosed: bool) {
    (includeClosed || !TerminalBody(b)) && (filter.Some? ==> HasStatus(b, filter.value))
  }

  ghost predicate WantedSoFar(d: Disk, paths: seq<Path>, n: nat, b: Body, filter: Option<Status>, includeClosed: bool)
    requires n <= |paths|
  {
    Passes(b, filter, includeClosed) && exists k :: 0 <= k < n && paths[k] in d && d[paths[k]].body == b
  }

  lemma WantedOneMore(d: Disk, paths: seq<Path>, i: nat, filter: Option<Status>, includeClosed: bool)
    requires i < |paths| && paths[i] in d
    ensures forall b :: (WantedSoFar(d, paths, i + 1, b, filter, includeClosed) <==>
                         WantedSoFar(d, paths, i, b, filter, includeClosed) || (Passes(b, filter, includeClosed) && b == d[paths[i]].body))
  {
  }

  /** Files hold different tickets, so no later file repeats an id. */
  lemma NotSeenBefore(d: Disk, paths: seq<Path>, i: nat, out: seq<Body>, filter: Option<Status>, includeClosed: bool)
    requires Wf(d) && Distinct(paths) && i < |paths| && paths[i] in d
    requires forall b :: b in out ==> WantedSoFar(d, paths, i, b, filter, includeClosed)
    ensures forall b :: b in out ==> IdOf(b) != IdOf(d[paths[i]].body)
  {
    forall b | b in out ensures IdOf(b) != IdOf(d[paths[i]].body) {
      var k :| 0 <= k < i && paths[k] in d && d[paths[k]].body == b;
      assert paths[k] != paths[i];
    }
  }

  lemma ListedIffWanted(d: Disk, paths: seq<Path>, filter: Option<Status>, includeClosed: bool)
    requires forall p :: p in paths <==> p in d && (p.dir.Active? || includeClosed)
    ensures forall b :: WantedSoFar(d, paths, |paths|, b, filter, includeClosed) <==> Listed(d, b, filter, includeClosed)
  {
    forall b ensures WantedSoFar(d, paths, |paths|, b, filter, includeClosed) <==> Listed(d, b, filter, includeClosed) {
      if WantedSoFar(d, paths, |paths|, b, filter, includeClosed) {
        var k :| 0 <= k < |paths| && paths[k] in d && d[paths[k]].body == b;
        assert paths[k] in paths;
      }
      if Listed(d, b, filter, includeClosed) {
        var p :| p in d && d[p].body == b && (includeClosed || (p.dir.Active? && !TerminalBody(b)));
        assert p in paths;
        var k :| 0 <= k < |paths| && paths[k] == p;
      }
    }
  }

  /** The effect every mutator promises, given the decision it takes on the live body. */
  ghost function After(d: Disk, decision: Decision, now: Stamp, newName: FileName): Disk {
    if decision.Persist? then Put(d, decision.body, now, newName) else d
  }

  lemma FieldStores(was: Body, k: Key, v: Value, now: Stamp, stored: Body)
    requires k != KeyUpdatedAt && EqIgnoringUpdatedAt(stored, was[k := v][KeyUpdatedAt := Text(now)])
    ensures Get(stored, k) == v && SameBut(was, stored, {k, KeyUpdatedAt})
  {
    SameUpToStamp(was, was[k := v][KeyUpdatedAt := Text(now)], stored, {k, KeyUpdatedAt});
  }

  lemma ClosingIsComplete(was: Body, result: Value, status: Status, now: Stamp)
    requires IsTerminal(status)
    ensures var b := Closing(was, result, status, now); IdOf(b) == IdOf(was) && TerminalBody(b) && Stamped(b, now) == b
  {
  }

  lemma CloseStores(was: Body, stored: Body, result: Value, status: Status, now: Stamp)
    requires EqIgnoringUpdatedAt(stored, Closing(was, result, status, now))
    ensures Get(stored, KeyStatus) == Stat(status) && Get(stored, KeyCompletedAt) == Text(now)
    ensures Get(stored, KeyResult) == if result.Null? then Get(was, KeyResult) else result
    ensures SameBut(was, stored, {KeyStatus, KeyCompletedAt, KeyUpdatedAt} + if result.Null? then {} else {KeyResult})
  {
    var keys := {KeyStatus, KeyCompletedAt, KeyUpdatedAt} + if result.Null? then {} else {KeyResult};
    SameUpToStamp(was, Closing(was, result, status, now), stored, keys);
  }

  class Store {
    var disk: Disk

    /** The files of one directory, in some order. */
    method Glob(dir: Dir) returns (paths: seq<Path>)
      ensures forall p :: p in paths <==> p in disk && p.dir == dir
      ensures Distinct(paths)
    {
      paths := [];
      var rest := set p | p in disk && p.dir == dir;
      while rest != {}
        invariant forall p :: p in disk && p.dir == dir <==> p in paths || p in rest
        invariant forall p :: p in paths ==> p !in rest
        invariant Distinct(paths)
        decreases rest
      {
        var p :| p in rest;
        paths := paths + [p];
        rest := rest - {p};
      }
    }

    /** `_iter_files`: `tickets/` first, then `closed/` when asked for. */
    method IterFiles(includeClosed: bool) returns (paths: seq<Path>)
      ensures forall p :: p in paths <==> p in disk && (p.dir.Active? || includeClosed)
      ensures Distinct(paths)
      ensures forall i, j :: 0 <= i < j < |paths| && paths[i].dir.ClosedDir? ==> paths[j].dir.ClosedDir?
    {
      paths := Glob(Active);
      assert forall i :: 0 <= i < |paths| ==> paths[i] in paths;
      if includeClosed {
        var filed := Glob(ClosedDir);
        forall i, j | 0 <= i < |paths| && 0 <= j < |filed| ensures paths[i] != filed[j] {
          assert paths[i] in paths && filed[j] in filed;
        }
        InOrder(paths, filed);
        paths := paths + filed;
      }
    }

    method Find(id: Value) returns (r: Option<Path>)
      requires Wf(disk)
      ensures r == FindPath(disk, id)
      ensures r.Some? ==> Truthy(id)
    {
      var paths := IterFiles(true);
      var i := 0;
      while i < |paths|
        invariant 0 <= i <= |paths|
        invariant forall k :: 0 <= k < i ==> IdOf(disk[paths[k]].body) != id
      {
        assert paths[i] in paths;
        if IdOf(disk[paths[i]].body) == id {
          return Some(paths[i]);
        }
        i := i + 1;
      }
      assert forall p :: p in disk ==> p in paths;
      return None;
    }

    method ReadTicket(id: Value) returns (r: Option<Body>)
      requires Wf(disk)
      ensures r == Lookup(Abs(disk), id)
    {
      ReadIsLookup(disk, id);
      var p := Find(id);
      r := if p.None? then None else Some(disk[p.value].body);
    }

    /** `list`: every wanted ticket, once. A terminal body left in `tickets/` is not in flight. */
    method List(filter: Option<Status>, includeClosed: bool) returns (out: seq<Body>)
      requires Wf(disk)
      ensures forall b :: b in out <==> Listed(disk, b, filter, includeClosed)
      ensures forall i, j :: 0 <= i < j < |out| ==> IdOf(out[i]) != IdOf(out[j])
    {
      hide Wf;
      out := [];
      var seen: set<Value> := {};
      var paths := IterFiles(includeClosed);
      var i := 0;
      while i < |paths|
        invariant 0 <= i <= |paths|
        invariant seen == set b | b in out :: IdOf(b)
        invariant forall j, k :: 0 <= j < k < |out| ==> IdOf(out[j]) != IdOf(out[k])
        invariant forall b :: b in out <==> WantedSoFar(disk, paths, i, b, filter, includeClosed)
      {
        var p := paths[i];
        assert forall q :: q in paths ==> q in disk;
        var body := disk[p].body;
        NotSeenBefore(disk, paths, i, out, filter, includeClosed);
        WantedOneMore(disk, paths, i, filter, includeClosed);
        if IdOf(body) in seen {
        } else if !includeClosed && TerminalBody(body) {
        } else if filter.Some? && !HasStatus(body, filter.value) {
        } else {
          seen := seen + {IdOf(body)};
          forall k | 0 <= k < |out| ensures IdOf(out[k]) != IdOf(body) {
            assert out[k] in out;
          }
          out := out + [body];
        }
        i := i + 1;
      }
      ListedIffWanted(disk, paths, filter, includeClosed);
    }

    /** `_put`, file operation by file operation. */
    method PutBody(body: Body, now: Stamp, newName: FileName) returns (r: Answer)
      requires Wf(disk) && Unused(disk, newName)
      modifies this
      ensures r.ValueError? <==> !Truthy(IdOf(body))
      ensures r.ValueError? ==> disk == old(disk)
      ensures !r.ValueError? ==> r.At? && disk == Put(old(disk), body, now, newName)
                                 && r.path in disk && EqIgnoringUpdatedAt(disk[r.path].body, Stamped(body, now))
      ensures r.At? ==> Wf(disk) && FindPath(disk, IdOf(body)) == Some(r.path) && (r.path.dir.ClosedDir? <==> TerminalBody(body))
      ensures forall other :: other != IdOf(body) ==> Read(disk, other) == Read(old(disk), other)
    {
      r := PutFile(body, now, newName);
      if r.At? {
        PutReads(old(disk), body, now, newName);
        PutReportsItsFile(old(disk), body, now, newName, r.path);
      }
    }

    /** The file operations themselves. */
    method PutFile(body: Body, now: Stamp, newName: FileName) returns (r: Answer)
      requires Wf(disk) && Unused(disk, newName)
      modifies this
      ensures r.ValueError? <==> !Truthy(IdOf(body))
      ensures r.ValueError? ==> disk == old(disk)
      ensures !r.ValueError? ==> r.At? && disk == Put(old(disk), body, now, newName)
                                 && r.path in disk && EqIgnoringUpdatedAt(disk[r.path].body, Stamped(body, now))
    {
      hide Put, Wf, Unused;
      if !Truthy(IdOf(body)) {
        return ValueError;
      }
      var terminal := TerminalBody(body);
      var b := if terminal && !Truthy(Get(body, KeyCompletedAt)) then body[KeyCompletedAt := Text(now)] else body;
      var targetDir := if terminal then ClosedDir else Active;
      assert b == Stamped(body, now) && targetDir == TargetDir(b);
      var at := Find(IdOf(b));
      PutCases(disk, body, now, newName);
      if at.Some? {
        var path := at.value;
        var inRightDir := path.dir == targetDir;
        if inRightDir && EqIgnoringUpdatedAt(disk[path].body, b) {
          return At(path);
        }
        disk := disk[path := disk[path].(body := b)];
        if !inRightDir {
          var dest := Path(targetDir, path.name);
          disk := (disk - {path})[dest := disk[path]];
          return At(dest);
        }
        return At(path);
      }
      var newPath := Path(targetDir, newName);
      disk := disk[newPath := Record(newName, b)];
      return At(newPath);
    }

    method WriteTicket(ticket: Body, now: Stamp, newName: FileName) returns (r: Answer)
      requires Wf(disk) && Unused(disk, newName)
      modifies this
      ensures disk == After(old(disk), Decide(Write(ticket), None, now), now, newName)
      ensures r.ValueError? <==> !Truthy(IdOf(ticket))
      ensures r.At? ==> FindPath(disk, IdOf(ticket)) == Some(r.path) && (r.path.dir.ClosedDir? <==> TerminalBody(ticket))
      ensures r.At? ==>
        var unstamped := TerminalBody(ticket) && !Truthy(Get(ticket, KeyCompletedAt));
        && SameBut(ticket, disk[r.path].body, if unstamped then {KeyCompletedAt, KeyUpdatedAt} else {KeyUpdatedAt})
        && (unstamped ==> Get(disk[r.path].body, KeyCompletedAt) == Text(now))
      ensures forall other :: other != IdOf(ticket) ==> Read(disk, other) == Read(old(disk), other)
    {
      r := PutBody(ticket, now, newName);
      if r.At? {
        SameUpToStamp(ticket, Stamped(ticket, now), disk[r.path].body, {KeyCompletedAt, KeyUpdatedAt});
        if Stamped(ticket, now) == ticket {
          SameUpToStamp(ticket, ticket, disk[r.path].body, {KeyUpdatedAt});
        }
      }
    }

    method SetTicketWorker(id: Value, worker: Value, now: Stamp, newName: FileName) returns (r: Answer)
      requires Wf(disk) && Unused(disk, newName)
      modifies this
      ensures disk == After(old(disk), Decide(SetWorker(id, worker), Read(old(disk), id), now), now, newName)
      ensures r.KeyError? <==> Read(old(disk), id).None?
      ensures r.At? ==> FindPath(disk, id) == Some(r.path)
      ensures r.At? && TerminalBody(Read(old(disk), id).value) ==> disk == old(disk)
      ensures r.At? && !TerminalBody(Read(old(disk), id).value) ==>
        var was, b := Read(old(disk), id).value, disk[r.path].body;
        Get(b, KeyWorker) == worker && SameBut(was, b, {KeyWorker, KeyUpdatedAt}) && r.path.dir.Active?
      ensures forall other :: other != id ==> Read(disk, other) == Read(old(disk), other)
    {
      hide Put, Wf, Unused, SameBut;
      var at := Find(id);
      if at.None? {
        return KeyError;
      }
      var body := disk[at.value].body;
      ghost var was := body;
      if TerminalBody(body) {
        return At(at.value);
      }
      body := body[KeyWorker := worker];
      body := body[KeyUpdatedAt := Text(now)];
      r := PutBody(body, now, newName);
      FieldStores(was, KeyWorker, worker, now, disk[r.path].body);
    }

    method CloseTicket(id: Value, result: Value, status: Status, now: Stamp, newName: FileName) returns (r: Answer)
      requires Wf(disk) && Unused(disk, newName)
      modifies this
      ensures disk == After(old(disk), Decide(Close(id, result, status), Read(old(disk), id), now), now, newName)
      ensures r.ValueError? <==> !IsTerminal(status)
      ensures r.KeyError? <==> IsTerminal(status) && Read(old(disk), id).None?
      ensures r.At? <==> (status == Closed || status == Done || status == Cancelled) && Read(old(disk), id).Some?
      ensures !r.At? ==> disk == old(disk)
      ensures r.At? ==> FindPath(disk, id) == Some(r.path) && r.path.dir.ClosedDir?
      ensures r.At? ==>
        var was, b := Read(old(disk), id).value, disk[r.path].body;
        && Get(b, KeyStatus) == Stat(status) && Get(b, KeyCompletedAt) == Text(now)
        && Get(b, KeyResult) == (if result.Null? then Get(was, KeyResult) else result)
        && SameBut(was, b, {KeyStatus, KeyCompletedAt, KeyUpdatedAt} + if result.Null? then {} else {KeyResult})
      ensures forall other :: other != id ==> Read(disk, other) == Read(old(disk), other)
    {
      hide Put, Wf, Unused, SameBut;
      if !IsTerminal(status) {
        return ValueError;
      }
      var at := Find(id);
      if at.None? {
        return KeyError;
      }
      var body := disk[at.value].body;
      ghost var was := body;
      body := body[KeyStatus := Stat(status)];
      if !result.Null? {
        body := body[KeyResult := result];
      }
      body := body[KeyCompletedAt := Text(now)];
      body := body[KeyUpdatedAt := Text(now)];
      ClosingIsComplete(was, result, status, now);
      hide Closing, Stamped;
      r := PutBody(body, now, newName);
      CloseStores(was, disk[r.path].body, result, status, now);
    }

    method SetTicketStatus(id: Value, status: Status, now: Stamp, newName: FileName) returns (r: Answer)
      requires Wf(disk) && Unused(disk, newName)
      modifies this
      ensures disk == After(old(disk), Decide(SetStatus(id, status), Read(old(disk), id), now), now, newName)
      ensures r.KeyError? <==> Read(old(disk), id).None?
      ensures r.At? <==> Read(old(disk), id).Some?
      ensures r.At? ==> FindPath(disk, id) == Some(r.path)
      ensures r.At? && !IsTerminal(status) && TerminalBody(Read(old(disk), id).value) ==> disk == old(disk)
      ensures r.At? && (IsTerminal(status) || !TerminalBody(Read(old(disk), id).value)) ==>
        var was, b := Read(old(disk), id).value, disk[r.path].body;
        && Get(b, KeyStatus) == Stat(status) && (r.path.dir.ClosedDir? <==> IsTerminal(status))
        && (IsTerminal(status) ==> Get(b, KeyCompletedAt) == Text(now))
        && SameBut(was, b, if IsTerminal(status) then {KeyStatus, KeyCompletedAt, KeyUpdatedAt} else {KeyStatus, KeyUpdatedAt})
      ensures forall other :: other != id ==> Read(disk, other) == Read(old(disk), other)
    {
      hide Put, Wf, Unused, SameBut, Closing, Stamped;
      if IsTerminal(status) {
        assert {KeyStatus, KeyCompletedAt, KeyUpdatedAt} + {} == {KeyStatus, KeyCompletedAt, KeyUpdatedAt};
        r := CloseTicket(id, Null, status, now, newName);
      } else {
        r := SetOpenStatus(id, status, now, newName);
      }
    }

    /** The part under the lock, for a status that is not terminal. */
    method SetOpenStatus(id: Value, status: Status, now: Stamp, newName: FileName) returns (r: Answer)
      requires Wf(disk) && Unused(disk, newName) && !IsTerminal(status)
      modifies this
      ensures disk == After(old(disk), Decide(SetStatus(id, status), Read(old(disk), id), now), now, newName)
      ensures r.KeyError? <==> Read(old(disk), id).None?
      ensures r.At? <==> Read(old(disk), id).Some?
      ensures r.At? ==> FindPath(disk, id) == Some(r.path)
      ensures r.At? && TerminalBody(Read(old(disk), id).value) ==> disk == old(disk)
      ensures r.At? && !TerminalBody(Read(old(disk), id).value) ==>
        var was, b := Read(old(disk), id).value, disk[r.path].body;
        Get(b, KeyStatus) == Stat(status) && r.path.dir.Active? && SameBut(was, b, {KeyStatus, KeyUpdatedAt})
      ensures forall other :: other != id ==> Read(disk, other) == Read(old(disk), other)
    {
      hide Put, Wf, Unused, SameBut;
      var at := Find(id);
      if at.None? {
        return KeyError;
      }
      var body := disk[at.value].body;
      ghost var was := body;
      if TerminalBody(body) {
        return At(at.value);
      }
      body := body[KeyStatus := Stat(status)];
      body := body[KeyUpdatedAt := Text(now)];
      r := PutBody(body, now, newName);
      FieldStores(was, KeyStatus, Stat(status), now, disk[r.path].body);
    }

    /** Check-and-set: persists the mutation only when the live status is an expected one. */
    method UpdateIf(id: Value, expected: set<Value>, mutate: Body -> Body, now: Stamp, newName: FileName)
      returns (r: Answer)
      requires Wf(disk) && Unused(disk, newName)
      modifies this
      ensures disk == After(old(disk), Decide(ConditionalUpdate(id, expected, mutate), Read(old(disk), id), now), now, newName)
      ensures r.KeyError? <==> Read(old(disk), id).None?
      ensures r.At? <==> Decide(ConditionalUpdate(id, expected, mutate), Read(old(disk), id), now).Persist?
      ensures r.NotMet? <==> Read(old(disk), id).Some? && Get(Read(old(disk), id).value, KeyStatus) !in expected
      ensures !r.At? ==> disk == old(disk)
      ensures r.At? ==>
        var to := mutate(Read(old(disk), id).value);
        && FindPath(disk, IdOf(to)) == Some(r.path) && (r.path.dir.ClosedDir? <==> TerminalBody(to))
        && SameBut(to, disk[r.path].body, {KeyCompletedAt, KeyUpdatedAt})
        && (!TerminalBody(to) || Truthy(Get(to, KeyCompletedAt)) ==> SameBut(to, disk[r.path].body, {KeyUpdatedAt}))
        && (forall other :: other != IdOf(to) ==> Read(disk, other) == Read(old(disk), other))
    {
      hide Put, Wf, Unused;
      var at := Find(id);
      if at.None? {
        return KeyError;
      }
      var body := disk[at.value].body;
      if Get(body, KeyStatus) !in expected {
        return NotMet;
      }
      var newBody := mutate(body);
      ghost var to := newBody;
      newBody := newBody[KeyUpdatedAt := Text(now)];
      r := PutBody(newBody, now, newName);
      if r.At? {
        SameUpToStamp(to, Stamped(newBody, now), disk[r.path].body, {KeyCompletedAt, KeyUpdatedAt});
        if !TerminalBody(to) || Truthy(Get(to, KeyCompletedAt)) {
          SameUpToStamp(to, newBody, disk[r.path].body, {KeyUpdatedAt});
        }
      }
    }
  }
}
