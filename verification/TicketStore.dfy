/**
 The filesystem ticket store: two directories of one-ticket files, a single
 mover (`Put`), and the public mutators built on it.
 */
module TicketStore {
  import opened Tickets

  datatype Dir = Active | ClosedDir
  /** A file name is its envelope's stem followed by the `.json` suffix. */
  datatype FileName = FileName(stem: string)
  datatype Path = Path(dir: Dir, name: FileName)

  /** One stored file: the envelope's id (fixed at creation) and the ticket body. */
  datatype Record = Record(envelope: FileName, body: Body)
  type Disk = map<Path, Record>

  // ---- What every reachable disk satisfies ----

  ghost predicate Wf(d: Disk) {
    && NamesUnique(d)
    && IdsUnique(d)
    && (forall p :: p in d ==> SoundFile(p, d[p]))
  }

  ghost predicate NamesUnique(d: Disk) {
    forall p, q :: p in d && q in d && p.name == q.name ==> p == q
  }

  ghost predicate IdsUnique(d: Disk) {
    forall p, q :: p in d && q in d && IdOf(d[p].body) == IdOf(d[q].body) ==> p == q
  }

  predicate SoundFile(p: Path, r: Record) {
    && r.envelope == p.name
    && Truthy(IdOf(r.body))
    && (TerminalBody(r.body) ==> Truthy(Get(r.body, KeyCompletedAt)))
  }

  ghost predicate Unused(d: Disk, name: FileName) {
    forall p :: p in d ==> p.name != name
  }

  function TargetDir(b: Body): Dir {
    if TerminalBody(b) then ClosedDir else Active
  }

  /** Where `_find` locates a ticket: the active directory is searched first. */
  ghost function FindPath(d: Disk, id: Value): (r: Option<Path>)
    ensures r.Some? ==> r.value in d && IdOf(d[r.value].body) == id
    ensures r.None? ==> forall p :: p in d ==> IdOf(d[p].body) != id
  {
    if exists p :: p in d && IdOf(d[p].body) == id && p.dir.Active? then
      var p :| p in d && IdOf(d[p].body) == id && p.dir.Active?; Some(p)
    else if exists p :: p in d && IdOf(d[p].body) == id then
      var p :| p in d && IdOf(d[p].body) == id; Some(p)
    else None
  }

  /** The abstract queue a reader sees: one body per ticket id. */
  ghost function Abs(d: Disk): map<Value, Body>
  {
    map id | id in Ids(d) :: d[HolderOf(d, id)].body
  }

  ghost function HolderOf(d: Disk, id: Value): (p: Path)
    requires id in Ids(d)
    ensures p in d && IdOf(d[p].body) == id
  {
    var p :| p in d && IdOf(d[p].body) == id;
    p
  }

  ghost function Ids(d: Disk): set<Value> {
    set p | p in d :: IdOf(d[p].body)
  }

  ghost function Read(d: Disk, id: Value): Option<Body> {
    var p := FindPath(d, id);
    if p.Some? then Some(d[p.value].body) else None
  }

  /** `read` is exactly a lookup in the abstract queue. */
  lemma ReadIsLookup(d: Disk, id: Value)
    requires Wf(d)
    ensures Read(d, id).Some? <==> id in Abs(d)
    ensures id in Abs(d) ==> Read(d, id) == Some(Abs(d)[id])
  {
    var p := FindPath(d, id);
    if p.Some? {
      assert IdOf(d[p.value].body) in Abs(d);
    }
  }

  lemma FoundIdIsUsable(d: Disk, id: Value)
    requires Wf(d)
    ensures Read(d, id).Some? ==> Truthy(id) && IdOf(Read(d, id).value) == id
  {
  }

  // ---- The single mover, as its two atomic file operations ----

  /** Terminal bodies leave with a completion stamp. */
  function Stamped(b: Body, now: Stamp): Body {
    if TerminalBody(b) && !Truthy(Get(b, KeyCompletedAt)) then b[KeyCompletedAt := Text(now)] else b
  }

  /** An unchanged body already in the right directory is not rewritten. */
  ghost predicate Settled(d: Disk, b: Body) {
    var p := FindPath(d, IdOf(b));
    p.Some? && p.value.dir == TargetDir(b) && EqIgnoringUpdatedAt(d[p.value].body, b)
  }

  /** First atomic replace: rewrite in place, or create a new file under a fresh name. */
  ghost function Commit(d: Disk, b: Body, newName: FileName): Disk {
    if Settled(d, b) then d
    else match FindPath(d, IdOf(b))
      case Some(p) => d[p := d[p].(body := b)]
      case None => d[Path(TargetDir(b), newName) := Record(newName, b)]
  }

  /** Second atomic replace: rename across when the body's status asks for the other directory. */
  ghost function Relocate(d: Disk, id: Value): Disk {
    match FindPath(d, id)
    case Some(p) =>
      var target := TargetDir(d[p].body);
      if p.dir == target then d else (d - {p})[Path(target, p.name) := d[p]]
    case None => d
  }

  ghost function Put(d: Disk, b: Body, now: Stamp, newName: FileName): Disk {
    var s := Stamped(b, now);
    Relocate(Commit(d, s, newName), IdOf(s))
  }

  /** What one `_put` does to the abstract queue: nothing for an unchanged body, else one update. */
  ghost function AbsPut(m: map<Value, Body>, d: Disk, b: Body): map<Value, Body> {
    if Settled(d, b) then m else m[IdOf(b) := b]
  }

  /** Rewriting a file in place, or adding one under an unused name and id, is one abstract update. */
  lemma WriteFileRefines(d: Disk, p: Path, r: Record)
    requires Wf(d) && SoundFile(p, r)
    requires forall q :: q in d && q != p ==> q.name != p.name && IdOf(d[q].body) != IdOf(r.body)
    requires p in d ==> IdOf(d[p].body) == IdOf(r.body)
    ensures Wf(d[p := r])
    ensures Abs(d[p := r]) == Abs(d)[IdOf(r.body) := r.body]
  {
    WriteFileSound(d, p, r);
    WriteFileAbs(d, p, r);
  }

  lemma WriteFileAbs(d: Disk, p: Path, r: Record)
    requires IdsUnique(d) && IdsUnique(d[p := r])
    requires p in d ==> IdOf(d[p].body) == IdOf(r.body)
    ensures Abs(d[p := r]) == Abs(d)[IdOf(r.body) := r.body]
  {
    var e, m := d[p := r], Abs(d)[IdOf(r.body) := r.body];
    forall q | q in e ensures IdOf(e[q].body) in m && m[IdOf(e[q].body)] == e[q].body {
      if q != p {
        assert p in e && e[p] == r && e[q] == d[q];
        AbsAt(d, q);
      }
    }
    IdsAfterWrite(d, p, r);
    AbsIs(e, m);
  }

  /** The abstract queue is the only map that agrees with every file and has no other id. */
  lemma AbsIs(d: Disk, m: map<Value, Body>)
    requires IdsUnique(d)
    requires forall p :: p in d ==> IdOf(d[p].body) in m && m[IdOf(d[p].body)] == d[p].body
    requires m.Keys == Ids(d)
    ensures Abs(d) == m
  {
    forall id | id in Abs(d) ensures id in m && m[id] == Abs(d)[id] {
      var p :| p in d && IdOf(d[p].body) == id;
      AbsAt(d, p);
    }
  }

  lemma IdsAfterWrite(d: Disk, p: Path, r: Record)
    requires p in d ==> IdOf(d[p].body) == IdOf(r.body)
    ensures Ids(d[p := r]) == Ids(d) + {IdOf(r.body)}
  {
    var e := d[p := r];
    assert e[p] == r;
    forall q | q in d && q != p ensures IdOf(d[q].body) in Ids(e) {
      assert e[q] == d[q];
    }
  }

  lemma WriteFileSound(d: Disk, p: Path, r: Record)
    requires Wf(d) && SoundFile(p, r)
    requires forall q :: q in d && q != p ==> q.name != p.name && IdOf(d[q].body) != IdOf(r.body)
    ensures Wf(d[p := r])
  {
  }

  lemma AbsAt(d: Disk, p: Path)
    requires IdsUnique(d) && p in d
    ensures IdOf(d[p].body) in Abs(d) && Abs(d)[IdOf(d[p].body)] == d[p].body
  {
  }

  lemma CommitRefines(d: Disk, b: Body, newName: FileName)
    requires Wf(d) && Unused(d, newName) && Truthy(IdOf(b))
    requires TerminalBody(b) ==> Truthy(Get(b, KeyCompletedAt))
    ensures Wf(Commit(d, b, newName))
    ensures Abs(Commit(d, b, newName)) == AbsPut(Abs(d), d, b)
    ensures IdOf(b) in Abs(Commit(d, b, newName))
    ensures EqIgnoringUpdatedAt(Abs(Commit(d, b, newName))[IdOf(b)], b)
  {
    var at := FindPath(d, IdOf(b));
    if Settled(d, b) {
      AbsAt(d, at.value);
    } else if at.Some? {
      WriteFileRefines(d, at.value, d[at.value].(body := b));
    } else {
      WriteFileRefines(d, Path(TargetDir(b), newName), Record(newName, b));
    }
  }

  lemma RelocateRefines(d: Disk, id: Value)
    requires Wf(d)
    ensures Wf(Relocate(d, id)) && Abs(Relocate(d, id)) == Abs(d)
    ensures forall p :: p in Relocate(d, id) && IdOf(Relocate(d, id)[p].body) == id
              ==> p.dir == TargetDir(Relocate(d, id)[p].body)
  {
    var at := FindPath(d, id);
    if at.Some? && at.value.dir != TargetDir(d[at.value].body) {
      RenameRefines(d, at.value, Path(TargetDir(d[at.value].body), at.value.name));
    }
  }

  /** Renaming a file across directories changes nothing a reader can see. */
  lemma RenameRefines(d: Disk, p: Path, q: Path)
    requires Wf(d) && p in d && q.name == p.name && q.dir != p.dir
    ensures Wf((d - {p})[q := d[p]]) && Abs((d - {p})[q := d[p]]) == Abs(d)
  {
    var e := (d - {p})[q := d[p]];
    assert q !in d;
    forall x | x in d ensures (if x == p then q else x) in e && e[if x == p then q else x] == d[x] {
    }
    forall x | x in e ensures (if x == q then p else x) in d && d[if x == q then p else x] == e[x] {
    }
    assert Wf(e);
    forall x | x in e ensures IdOf(e[x].body) in Abs(d) && Abs(d)[IdOf(e[x].body)] == e[x].body {
      AbsAt(d, if x == q then p else x);
    }
    forall id | id in Abs(d) ensures id in Ids(e) {
      var x :| x in d && IdOf(d[x].body) == id;
      assert (if x == p then q else x) in e;
    }
    assert Ids(e) <= Ids(d);
    AbsIs(e, Abs(d));
  }

  /** One whole `_put`: sound disk, one abstract update, and the file ends in its status's directory. */
  lemma PutRefines(d: Disk, b: Body, now: Stamp, newName: FileName)
    requires Wf(d) && Unused(d, newName) && Truthy(IdOf(b))
    ensures var e, s := Put(d, b, now, newName), Stamped(b, now);
      && Wf(e) && Abs(e) == AbsPut(Abs(d), d, s)
      && IdOf(b) in Abs(e) && EqIgnoringUpdatedAt(Abs(e)[IdOf(b)], s)
      && (forall p :: p in e && IdOf(e[p].body) == IdOf(b) ==> p.dir == TargetDir(e[p].body))
  {
    var s := Stamped(b, now);
    StampedIsComplete(b, now);
    CommitRefines(d, s, newName);
    RelocateRefines(Commit(d, s, newName), IdOf(s));
  }

  /** What readers find after a `_put`: the body, in the directory its status asks for, and every other ticket as it was. */
  lemma PutReads(d: Disk, b: Body, now: Stamp, newName: FileName)
    requires Wf(d) && Unused(d, newName) && Truthy(IdOf(b))
    ensures var e := Put(d, b, now, newName); var p := FindPath(e, IdOf(b));
      && Wf(e) && p.Some? && EqIgnoringUpdatedAt(e[p.value].body, Stamped(b, now))
      && (p.value.dir.ClosedDir? <==> TerminalBody(b))
      && (forall other :: other != IdOf(b) ==> Read(e, other) == Read(d, other))
  {
    var e, s := Put(d, b, now, newName), Stamped(b, now);
    PutRefines(d, b, now, newName);
    StampedIsComplete(b, now);
    ReadIsLookup(e, IdOf(b));
    EqIgnoringAgree(Abs(e)[IdOf(b)], s, KeyStatus);
    forall other | other != IdOf(b) ensures Read(e, other) == Read(d, other) {
      ReadIsLookup(d, other);
      ReadIsLookup(e, other);
    }
  }

  /** ... and the file a `_put` reports is the one it is found in. */
  lemma PutReportsItsFile(d: Disk, b: Body, now: Stamp, newName: FileName, p: Path)
    requires Wf(d) && Unused(d, newName) && Truthy(IdOf(b))
    requires var e := Put(d, b, now, newName); p in e && EqIgnoringUpdatedAt(e[p].body, Stamped(b, now))
    ensures FindPath(Put(d, b, now, newName), IdOf(b)) == Some(p)
  {
    var e := Put(d, b, now, newName);
    PutReads(d, b, now, newName);
    EqIgnoringAgree(e[p].body, Stamped(b, now), KeyId);
  }

  lemma StampedIsComplete(b: Body, now: Stamp)
    ensures var s := Stamped(b, now);
      IdOf(s) == IdOf(b) && (TerminalBody(s) <==> TerminalBody(b)) && (TerminalBody(s) ==> Truthy(Get(s, KeyCompletedAt)))
  {
  }

  /** The four file-level outcomes of one `_put`. */
  lemma PutCases(d: Disk, body: Body, now: Stamp, newName: FileName)
    requires Wf(d) && Unused(d, newName)
    ensures var b := Stamped(body, now); var at := FindPath(d, IdOf(b));
      Put(d, body, now, newName) ==
        if at.None? then d[Path(TargetDir(b), newName) := Record(newName, b)]
        else
          var p := at.value;
          if p.dir != TargetDir(b) then (d - {p})[Path(TargetDir(b), p.name) := d[p].(body := b)]
          else if EqIgnoringUpdatedAt(d[p].body, b) then d
          else d[p := d[p].(body := b)]
  {
    var b := Stamped(body, now);
    var at := FindPath(d, IdOf(b));
    if Settled(d, b) {
      EqIgnoringAgree(d[at.value].body, b, KeyStatus);
    } else {
      var p := if at.Some? then at.value else Path(TargetDir(b), newName);
      var e := Commit(d, b, newName);
      assert e[p].body == b;
      forall q | q in e && IdOf(e[q].body) == IdOf(b) ensures q == p {
      }
      assert FindPath(e, IdOf(b)) == Some(p);
      if p.dir != TargetDir(b) {
        assert (d - {p})[Path(TargetDir(b), p.name) := d[p].(body := b)] == Relocate(e, IdOf(b));
      }
    }
  }

  /** Only the named ticket's file can change: every other file stays byte for byte where it was. */
  lemma PutTouchesOneFile(d: Disk, b: Body, now: Stamp, newName: FileName, p: Path)
    requires Wf(d) && Unused(d, newName) && p in d && IdOf(d[p].body) != IdOf(b)
    ensures p in Put(d, b, now, newName) && Put(d, b, now, newName)[p] == d[p]
  {
    var s := Stamped(b, now);
    var c := Commit(d, s, newName);
    assert p in c && c[p] == d[p];
    var at := FindPath(c, IdOf(s));
    if at.Some? && at.value.dir != TargetDir(c[at.value].body) {
      assert at.value != p && at.value.name != p.name;
    }
  }
}
