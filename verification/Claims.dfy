/**
 Workers claim tickets with a compare-and-set under the store's lock, and a
 stale claim is released the same way. Claims are exclusive between releases.
 */
module Claims {
  import opened Tickets
  import opened TicketStore
  import opened StoreProtocol
  import opened GateLogic
  import opened Ungating
  import opened TicketFiles
  import opened QueueSave

  // ---- The mutations ----

  /** `set_status_in_progress` (no dispatch stamp) and `cmd_next` (with one). */
  function ClaimBody(b: Body, dispatchedAt: Option<Stamp>): Body {
    var b := b[KeyStatus := Stat(InProgress)];
    if dispatchedAt.None? then b else b[KeyDispatchedAt := Text(dispatchedAt.value)]
  }

  /** `reset_stale_in_progress`: back to the claimable pile, or to the design step without an intention. */
  function ReleaseBody(b: Body): Body {
    (if IntentionDeclared(b) then b[KeyStatus := Stat(Sprint)] else Divert(b))[KeyDispatchedAt := Null]
  }

  ghost predicate IsClaim(op: Op) {
    op.ConditionalUpdate? && op.expected == {Stat(Sprint)}
    && exists at: Option<Stamp> :: ClaimsAs(op.mutate, at)
  }

  ghost predicate ClaimsAs(mutate: Body -> Body, at: Option<Stamp>) {
    forall b :: mutate(b) == ClaimBody(b, at)
  }

  ghost predicate IsRelease(op: Op) {
    op.ConditionalUpdate? && op.expected == {Stat(InProgress)} && forall b :: op.mutate(b) == ReleaseBody(b)
  }

  ghost predicate WorkerLog(log: seq<Entry>) {
    forall i :: 0 <= i < |log| ==> IsClaim(log[i].op) || IsRelease(log[i].op)
  }

  ghost predicate KeyedById(m: map<Value, Body>) {
    forall id :: id in m ==> IdOf(m[id]) == id
  }

  ghost function Held(m: map<Value, Body>, id: Value): nat {
    if id in m && HasStatus(m[id], InProgress) then 1 else 0
  }

  ghost function Claimed(e: Entry, id: Value): nat {
    if IsClaim(e.op) && IdOf(e.after) == id then 1 else 0
  }

  ghost function Freed(e: Entry, id: Value): nat {
    if IsRelease(e.op) && IdOf(e.after) == id then 1 else 0
  }

  ghost function CountClaims(log: seq<Entry>, id: Value): nat {
    if log == [] then 0 else CountClaims(log[..|log| - 1], id) + Claimed(log[|log| - 1], id)
  }

  ghost function CountReleases(log: seq<Entry>, id: Value): nat {
    if log == [] then 0 else CountReleases(log[..|log| - 1], id) + Freed(log[|log| - 1], id)
  }

  // ---- One entry ----

  /** An effective claim found the ticket in `sprint`; an effective release found it in progress. */
  lemma WorkerEntry(m: map<Value, Body>, e: Entry)
    requires KeyedById(m) && SequentialEntry(m, e) && (IsClaim(e.op) || IsRelease(e.op))
    ensures var id := IdOf(e.after);
      && id == e.op.id && id in m && e.before == Some(m[id])
      && (IsClaim(e.op) ==> HasStatus(m[id], Sprint) && HasStatus(e.after, InProgress))
      && (IsRelease(e.op) ==> HasStatus(m[id], InProgress) && (HasStatus(e.after, Sprint) || HasStatus(e.after, Triage)))
  {
    var decidedAt: Stamp, storedAt: Stamp :|
      var d := Decide(e.op, Lookup(m, Subject(e.op)), decidedAt);
      d.Persist? && e.after == Stamped(d.body, storedAt);
  }

  lemma EntryBalances(m: map<Value, Body>, e: Entry, id: Value)
    requires KeyedById(m) && SequentialEntry(m, e) && (IsClaim(e.op) || IsRelease(e.op))
    ensures Claimed(e, id) + Held(m, id) == Freed(e, id) + Held(m[IdOf(e.after) := e.after], id)
  {
    WorkerEntry(m, e);
  }

  // ---- The ledger ----

  lemma ReplayKeyed(m: map<Value, Body>, log: seq<Entry>)
    requires KeyedById(m)
    ensures KeyedById(Replay(m, log))
  {
  }

  lemma SequentialPrefix(m: map<Value, Body>, log: seq<Entry>, n: nat)
    requires SequentialLog(m, log) && n <= |log|
    ensures SequentialLog(m, log[..n])
  {
    forall i | 0 <= i < n ensures SequentialEntry(Replay(m, log[..n][..i]), log[..n][i]) {
      assert log[..n][..i] == log[..i];
    }
  }

  /** claims + held at the start == releases + held now. */
  lemma {:induction false} ClaimLedger(m: map<Value, Body>, log: seq<Entry>, id: Value)
    requires KeyedById(m) && SequentialLog(m, log) && WorkerLog(log)
    ensures CountClaims(log, id) + Held(m, id) == CountReleases(log, id) + Held(Replay(m, log), id)
  {
    if log != [] {
      var n := |log| - 1;
      SequentialPrefix(m, log, n);
      ClaimLedger(m, log[..n], id);
      ReplayKeyed(m, log[..n]);
      EntryBalances(Replay(m, log[..n]), log[n], id);
    }
  }

  // ---- Exclusivity ----

  /** `held[i]` says whether it is held before step `i`. */
  ghost predicate Trace(takes: seq<bool>, frees: seq<bool>, held: seq<bool>) {
    && |takes| == |frees| && |held| == |takes| + 1
    && forall i :: 0 <= i < |takes| ==> held[i + 1] == (takes[i] || (held[i] && !frees[i]))
  }

  ghost predicate FreedIn(frees: seq<bool>, i: nat, j: nat)
    requires j <= |frees|
  {
    exists k :: i < k < j && frees[k]
  }

  lemma {:induction false} FreedBetween(takes: seq<bool>, frees: seq<bool>, held: seq<bool>, i: nat, j: nat)
    requires Trace(takes, frees, held) && i < j < |held| && takes[i] && !held[j]
    ensures FreedIn(frees, i, j)
    decreases j
  {
    assert held[j - 1 + 1] == held[j];
    if i + 1 < j && !frees[j - 1] {
      FreedBetween(takes, frees, held, i, j - 1);
      var k :| i < k < j - 1 && frees[k];
    }
  }

  /** Free at the start, held at `j`: a take since whose last no release has come. */
  lemma {:induction false} TakenSince(takes: seq<bool>, frees: seq<bool>, held: seq<bool>, j: nat) returns (i: nat)
    requires Trace(takes, frees, held) && j < |held| && !held[0] && held[j]
    ensures i < j && takes[i] && !FreedIn(frees, i, j)
    decreases j
  {
    assert held[j - 1 + 1] == held[j];
    if takes[j - 1] {
      i := j - 1;
    } else {
      i := TakenSince(takes, frees, held, j - 1);
    }
  }

  ghost predicate ExclusiveTrace(takes: seq<bool>, frees: seq<bool>)
    requires |takes| == |frees|
  {
    forall i, j :: 0 <= i < j < |takes| && takes[i] && takes[j] ==> FreedIn(frees, i, j)
  }

  lemma ExclusiveTraceIff(takes: seq<bool>, frees: seq<bool>, held: seq<bool>)
    requires Trace(takes, frees, held) && !held[0]
    ensures ExclusiveTrace(takes, frees) <==> forall j :: 0 <= j < |takes| && takes[j] ==> !held[j]
  {
    if forall j :: 0 <= j < |takes| && takes[j] ==> !held[j] {
      forall i, j | 0 <= i < j < |takes| && takes[i] && takes[j] ensures FreedIn(frees, i, j) {
        FreedBetween(takes, frees, held, i, j);
      }
    } else {
      var j :| 0 <= j < |takes| && takes[j] && held[j];
      var i := TakenSince(takes, frees, held, j);
      assert takes[i] && takes[j] && !FreedIn(frees, i, j);
    }
  }

  ghost function HeldAt(m: map<Value, Body>, log: seq<Entry>, i: nat, id: Value): nat
    requires i <= |log|
  {
    Held(Replay(m, log[..i]), id)
  }

  /** Whether the ticket is held before each entry, and at the end. */
  ghost function HeldsOf(m: map<Value, Body>, log: seq<Entry>, id: Value): seq<bool> {
    seq(|log| + 1, i requires 0 <= i < |log| + 1 => HeldAt(m, log, i, id) == 1)
  }

  ghost function ClaimsOf(log: seq<Entry>, id: Value): seq<bool> {
    seq(|log|, i requires 0 <= i < |log| => Claimed(log[i], id) == 1)
  }

  ghost function FreedOf(log: seq<Entry>, id: Value): seq<bool> {
    seq(|log|, i requires 0 <= i < |log| => Freed(log[i], id) == 1)
  }

  /** One entry of a worker moves the ticket between free and held; a claim finds it free. */
  lemma WorkerEntryAt(m: map<Value, Body>, log: seq<Entry>, i: nat, id: Value)
    requires KeyedById(m) && SequentialLog(m, log) && WorkerLog(log) && i < |log|
    ensures HeldAt(m, log, i + 1, id) + Freed(log[i], id) == HeldAt(m, log, i, id) + Claimed(log[i], id)
    ensures Claimed(log[i], id) == 1 ==> HeldAt(m, log, i, id) == 0
    ensures Freed(log[i], id) == 1 ==> HeldAt(m, log, i, id) == 1
  {
    ReplayKeyed(m, log[..i]);
    WorkerEntry(Replay(m, log[..i]), log[i]);
    EntryBalances(Replay(m, log[..i]), log[i], id);
    assert log[..i + 1][..i] == log[..i];
  }

  lemma WorkerTrace(m: map<Value, Body>, log: seq<Entry>, id: Value)
    requires KeyedById(m) && SequentialLog(m, log) && WorkerLog(log)
    ensures Trace(ClaimsOf(log, id), FreedOf(log, id), HeldsOf(m, log, id))
    ensures forall j :: 0 <= j < |log| && Claimed(log[j], id) == 1 ==> !HeldsOf(m, log, id)[j]
  {
    hide KeyedById, SequentialLog, WorkerLog, Replay, IsClaim, IsRelease;
    forall i | 0 <= i < |log| ensures HeldsOf(m, log, id)[i + 1] == (ClaimsOf(log, id)[i] || (HeldsOf(m, log, id)[i] && !FreedOf(log, id)[i]))
                                     && (Claimed(log[i], id) == 1 ==> !HeldsOf(m, log, id)[i]) {
      WorkerEntryAt(m, log, i, id);
    }
  }

  /** Two successful claims of one ticket always have a release of it between them. */
  lemma ReleaseBetweenClaims(m: map<Value, Body>, log: seq<Entry>, i: nat, j: nat, id: Value)
    requires KeyedById(m) && SequentialLog(m, log) && WorkerLog(log)
    requires i < j < |log| && Claimed(log[i], id) == 1 && Claimed(log[j], id) == 1
    ensures exists k :: i < k < j && Freed(log[k], id) == 1
  {
    WorkerTrace(m, log, id);
    FreedBetween(ClaimsOf(log, id), FreedOf(log, id), HeldsOf(m, log, id), i, j);
    var k :| i < k < j && FreedOf(log, id)[k];
    assert Freed(log[k], id) == 1;
  }

  // ---- Every run of concurrent workers ----

  ghost predicate WorkerLabels(labels: seq<Label>) {
    forall i :: 0 <= i < |labels| && labels[i].Acquire? ==> IsClaim(labels[i].op) || IsRelease(labels[i].op)
  }

  ghost predicate WorkerState(s: State) {
    && WorkerLog(s.log)
    && (s.lock.Some? && !s.lock.value.phase.Written? ==> IsClaim(s.lock.value.phase.op) || IsRelease(s.lock.value.phase.op))
  }

  lemma {:induction false} WorkersRunWorkerOps(s: State, labels: seq<Label>, t: State)
    requires Run(s, labels, t) && WorkerState(s) && WorkerLabels(labels)
    ensures WorkerState(t)
    decreases |labels|
  {
    if labels != [] {
      WorkersRunWorkerOps(Next(s, labels[0]), labels[1..], t);
    }
  }

  /**
   Over every interleaving of workers claiming and releasing, with crashes, from any sound store: each
   ticket's claims and releases balance against its status, and no claim follows a claim without a release.
   */
  lemma ClaimsAreExclusive(s: State, labels: seq<Label>, t: State, id: Value)
    requires Initial(s) && Run(s, labels, t) && WorkerLabels(labels)
    ensures CountClaims(t.log, id) + Held(Abs(s.disk), id) == CountReleases(t.log, id) + Held(Abs(t.disk), id)
    ensures forall i, j :: 0 <= i < j < |t.log| && Claimed(t.log[i], id) == 1 && Claimed(t.log[j], id) == 1
              ==> exists k :: i < k < j && Freed(t.log[k], id) == 1
  {
    var m := Abs(s.disk);
    InitialInv(s);
    EveryRunIsSequential(m, s, labels, t);
    WorkersRunWorkerOps(s, labels, t);
    assert KeyedById(m);
    ClaimLedger(m, t.log, id);
    forall i, j | 0 <= i < j < |t.log| && Claimed(t.log[i], id) == 1 && Claimed(t.log[j], id) == 1
      ensures exists k :: i < k < j && Freed(t.log[k], id) == 1
    {
      ReleaseBetweenClaims(m, t.log, i, j, id);
    }
  }

  // ---- Dispatch, which also takes a ticket in progress ----

  function DispatchBody(b: Body, dispatcher: string, at: Stamp): Body {
    b[KeyStatus := Stat(InProgress)][KeyOther("dispatched_by") := Text(dispatcher)][KeyDispatchedAt := Text(at)]
  }

  function Dispatchable(): set<Value> {
    {Stat(Sprint), Stat(InProgress)}
  }

  ghost predicate IsDispatch(op: Op) {
    op.ConditionalUpdate? && op.expected == Dispatchable()
    && exists dispatcher: string, at: Stamp :: DispatchesAs(op.mutate, dispatcher, at)
  }

  ghost predicate DispatchesAs(mutate: Body -> Body, dispatcher: string, at: Stamp) {
    forall b :: mutate(b) == DispatchBody(b, dispatcher, at)
  }

  /** A dispatch goes through exactly when the live ticket is in `sprint` or already in progress. */
  lemma DispatchPersistsIff(op: Op, live: Option<Body>, now: Stamp)
    requires IsDispatch(op) && (live.Some? ==> Truthy(IdOf(live.value)))
    ensures Decide(op, live, now).Persist? <==> live.Some? && (HasStatus(live.value, Sprint) || HasStatus(live.value, InProgress))
  {
    var dispatcher: string, at: Stamp :| DispatchesAs(op.mutate, dispatcher, at);
    if live.Some? {
      assert IdOf(op.mutate(live.value)[KeyUpdatedAt := Text(now)]) == IdOf(live.value);
    }
  }

  /** The entry takes the ticket: a claim or a dispatch of it. */
  ghost predicate Takes(e: Entry, id: Value) {
    (IsClaim(e.op) || IsDispatch(e.op)) && IdOf(e.after) == id
  }

  ghost predicate Frees(e: Entry, id: Value) {
    IsRelease(e.op) && IdOf(e.after) == id
  }

  /** A dispatch of a ticket that somebody already holds. */
  ghost predicate HitsHeld(e: Entry, id: Value) {
    IsDispatch(e.op) && IdOf(e.after) == id && e.before.Some? && HasStatus(e.before.value, InProgress)
  }

  ghost predicate TakerOp(op: Op) {
    IsClaim(op) || IsRelease(op) || IsDispatch(op)
  }

  ghost predicate TakerLog(log: seq<Entry>) {
    forall i :: 0 <= i < |log| ==> TakerOp(log[i].op)
  }

  lemma DispatchEntry(m: map<Value, Body>, e: Entry)
    requires KeyedById(m) && SequentialEntry(m, e) && IsDispatch(e.op)
    ensures var id := IdOf(e.after);
      && id == e.op.id && id in m && e.before == Some(m[id]) && HasStatus(e.after, InProgress)
      && (HasStatus(m[id], Sprint) || HasStatus(m[id], InProgress))
  {
    var decidedAt: Stamp, storedAt: Stamp :|
      var d := Decide(e.op, Lookup(m, Subject(e.op)), decidedAt);
      d.Persist? && e.after == Stamped(d.body, storedAt);
    var dispatcher: string, at: Stamp :| DispatchesAs(e.op.mutate, dispatcher, at);
    var b := m[e.op.id];
    assert e.op.mutate(b) == DispatchBody(b, dispatcher, at);
  }

  /** A take leaves the ticket held, a release leaves it free; only a take that hits a held ticket found it held. */
  lemma TakerEntry(m: map<Value, Body>, e: Entry, id: Value)
    requires KeyedById(m) && SequentialEntry(m, e) && TakerOp(e.op)
    ensures Held(m[IdOf(e.after) := e.after], id) == if Takes(e, id) then 1 else if Frees(e, id) then 0 else Held(m, id)
    ensures Takes(e, id) ==> (Held(m, id) == 1 <==> HitsHeld(e, id))
    ensures Frees(e, id) ==> Held(m, id) == 1 && !Takes(e, id)
  {
    if IsDispatch(e.op) {
      DispatchEntry(m, e);
    } else {
      WorkerEntry(m, e);
    }
  }

  lemma TakerEntryAt(m: map<Value, Body>, log: seq<Entry>, i: nat, id: Value)
    requires KeyedById(m) && SequentialLog(m, log) && TakerLog(log) && i < |log|
    ensures HeldAt(m, log, i + 1, id) == if Takes(log[i], id) then 1 else if Frees(log[i], id) then 0 else HeldAt(m, log, i, id)
    ensures Takes(log[i], id) ==> (HeldAt(m, log, i, id) == 1 <==> HitsHeld(log[i], id))
  {
    ReplayKeyed(m, log[..i]);
    TakerEntry(Replay(m, log[..i]), log[i], id);
    assert log[..i + 1][..i] == log[..i];
  }

  ghost function TakesOf(log: seq<Entry>, id: Value): seq<bool> {
    seq(|log|, i requires 0 <= i < |log| => Takes(log[i], id))
  }

  ghost function FreesOf(log: seq<Entry>, id: Value): seq<bool> {
    seq(|log|, i requires 0 <= i < |log| => Frees(log[i], id))
  }

  /** Two takes of one ticket always have a release of it between them. */
  ghost predicate Exclusive(log: seq<Entry>, id: Value) {
    ExclusiveTrace(TakesOf(log, id), FreesOf(log, id))
  }

  lemma TakerTrace(m: map<Value, Body>, log: seq<Entry>, id: Value)
    requires KeyedById(m) && SequentialLog(m, log) && TakerLog(log)
    ensures Trace(TakesOf(log, id), FreesOf(log, id), HeldsOf(m, log, id))
    ensures forall j :: 0 <= j < |log| && Takes(log[j], id) ==> (HeldsOf(m, log, id)[j] <==> HitsHeld(log[j], id))
  {
    forall i | 0 <= i < |log| ensures HeldsOf(m, log, id)[i + 1] == (TakesOf(log, id)[i] || (HeldsOf(m, log, id)[i] && !FreesOf(log, id)[i]))
                                     && (Takes(log[i], id) ==> (HeldsOf(m, log, id)[i] <==> HitsHeld(log[i], id))) {
      TakerEntryAt(m, log, i, id);
    }
  }

  /**
   With claims, releases and dispatches together, from a free ticket: holding it is exclusive exactly when no dispatch
   hits it while it is held.
   */
  lemma ExclusiveIff(m: map<Value, Body>, log: seq<Entry>, id: Value)
    requires KeyedById(m) && SequentialLog(m, log) && TakerLog(log) && Held(m, id) == 0
    ensures Exclusive(log, id) <==> forall j :: 0 <= j < |log| ==> !HitsHeld(log[j], id)
  {
    hide KeyedById, SequentialLog, TakerLog, Held;
    var takes, frees := TakesOf(log, id), FreesOf(log, id);
    TakerTrace(m, log, id);
    assert log[..0] == [];
    ExclusiveTraceIff(takes, frees, HeldsOf(m, log, id));
    assert forall j :: 0 <= j < |log| && HitsHeld(log[j], id) ==> Takes(log[j], id);
  }

  ghost function Count(log: seq<Entry>, what: Entry -> bool): nat {
    if log == [] then 0 else Count(log[..|log| - 1], what) + if what(log[|log| - 1]) then 1 else 0
  }

  /** takes + held at the start == releases + hits on held tickets + held now. */
  lemma {:induction false} TakerLedger(m: map<Value, Body>, log: seq<Entry>, id: Value)
    requires KeyedById(m) && SequentialLog(m, log) && TakerLog(log)
    ensures Count(log, e => Takes(e, id)) + Held(m, id)
         == Count(log, e => Frees(e, id)) + Count(log, e => HitsHeld(e, id)) + Held(Replay(m, log), id)
  {
    if log != [] {
      var n := |log| - 1;
      SequentialPrefix(m, log, n);
      TakerLedger(m, log[..n], id);
      ReplayKeyed(m, log[..n]);
      TakerEntry(Replay(m, log[..n]), log[n], id);
    }
  }

  ghost predicate TakerLabels(labels: seq<Label>) {
    forall i :: 0 <= i < |labels| && labels[i].Acquire? ==> TakerOp(labels[i].op)
  }

  ghost predicate TakerState(s: State) {
    TakerLog(s.log) && (s.lock.Some? && !s.lock.value.phase.Written? ==> TakerOp(s.lock.value.phase.op))
  }

  lemma {:induction false} TakersRunTakerOps(s: State, labels: seq<Label>, t: State)
    requires Run(s, labels, t) && TakerState(s) && TakerLabels(labels)
    ensures TakerState(t)
    decreases |labels|
  {
    if labels != [] {
      TakersRunTakerOps(Next(s, labels[0]), labels[1..], t);
    }
  }

  /** Over every interleaving of workers and dispatchers, with crashes: the ledger, and the exact condition for exclusivity. */
  lemma HoldingIsExclusiveIff(s: State, labels: seq<Label>, t: State, id: Value)
    requires Initial(s) && Run(s, labels, t) && TakerLabels(labels)
    ensures Count(t.log, e => Takes(e, id)) + Held(Abs(s.disk), id)
         == Count(t.log, e => Frees(e, id)) + Count(t.log, e => HitsHeld(e, id)) + Held(Abs(t.disk), id)
    ensures Held(Abs(s.disk), id) == 0 ==> (Exclusive(t.log, id) <==> forall j :: 0 <= j < |t.log| ==> !HitsHeld(t.log[j], id))
  {
    var m := Abs(s.disk);
    InitialInv(s);
    EveryRunIsSequential(m, s, labels, t);
    TakersRunTakerOps(s, labels, t);
    assert KeyedById(m);
    TakerLedger(m, t.log, id);
    if Held(m, id) == 0 {
      ExclusiveIff(m, t.log, id);
    }
  }

  // ---- Choosing what to claim ----

  /** A missing difficulty counts as 1. */
  predicate WithinReach(t: Body, maxDifficulty: Option<real>) {
    var d := if KeyTargetDifficulty in t then t[KeyTargetDifficulty] else Num(1.0);
    maxDifficulty.Some? ==> d.Num? && d.num <= maxDifficulty.value
  }

  predicate Claimable(t: Body, worker: Value, maxDifficulty: Option<real>) {
    && HasStatus(t, Sprint)
    && !Truthy(Get(t, KeyGate))
    && Get(t, KeyWorker) == worker
    && WithinReach(t, maxDifficulty)
  }

  /** Above the bound, if there is one; a difficulty nobody set is 1. */
  ghost predicate TooHard(t: Body, maxDifficulty: Option<real>) {
    maxDifficulty.Some? &&
    (if KeyTargetDifficulty !in t then 1.0 > maxDifficulty.value
     else !(t[KeyTargetDifficulty].Num? && t[KeyTargetDifficulty].num <= maxDifficulty.value))
  }

  /** Not in `sprint`, gated, somebody else's, or too hard. */
  ghost predicate NotFor(t: Body, worker: Value, maxDifficulty: Option<real>) {
    Get(t, KeyStatus) != Stat(Sprint) || Truthy(Get(t, KeyGate)) || Get(t, KeyWorker) != worker || TooHard(t, maxDifficulty)
  }

  /** Among the first `n` tasks the one at `k` is claimable, of least key, and the first such. */
  ghost predicate Chosen(tasks: seq<Body>, n: nat, k: nat, worker: Value, maxDifficulty: Option<real>, key: Body -> real)
    requires n <= |tasks|
  {
    && k < n && Claimable(tasks[k], worker, maxDifficulty)
    && forall j :: 0 <= j < n && Claimable(tasks[j], worker, maxDifficulty) ==>
         key(tasks[k]) <= key(tasks[j]) && (j < k ==> key(tasks[k]) < key(tasks[j]))
  }

  /** The first claimable ticket of least priority key, unless the circuit breaker is tripped. */
  method NextTicketForWorker(tasks: seq<Body>, worker: Value, maxDifficulty: Option<real>, key: Body -> real, tripped: bool)
    returns (best: Option<nat>)
    ensures best.None? <==> tripped || forall t :: t in tasks ==> !Claimable(t, worker, maxDifficulty)
    ensures best.Some? ==> Chosen(tasks, |tasks|, best.value, worker, maxDifficulty, key)
    ensures best.None? <==> tripped || forall t :: t in tasks ==> NotFor(t, worker, maxDifficulty)
    ensures best.Some? ==>
      var t := tasks[best.value];
      Get(t, KeyStatus) == Stat(Sprint) && !Truthy(Get(t, KeyGate)) && Get(t, KeyWorker) == worker && !TooHard(t, maxDifficulty)
    ensures best.Some? ==> forall j :: 0 <= j < |tasks| && !NotFor(tasks[j], worker, maxDifficulty) ==>
      key(tasks[best.value]) <= key(tasks[j]) && (j < best.value ==> key(tasks[best.value]) < key(tasks[j]))
  {
    best := None;
    if tripped {
      return;
    }
    var i := 0;
    while i < |tasks|
      invariant 0 <= i <= |tasks|
      invariant best.None? ==> forall k :: 0 <= k < i ==> !Claimable(tasks[k], worker, maxDifficulty)
      invariant best.Some? ==> Chosen(tasks, i, best.value, worker, maxDifficulty, key)
    {
      if Claimable(tasks[i], worker, maxDifficulty) && (best.None? || key(tasks[i]) < key(tasks[best.value])) {
        best := Some(i);
      }
      i := i + 1;
    }
  }

  // ---- What readers see of the three of them ----

  /** The stored ticket is the mutated one, and no other ticket moved. */
  ghost predicate Became(d: Disk, e: Disk, id: Value, to: Body) {
    && Read(d, id).Some? && Read(e, id).Some? && SameBut(to, Read(e, id).value, {KeyUpdatedAt})
    && forall other :: other != id ==> Read(e, other) == Read(d, other)
  }

  /** A successful claim, as readers see it: the ticket in progress, with its dispatch stamp if one was given, and nothing else. */
  ghost predicate Taken(d: Disk, e: Disk, id: Value, dispatchedAt: Option<Stamp>) {
    && Read(d, id).Some? && Read(e, id).Some?
    && (var was, b := Read(d, id).value, Read(e, id).value;
        && Get(was, KeyStatus) == Stat(Sprint) && Get(b, KeyStatus) == Stat(InProgress)
        && (dispatchedAt.Some? ==> Get(b, KeyDispatchedAt) == Text(dispatchedAt.value))
        && SameBut(was, b, {KeyStatus, KeyUpdatedAt} + if dispatchedAt.None? then {} else {KeyDispatchedAt}))
    && forall other :: other != id ==> Read(e, other) == Read(d, other)
  }

  lemma ClaimTakes(d: Disk, e: Disk, id: Value, at: Option<Stamp>)
    requires Read(d, id).Some? && HasStatus(Read(d, id).value, Sprint) && Became(d, e, id, ClaimBody(Read(d, id).value, at))
    ensures Taken(d, e, id, at)
  {
    var was := Read(d, id).value;
    SameButTwice(was, ClaimBody(was, at), Read(e, id).value, {KeyStatus} + if at.None? then {} else {KeyDispatchedAt}, {KeyUpdatedAt});
  }

  /** A successful release, as readers see it: to `sprint`, or to triage without an intention, and no longer dispatched. */
  ghost predicate GivenBack(d: Disk, e: Disk, id: Value) {
    && Read(d, id).Some? && Read(e, id).Some?
    && (var was, b := Read(d, id).value, Read(e, id).value;
        && Get(was, KeyStatus) == Stat(InProgress) && Get(b, KeyDispatchedAt) == Null
        && (if IntentionDeclared(was) then HasStatus(b, Sprint) && SameBut(was, b, {KeyStatus, KeyDispatchedAt, KeyUpdatedAt})
            else HasStatus(b, Triage) && Get(b, KeyFailReason) == NO_INTENTION
                 && SameBut(was, b, {KeyStatus, KeyDispatchedAt, KeyUpdatedAt, KeyFailReason})))
    && forall other :: other != id ==> Read(e, other) == Read(d, other)
  }

  lemma ReleaseGivesBack(d: Disk, e: Disk, id: Value)
    requires Read(d, id).Some? && HasStatus(Read(d, id).value, InProgress) && Became(d, e, id, ReleaseBody(Read(d, id).value))
    ensures GivenBack(d, e, id)
  {
    var was := Read(d, id).value;
    var changed := {KeyStatus, KeyDispatchedAt} + if IntentionDeclared(was) then {} else {KeyFailReason};
    SameButTwice(was, ReleaseBody(was), Read(e, id).value, changed, {KeyUpdatedAt});
  }

  /** A successful dispatch, as readers see it: in progress, with who dispatched it and when. */
  ghost predicate HandedOut(d: Disk, e: Disk, id: Value, dispatcher: string, at: Stamp) {
    && Read(d, id).Some? && Read(e, id).Some?
    && (var was, b := Read(d, id).value, Read(e, id).value;
        && HasStatus(b, InProgress) && Get(b, KeyOther("dispatched_by")) == Text(dispatcher) && Get(b, KeyDispatchedAt) == Text(at)
        && SameBut(was, b, {KeyStatus, KeyOther("dispatched_by"), KeyDispatchedAt, KeyUpdatedAt}))
    && forall other :: other != id ==> Read(e, other) == Read(d, other)
  }

  lemma DispatchChanges(was: Body, dispatcher: string, at: Stamp)
    ensures var b := DispatchBody(was, dispatcher, at);
      && HasStatus(b, InProgress) && Get(b, KeyOther("dispatched_by")) == Text(dispatcher) && Get(b, KeyDispatchedAt) == Text(at)
      && SameBut(was, b, {KeyStatus, KeyOther("dispatched_by"), KeyDispatchedAt})
      && IdOf(b) == IdOf(was) && !TerminalBody(b) && IdOf(b[KeyUpdatedAt := Text(at)]) == IdOf(was)
  {
  }

  lemma DispatchHands(d: Disk, e: Disk, id: Value, dispatcher: string, at: Stamp)
    requires Read(d, id).Some? && Became(d, e, id, DispatchBody(Read(d, id).value, dispatcher, at))
    ensures HandedOut(d, e, id, dispatcher, at)
  {
    var was := Read(d, id).value;
    var changed := {KeyStatus, KeyOther("dispatched_by"), KeyDispatchedAt};
    DispatchChanges(was, dispatcher, at);
    hide DispatchBody, FindPath;
    SameButTwice(was, DispatchBody(was, dispatcher, at), Read(e, id).value, changed, {KeyUpdatedAt});
  }

  /** The claim itself: succeeds exactly when the live ticket is in `sprint`, and then takes it. */
  method ClaimTicket(store: Store, id: Value, dispatchedAt: Option<Stamp>, now: Stamp, newName: FileName) returns (ok: bool)
    requires Wf(store.disk) && Unused(store.disk, newName)
    modifies store
    ensures ok <==> Read(old(store.disk), id).Some? && HasStatus(Read(old(store.disk), id).value, Sprint)
    ensures store.disk == if !ok then old(store.disk) else
      Put(old(store.disk), ClaimBody(Read(old(store.disk), id).value, dispatchedAt)[KeyUpdatedAt := Text(now)], now, newName)
    ensures ok ==> Taken(old(store.disk), store.disk, id, dispatchedAt)
  {
    FoundIdIsUsable(store.disk, id);
    hide Put, Wf, Unused;
    var answer := store.UpdateIf(id, {Stat(Sprint)}, b => ClaimBody(b, dispatchedAt), now, newName);
    ok := answer.At?;
    if ok {
      ClaimTakes(old(store.disk), store.disk, id, dispatchedAt);
    }
  }

  /** The release: only a ticket still in progress is reset. */
  method ResetStaleInProgress(store: Store, id: Value, now: Stamp, newName: FileName) returns (ok: bool)
    requires Wf(store.disk) && Unused(store.disk, newName)
    modifies store
    ensures ok <==> Read(old(store.disk), id).Some? && HasStatus(Read(old(store.disk), id).value, InProgress)
    ensures store.disk == if !ok then old(store.disk) else
      Put(old(store.disk), ReleaseBody(Read(old(store.disk), id).value)[KeyUpdatedAt := Text(now)], now, newName)
    ensures ok ==> GivenBack(old(store.disk), store.disk, id)
  {
    FoundIdIsUsable(store.disk, id);
    hide Put, Wf, Unused;
    var answer := store.UpdateIf(id, {Stat(InProgress)}, b => ReleaseBody(b), now, newName);
    ok := answer.At?;
    if ok {
      ReleaseGivesBack(old(store.disk), store.disk, id);
    }
  }

  /** `dispatch`: hands a ticket to a worker, whether it is claimable or already in progress. */
  method CmdDispatch(store: Store, id: Value, dispatcher: string, now: Stamp, newName: FileName) returns (ok: bool)
    requires Wf(store.disk) && Unused(store.disk, newName)
    modifies store
    ensures ok <==> Read(old(store.disk), id).Some? && Get(Read(old(store.disk), id).value, KeyStatus) in Dispatchable()
    ensures store.disk == if !ok then old(store.disk) else
      Put(old(store.disk), DispatchBody(Read(old(store.disk), id).value, dispatcher, now)[KeyUpdatedAt := Text(now)], now, newName)
    ensures ok <==> Read(old(store.disk), id).Some?
                    && (HasStatus(Read(old(store.disk), id).value, Sprint) || HasStatus(Read(old(store.disk), id).value, InProgress))
    ensures ok ==> HandedOut(old(store.disk), store.disk, id, dispatcher, now)
  {
    FoundIdIsUsable(store.disk, id);
    if Read(store.disk, id).Some? {
      DispatchChanges(Read(store.disk, id).value, dispatcher, now);
    }
    hide Put, Wf, Unused, DispatchBody, HandedOut, FindPath;
    var answer := store.UpdateIf(id, Dispatchable(), b => DispatchBody(b, dispatcher, now), now, newName);
    ok := answer.At?;
    if ok {
      DispatchHands(old(store.disk), store.disk, id, dispatcher, now);
    }
  }

  ghost predicate ClaimableId(m: map<Value, Body>, id: Value, worker: Value, maxDifficulty: Option<real>) {
    id in m && Claimable(WithDefaults(m[id]), worker, maxDifficulty)
  }

  /** The listed copy at `k` is what the worker should get from some listing of the queue. */
  ghost predicate BestOf(m: map<Value, Body>, tasks: seq<Body>, k: nat, id: Value, worker: Value, maxDifficulty: Option<real>, key: Body -> real) {
    LoadOf(m, tasks) && Chosen(tasks, |tasks|, k, worker, maxDifficulty, key) && IdOf(tasks[k]) == id
  }

  lemma ListedClaimable(m: map<Value, Body>, tasks: seq<Body>, worker: Value, maxDifficulty: Option<real>)
    requires LoadOf(m, tasks) && KeyedById(m)
    ensures (exists t :: t in tasks && Claimable(t, worker, maxDifficulty)) <==> (exists id :: ClaimableId(m, id, worker, maxDifficulty))
  {
    if t :| t in tasks && Claimable(t, worker, maxDifficulty) {
      assert ClaimableId(m, IdOf(t), worker, maxDifficulty);
    }
    if id :| ClaimableId(m, id, worker, maxDifficulty) {
      assert WithDefaults(m[id]) in tasks;
    }
  }

  /** The defaults filled in by a load do not change whether a ticket is for this worker. */
  lemma DefaultsKeepClaimable(b: Body, worker: Value, maxDifficulty: Option<real>)
    ensures Claimable(WithDefaults(b), worker, maxDifficulty) <==> !NotFor(b, worker, maxDifficulty)
  {
    DefaultsFillOnly(b);
  }

  lemma NobodyToServe(d: Disk, worker: Value, maxDifficulty: Option<real>)
    requires Wf(d)
    ensures (forall c :: !ClaimableId(Abs(d), c, worker, maxDifficulty))
       <==> (forall c :: Read(d, c).Some? ==> NotFor(Read(d, c).value, worker, maxDifficulty))
  {
    forall c ensures ClaimableId(Abs(d), c, worker, maxDifficulty) <==> Read(d, c).Some? && !NotFor(Read(d, c).value, worker, maxDifficulty) {
      ReadIsLookup(d, c);
      if c in Abs(d) {
        DefaultsKeepClaimable(Abs(d)[c], worker, maxDifficulty);
      }
    }
  }

  lemma ChosenIsLive(m: map<Value, Body>, d: Disk, t: Body)
    requires Wf(d) && m == Abs(d) && IdOf(t) in m && t == WithDefaults(m[IdOf(t)]) && HasStatus(t, Sprint)
    ensures Read(d, IdOf(t)).Some? && HasStatus(Read(d, IdOf(t)).value, Sprint)
  {
    ReadIsLookup(d, IdOf(t));
    DefaultsFillOnly(m[IdOf(t)]);
  }

  /** `cmd_next`: choose from an unlocked load, then claim under the lock; nothing is returned exactly when nothing could be. */
  method CmdNext(store: Store, worker: Value, maxDifficulty: Option<real>, key: Body -> real, tripped: bool,
                 now: Stamp, newName: FileName) returns (id: Option<Value>)
    requires Wf(store.disk) && Unused(store.disk, newName)
    modifies store
    ensures id.None? <==> tripped || forall c :: !ClaimableId(old(Abs(store.disk)), c, worker, maxDifficulty)
    ensures id.None? ==> store.disk == old(store.disk)
    ensures id.Some? ==> exists tasks, k :: BestOf(old(Abs(store.disk)), tasks, k, id.value, worker, maxDifficulty, key)
    ensures id.Some? ==> Read(old(store.disk), id.value).Some? && HasStatus(Read(old(store.disk), id.value).value, Sprint)
    ensures id.Some? ==>
      var b := ClaimBody(Read(old(store.disk), id.value).value, Some(now))[KeyUpdatedAt := Text(now)];
      store.disk == Put(old(store.disk), b, now, newName)
    ensures id.Some? ==> Taken(old(store.disk), store.disk, id.value, Some(now))
    ensures id.Some? ==>
      var was := Read(old(store.disk), id.value).value;
      Get(was, KeyStatus) == Stat(Sprint) && !Truthy(Get(was, KeyGate)) && Get(was, KeyWorker) == worker && !TooHard(was, maxDifficulty)
    ensures id.None? <==> tripped || forall c :: Read(old(store.disk), c).Some? ==> NotFor(Read(old(store.disk), c).value, worker, maxDifficulty)
  {
    var tasks := Load(store);
    ghost var m := Abs(store.disk);
    ListedClaimable(m, tasks, worker, maxDifficulty);
    NobodyToServe(store.disk, worker, maxDifficulty);
    var best := NextTicketForWorker(tasks, worker, maxDifficulty, key, tripped);
    if best.None? {
      return None;
    }
    var tid := IdOf(tasks[best.value]);
    assert tasks[best.value] in tasks;
    ChosenIsLive(m, store.disk, tasks[best.value]);
    DefaultsKeepClaimable(m[tid], worker, maxDifficulty);
    ReadIsLookup(store.disk, tid);
    assert BestOf(m, tasks, best.value, tid, worker, maxDifficulty, key);
    var ok := ClaimTicket(store, tid, Some(now), now, newName);
    id := if ok then Some(tid) else None;
  }
}
