/**
 The out-of-band nag: a periodic sweep that nags once per new or reopened alarm,
 stamping an alarm only after the nag was delivered.
 */
module AlarmNotifier {
  import opened SystemAlarms

  /** What the outside world answers for one alarm: was the nag delivered, and did the stamp reach the disk. */
  datatype Reply = Reply(sent: bool, stamped: bool)

  datatype Happening =
    | Nagged(sig: Signature)
    | Missed(sig: Signature)
    | Archived(sig: Signature)
    | Dropped(sig: Signature)

  predicate Due(l: Ledger, sig: Signature) {
    sig != "" && sig in l.open && !l.open[sig].notified
  }

  function NagOne(l: Ledger, sig: Signature, reply: Reply): (r: (Ledger, seq<Happening>))
    ensures |r.1| <= 1
  {
    if !Due(l, sig) then (l, [])
    else if !reply.sent then (l, [Missed(sig)])
    else (if reply.stamped then MarkNotified(l, sig) else l, [Nagged(sig)])
  }

  function Sweep(l: Ledger, order: seq<Signature>, world: Signature -> Reply): (Ledger, seq<Happening>) {
    if order == [] then (l, [])
    else
      var n := |order| - 1;
      var (m, log) := Sweep(l, order[..n], world);
      var (m', more) := NagOne(m, order[n], world(order[n]));
      (m', log + more)
  }

  // ---- What one sweep does ----

  ghost predicate Distinct(order: seq<Signature>) {
    forall i, j :: 0 <= i < j < |order| ==> order[i] != order[j]
  }

  /** The record a sweep leaves behind for one alarm. */
  function Settled(l: Ledger, sig: Signature, world: Signature -> Reply): Alarm
    requires sig in l.open
  {
    if Due(l, sig) && world(sig).sent && world(sig).stamped then l.open[sig].(notified := true) else l.open[sig]
  }

  /** A sweep only stamps: exactly the due alarms whose nag and stamp succeed. */
  lemma {:induction false} SweepClosedForm(l: Ledger, order: seq<Signature>, world: Signature -> Reply)
    requires Distinct(order)
    ensures var m := Sweep(l, order, world).0;
      m.archive == l.archive && m.open.Keys == l.open.Keys
      && (forall sig :: sig in l.open ==> m.open[sig] == if sig in order then Settled(l, sig, world) else l.open[sig])
      && (forall sig :: sig in l.open ==>
            if sig in order && sig != "" && !l.open[sig].notified && world(sig).sent && world(sig).stamped
            then m.open[sig] == l.open[sig].(notified := true) else m.open[sig] == l.open[sig])
  {
    if order != [] {
      var n := |order| - 1;
      SweepClosedForm(l, order[..n], world);
      assert order == order[..n] + [order[n]];
    }
  }

  /** The sender is called for an alarm exactly when it is due. */
  lemma {:induction false} SweepTriesExactlyTheDue(l: Ledger, order: seq<Signature>, world: Signature -> Reply, sig: Signature)
    requires Distinct(order)
    ensures var log := Sweep(l, order, world).1;
      && (Nagged(sig) in log <==> sig in order && Due(l, sig) && world(sig).sent)
      && (Missed(sig) in log <==> sig in order && Due(l, sig) && !world(sig).sent)
      && (Nagged(sig) in log || Missed(sig) in log <==> sig in order && sig != "" && sig in l.open && !l.open[sig].notified)
  {
    if order != [] {
      var n := |order| - 1;
      SweepTriesExactlyTheDue(l, order[..n], world, sig);
      SweepClosedForm(l, order[..n], world);
      assert order == order[..n] + [order[n]];
    }
  }

  // ---- Runs of raises, closes, prunes and sweeps ----

  datatype Op = Store(event: Event) | Sweeping(order: seq<Signature>, world: Signature -> Reply)

  /** What a store operation does to the set of open alarms. */
  function Moved(e: Event, before: Ledger, after: Ledger): seq<Happening> {
    if e.sig in before.open && e.sig !in after.open then [Archived(e.sig)]
    else if e.sig !in before.open && e.sig in after.open then [Dropped(e.sig)]
    else []
  }

  function Step(l: Ledger, op: Op): (Ledger, seq<Happening>) {
    match op
    case Store(e) => (Apply(l, e), Moved(e, l, Apply(l, e)))
    case Sweeping(order, world) => Sweep(l, order, world)
  }

  function Run(l: Ledger, ops: seq<Op>): (Ledger, seq<Happening>) {
    if ops == [] then (l, [])
    else
      var n := |ops| - 1;
      var (m, log) := Run(l, ops[..n]);
      var (m', more) := Step(m, ops[n]);
      (m', log + more)
  }

  // ---- Two nags have an archive and a fresh record between them ----

  ghost predicate ArchivedAfter(log: seq<Happening>, i: nat, sig: Signature) {
    exists a :: i < a < |log| && log[a] == Archived(sig)
  }

  ghost predicate ReopenedAfter(log: seq<Happening>, i: nat, sig: Signature) {
    exists a, d :: i < a < d < |log| && log[a] == Archived(sig) && log[d] == Dropped(sig)
  }

  ghost predicate Separated(log: seq<Happening>, sig: Signature) {
    forall i, j :: 0 <= i < j < |log| && log[i] == log[j] == Nagged(sig) ==> ReopenedAfter(log[..j], i, sig)
  }

  /** Every past nag is either still in force (open and stamped), or its episode has ended. */
  ghost predicate Spent(l: Ledger, log: seq<Happening>, i: nat, sig: Signature) {
    || ReopenedAfter(log, i, sig)
    || (sig !in l.open && ArchivedAfter(log, i, sig))
    || (sig in l.open && l.open[sig].notified)
  }

  ghost predicate Once(l: Ledger, log: seq<Happening>, sig: Signature) {
    && Separated(log, sig)
    && forall i :: 0 <= i < |log| && log[i] == Nagged(sig) ==> Spent(l, log, i, sig)
  }

  lemma EarlierStays(log: seq<Happening>, h: Happening, i: nat, sig: Signature)
    ensures ReopenedAfter(log, i, sig) ==> ReopenedAfter(log + [h], i, sig)
    ensures ArchivedAfter(log, i, sig) ==> ArchivedAfter(log + [h], i, sig)
    ensures i < |log| && h == Archived(sig) ==> ArchivedAfter(log + [h], i, sig)
    ensures ArchivedAfter(log, i, sig) && h == Dropped(sig) ==> ReopenedAfter(log + [h], i, sig)
  {
    var more := log + [h];
    assert forall k :: 0 <= k < |log| ==> more[k] == log[k];
    assert more[|log|] == h;
  }

  lemma SeparatedStays(log: seq<Happening>, h: Happening, sig: Signature)
    requires Separated(log, sig)
    requires h == Nagged(sig) ==> forall i :: 0 <= i < |log| && log[i] == Nagged(sig) ==> ReopenedAfter(log, i, sig)
    ensures Separated(log + [h], sig)
  {
    var more := log + [h];
    forall i, j | 0 <= i < j < |more| && more[i] == more[j] == Nagged(sig) ensures ReopenedAfter(more[..j], i, sig) {
      if j < |log| {
        assert more[..j] == log[..j] && log[i] == log[j] == Nagged(sig);
      } else {
        assert more[..j] == log && log[i] == Nagged(sig);
      }
    }
  }

  lemma NagKeepsOnce(l: Ledger, log: seq<Happening>, n: Signature, reply: Reply, sig: Signature)
    requires Once(l, log, sig) && reply.stamped
    ensures var (m, more) := NagOne(l, n, reply); Once(m, log + more, sig)
  {
    var (m, more) := NagOne(l, n, reply);
    if more == [] {
      assert log + more == log;
    } else {
      SeparatedStays(log, more[0], sig);
      forall i | 0 <= i < |log + more| && (log + more)[i] == Nagged(sig) ensures Spent(m, log + more, i, sig) {
        EarlierStays(log, more[0], i, sig);
        if i < |log| {
          assert log[i] == Nagged(sig);
        }
      }
    }
  }

  lemma {:induction false} SweepKeepsOnce(l: Ledger, log: seq<Happening>, order: seq<Signature>, world: Signature -> Reply, sig: Signature)
    requires Once(l, log, sig) && forall s :: s in order ==> world(s).stamped
    ensures Once(Sweep(l, order, world).0, log + Sweep(l, order, world).1, sig)
  {
    if order == [] {
      assert log + [] == log;
    } else {
      var n := |order| - 1;
      SweepKeepsOnce(l, log, order[..n], world, sig);
      var (m, more) := Sweep(l, order[..n], world);
      NagKeepsOnce(m, log + more, order[n], world(order[n]), sig);
      assert log + more + NagOne(m, order[n], world(order[n])).1 == log + Sweep(l, order, world).1;
    }
  }

  lemma StoreKeepsOnce(l: Ledger, log: seq<Happening>, e: Event, sig: Signature)
    requires Once(l, log, sig)
    ensures Once(Apply(l, e), log + Moved(e, l, Apply(l, e)), sig)
  {
    var m := Apply(l, e);
    var more := Moved(e, l, m);
    if more == [] {
      assert log + more == log;
    } else {
      SeparatedStays(log, more[0], sig);
    }
    forall i | 0 <= i < |log + more| && (log + more)[i] == Nagged(sig) ensures Spent(m, log + more, i, sig) {
      assert i < |log| && log[i] == Nagged(sig);
      if more != [] {
        EarlierStays(log, more[0], i, sig);
      }
    }
  }

  ghost predicate StampsSucceed(ops: seq<Op>) {
    forall op :: op in ops && op.Sweeping? ==> forall s :: s in op.order ==> op.world(s).stamped
  }

  /**
   Over every run from an empty store in which stamping succeeds, two nags for one signature have an
   archive and a fresh record of it between them.
   */
  lemma {:induction false} NagsAreSeparated(ops: seq<Op>, sig: Signature)
    requires StampsSucceed(ops)
    ensures var (l, log) := Run(Ledger(map[], map[]), ops); Once(l, log, sig)
  {
    if ops != [] {
      var n := |ops| - 1;
      assert forall op :: op in ops[..n] ==> op in ops;
      NagsAreSeparated(ops[..n], sig);
      var (l, log) := Run(Ledger(map[], map[]), ops[..n]);
      assert ops[n] in ops;
      match ops[n]
      case Store(e) => StoreKeepsOnce(l, log, e, sig);
      case Sweeping(order, world) => SweepKeepsOnce(l, log, order, world, sig);
    }
  }

  /** The stamp is what the promise rests on: the next delivered sweep nags again exactly when the stamp was lost. */
  lemma NextSweepRepeatsIff(l: Ledger, sig: Signature, first: seq<Signature>, world1: Signature -> Reply,
                            second: seq<Signature>, world2: Signature -> Reply)
    requires Distinct(first) && Distinct(second) && sig in first && sig in second
    requires Due(l, sig) && world1(sig).sent && world2(sig).sent
    ensures Nagged(sig) in Sweep(l, first, world1).1
    ensures Nagged(sig) in Sweep(Sweep(l, first, world1).0, second, world2).1 <==> !world1(sig).stamped
  {
    SweepClosedForm(l, first, world1);
    SweepTriesExactlyTheDue(l, first, world1, sig);
    SweepTriesExactlyTheDue(Sweep(l, first, world1).0, second, world2, sig);
  }

  // ---- A missed nag is retried ----

  /** A stamp, by a sweep or by hand: what makes an open alarm's nag count as delivered. */
  ghost predicate Stamps(op: Op, sig: Signature) {
    match op
    case Store(e) => e == Marked(sig)
    case Sweeping(order, world) => sig in order && world(sig).sent && world(sig).stamped
  }

  ghost predicate NeverStamped(ops: seq<Op>, sig: Signature) {
    forall op :: op in ops ==> !Stamps(op, sig)
  }

  ghost predicate Listings(ops: seq<Op>) {
    forall op :: op in ops && op.Sweeping? ==> Distinct(op.order)
  }

  /** Raises, closes and prunes leave an alarm due unless they archive it. */
  lemma StoreKeepsDue(l: Ledger, e: Event, sig: Signature)
    requires Due(l, sig) && e != Marked(sig)
    ensures Due(Apply(l, e), sig) <==> Archived(sig) !in Moved(e, l, Apply(l, e))
  {
  }

  /** An alarm that is due stays due until it is stamped or archived: a prune that archives nothing ends no wait. */
  lemma {:induction false} DueUntilEnded(l: Ledger, ops: seq<Op>, sig: Signature)
    requires Due(l, sig) && Listings(ops) && NeverStamped(ops, sig) && Archived(sig) !in Run(l, ops).1
    ensures Due(Run(l, ops).0, sig)
  {
    if ops != [] {
      var n := |ops| - 1;
      assert forall op :: op in ops[..n] ==> op in ops;
      var (m, log) := Run(l, ops[..n]);
      assert forall h :: h in log ==> h in Run(l, ops).1;
      DueUntilEnded(l, ops[..n], sig);
      assert ops[n] in ops;
      match ops[n]
      case Store(e) => StoreKeepsDue(m, e, sig);
      case Sweeping(order, world) => SweepClosedForm(m, order, world);
    }
  }

  /** An un-stamped open alarm is tried again by every later sweep, for as long as nothing has stamped or archived it. */
  lemma RetriedUntilEnded(l: Ledger, ops: seq<Op>, order: seq<Signature>, world: Signature -> Reply, sig: Signature)
    requires Due(l, sig) && Listings(ops) && NeverStamped(ops, sig) && Archived(sig) !in Run(l, ops).1
    requires Distinct(order) && forall s :: s in Run(l, ops).0.open ==> s in order
    ensures (if world(sig).sent then Nagged(sig) else Missed(sig)) in Sweep(Run(l, ops).0, order, world).1
  {
    DueUntilEnded(l, ops, sig);
    SweepTriesExactlyTheDue(Run(l, ops).0, order, world, sig);
  }

  // ---- The sweep as it runs over the store ----

  function CountNags(log: seq<Happening>): nat {
    if log == [] then 0 else CountNags(log[..|log| - 1]) + if log[|log| - 1].Nagged? then 1 else 0
  }

  lemma NoNags()
    ensures CountNags([]) == 0
  {
  }

  lemma CountOneMore(log: seq<Happening>, more: seq<Happening>)
    requires |more| <= 1
    ensures CountNags(log + more) == CountNags(log) + if more != [] && more[0].Nagged? then 1 else 0
  {
    if more == [] {
      assert log + more == log;
    } else {
      assert (log + more)[..|log|] == log;
    }
  }

  /** One iteration of the sweep, on a record as it was listed. */
  method NagListed(store: AlarmStore, listed: Alarm, sig: Signature, reply: Reply) returns (delivered: bool)
    requires sig in store.open && store.open[sig] == listed
    modifies store
    ensures store.State() == NagOne(old(store.State()), sig, reply).0
    ensures var log := NagOne(old(store.State()), sig, reply).1; |log| <= 1 && (delivered <==> log != [] && log[0].Nagged?)
  {
    delivered := false;
    if !listed.notified && sig != "" {
      if reply.sent {
        if reply.stamped {
          var _ := store.MarkAlarm(sig);
        }
        delivered := true;
      }
    }
  }

  /** Works from the records as they were listed; a nag counts even when its stamp fails. */
  method NotifyNewAlarms(store: AlarmStore, order: seq<Signature>, world: Signature -> Reply) returns (nagged: nat)
    requires Distinct(order) && forall sig :: sig in order ==> sig in store.open
    modifies store
    ensures store.State() == Sweep(old(store.State()), order, world).0
    ensures nagged == CountNags(Sweep(old(store.State()), order, world).1)
    ensures nagged == |set sig | sig in order && sig != "" && !old(store.open)[sig].notified && world(sig).sent|
    ensures store.archive == old(store.archive) && store.open.Keys == old(store.open).Keys
    ensures forall sig :: sig in old(store.open) ==>
      if sig in order && sig != "" && !old(store.open)[sig].notified && world(sig).sent && world(sig).stamped
      then store.open[sig] == old(store.open)[sig].(notified := true) else store.open[sig] == old(store.open)[sig]
  {
    hide NagOne, Due, CountNags;
    NoNags();
    var listed := store.open;
    ghost var l := store.State();
    nagged := 0;
    var i := 0;
    while i < |order|
      invariant 0 <= i <= |order|
      invariant store.State() == Sweep(l, order[..i], world).0
      invariant nagged == CountNags(Sweep(l, order[..i], world).1)
    {
      assert order[..i + 1][..i] == order[..i];
      SweepClosedForm(l, order[..i], world);
      var sig := order[i];
      assert sig in store.State().open && store.State().open[sig] == listed[sig];
      CountOneMore(Sweep(l, order[..i], world).1, NagOne(store.State(), sig, world(sig)).1);
      var delivered := NagListed(store, listed[sig], sig, world(sig));
      if delivered {
        nagged := nagged + 1;
      }
      i := i + 1;
    }
    assert order[..i] == order;
    SweepOutcome(l, order, world);
  }

  lemma SweepOutcome(l: Ledger, order: seq<Signature>, world: Signature -> Reply)
    requires Distinct(order) && forall sig :: sig in order ==> sig in l.open
    ensures var (m, log) := Sweep(l, order, world);
      && CountNags(log) == |set sig | sig in order && sig != "" && !l.open[sig].notified && world(sig).sent|
      && m.archive == l.archive && m.open.Keys == l.open.Keys
      && forall sig :: sig in l.open ==>
           if sig in order && sig != "" && !l.open[sig].notified && world(sig).sent && world(sig).stamped
           then m.open[sig] == l.open[sig].(notified := true) else m.open[sig] == l.open[sig]
  {
    SweepClosedForm(l, order, world);
    NagsAreDelivered(l, order, world);
    assert Delivered(l, order, world) == set sig | sig in order && sig != "" && !l.open[sig].notified && world(sig).sent;
  }

  ghost function Delivered(l: Ledger, order: seq<Signature>, world: Signature -> Reply): set<Signature> {
    set sig | sig in order && sig != "" && sig in l.open && !l.open[sig].notified && world(sig).sent
  }

  /** The count is the number of due alarms whose nag was delivered. */
  lemma {:induction false} NagsAreDelivered(l: Ledger, order: seq<Signature>, world: Signature -> Reply)
    requires Distinct(order)
    ensures CountNags(Sweep(l, order, world).1) == |Delivered(l, order, world)|
  {
    if order != [] {
      var n := |order| - 1;
      var (m, log) := Sweep(l, order[..n], world);
      NagsAreDelivered(l, order[..n], world);
      DueStillDue(l, order, world);
      CountOneMore(log, NagOne(m, order[n], world(order[n])).1);
      DeliveredOneMore(l, order, world);
      hide CountNags, Delivered, Due, Distinct;
    }
  }

  /** An alarm the sweep has not come to yet is due exactly when it was. */
  lemma DueStillDue(l: Ledger, order: seq<Signature>, world: Signature -> Reply)
    requires Distinct(order) && order != []
    ensures var n := |order| - 1; Due(Sweep(l, order[..n], world).0, order[n]) <==> Due(l, order[n])
  {
    SweepClosedForm(l, order[..|order| - 1], world);
  }

  lemma DeliveredOneMore(l: Ledger, order: seq<Signature>, world: Signature -> Reply)
    requires Distinct(order) && order != []
    ensures var n := |order| - 1; var last := order[n];
      |Delivered(l, order, world)| == |Delivered(l, order[..n], world)| + if Due(l, last) && world(last).sent then 1 else 0
  {
    var n := |order| - 1;
    assert order == order[..n] + [order[n]];
    var before, after := Delivered(l, order[..n], world), Delivered(l, order, world);
    assert order[n] !in before;
    assert after == if Due(l, order[n]) && world(order[n]).sent then before + {order[n]} else before;
  }
}
