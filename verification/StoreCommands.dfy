/**
 A command against the store itself: load the queue, edit the list, save it.
 Both gates then hold of every file on disk, over every sequence of commands.
 */
module StoreCommands {
  import opened Tickets
  import opened TicketStore
  import opened Ungating
  import opened QueueSave
  import opened QueueCommands

  ghost predicate StoreGated(d: Disk, history: seq<World>) {
    forall p :: p in d ==> Gated(d[p].body, history)
  }

  // ---- What the gates look at ----

  predicate SameGating(t: Body, u: Body) {
    && IdOf(t) == IdOf(u)
    && Get(t, KeyStatus) == Get(u, KeyStatus)
    && Get(t, KeyIntention) == Get(u, KeyIntention)
    && Get(t, KeyGate) == Get(u, KeyGate)
    && Get(t, KeyDecisionId) == Get(u, KeyDecisionId)
    && Get(t, KeyProven) == Get(u, KeyProven)
    && Get(t, KeyProofId) == Get(u, KeyProofId)
    && Get(t, KeyUnprovenReason) == Get(u, KeyUnprovenReason)
  }

  lemma GatedBySame(t: Body, u: Body, history: seq<World>)
    requires SameGating(t, u) && Gated(t, history)
    ensures Gated(u, history)
  {
    if HasStatus(u, Closed) && Get(t, KeyProven) == Flag(true) {
      var k :| 0 <= k < |history| && AcceptedIn(t, history[k]);
      assert AcceptedIn(u, history[k]);
    }
  }

  /** Defaults and time stamps are invisible to the gates. */
  lemma DefaultsKeepGating(b: Body)
    ensures SameGating(b, WithDefaults(b))
  {
    DefaultsFillOnly(b);
  }

  lemma StoredKeepsGating(b: Body, t: Body, now: Stamp)
    requires EqIgnoringUpdatedAt(b, Stamped(t, now))
    ensures SameGating(t, b)
  {
    var s := Stamped(t, now);
    EqIgnoringAgree(b, s, KeyId);
    EqIgnoringAgree(b, s, KeyStatus);
    EqIgnoringAgree(b, s, KeyIntention);
    EqIgnoringAgree(b, s, KeyGate);
    EqIgnoringAgree(b, s, KeyDecisionId);
    EqIgnoringAgree(b, s, KeyProven);
    EqIgnoringAgree(b, s, KeyProofId);
    EqIgnoringAgree(b, s, KeyUnprovenReason);
  }

  // ---- Commands keep the list's ids ----

  ghost predicate SameIds(xs: seq<Body>, ys: seq<Body>) {
    |xs| == |ys| && forall i :: 0 <= i < |xs| ==> IdOf(xs[i]) == IdOf(ys[i])
  }

  lemma EditKeepsId(c: Command, t: Body, lowRisk: bool, ctx: Context)
    ensures !EditOf(c, t, lowRisk, ctx).Keep? ==> IdOf(EditOf(c, t, lowRisk, ctx).to) == IdOf(t)
  {
  }

  lemma AfterCloseKeepsIds(tasks: seq<Body>, k: nat, id: string, today: int)
    requires AllTyped(tasks) && k < |tasks| && HasStatus(tasks[k], Closed)
    ensures SameIds(tasks, AfterClose(tasks, k, id, today))
  {
    AfterCloseIsUngating(tasks, k, id, today);
    PassKeepsDone(tasks, id, today);
  }

  lemma ClosesWithClosed(c: Command, t: Body, lowRisk: bool, ctx: Context)
    ensures EditOf(c, t, lowRisk, ctx).CloseTo? ==> HasStatus(EditOf(c, t, lowRisk, ctx).to, Closed)
  {
  }

  lemma ExecuteKeepsIds(c: Command, tasks: seq<Body>, ctx: Context)
    requires AllTyped(tasks)
    ensures SameIds(tasks, Execute(c, tasks, ctx))
  {
    if !c.ResetStale? {
      var at := FindTask(tasks, c.id);
      if at.Some? {
        var k := at.value;
        var lowRisk := IsLowRisk(c, tasks[k], ctx);
        assert tasks[k] in tasks;
        EditKeepsId(c, tasks[k], lowRisk, ctx);
        EditKeepsTyped(c, tasks[k], lowRisk, ctx);
        ClosesWithClosed(c, tasks[k], lowRisk, ctx);
        var e := EditOf(c, tasks[k], lowRisk, ctx);
        if e.CloseTo? {
          UpdateKeepsTyped(tasks, k, e.to);
          AfterCloseKeepsIds(tasks[k := e.to], k, c.id, ctx.today);
        }
      }
    }
  }

  // ---- Load ----

  /** A gated store is loaded as a gated list with distinct, usable ids. */
  lemma LoadIsGated(d: Disk, tasks: seq<Body>, history: seq<World>)
    requires Wf(d) && StoreGated(d, history) && LoadOf(Abs(d), tasks)
    ensures AllGated(tasks, history) && forall t :: t in tasks ==> Truthy(IdOf(t))
  {
    forall t | t in tasks ensures Gated(t, history) && Truthy(IdOf(t)) {
      var b := Abs(d)[IdOf(t)];
      var p := HolderOf(d, IdOf(t));
      assert d[p].body == b;
      DefaultsKeepGating(b);
      GatedBySame(b, t, history);
    }
  }

  // ---- Save ----

  lemma ListedIds(d: Disk, tasks: seq<Body>, after: seq<Body>, id: Value)
    requires LoadOf(Abs(d), tasks) && SameIds(tasks, after) && id in Abs(d)
    ensures exists k :: 0 <= k < |after| && IdOf(after[k]) == id
  {
    var b := Abs(d)[id];
    assert IdOf(d[HolderOf(d, id)].body) == id;
    DefaultsKeepGating(b);
    assert WithDefaults(b) in tasks;
    var k :| 0 <= k < |tasks| && tasks[k] == WithDefaults(b);
    assert IdOf(after[k]) == id;
  }

  /** One listed ticket, as stored by the save. */
  lemma SavedTicketIsGated(d: Disk, after: seq<Body>, now: Stamp, names: seq<FileName>, history: seq<World>, k: nat)
    requires Wf(d) && |names| == |after| && FreshNames(d, names) && DistinctIds(after)
    requires StoreGated(d, history) && k < |after| && Truthy(IdOf(after[k])) && Gated(after[k], history)
    ensures var e := SaveAll(Abs(d), d, after, now, names);
      Wf(e) && IdOf(after[k]) in Abs(e) && Gated(Abs(e)[IdOf(after[k])], history)
  {
    var t, id := after[k], IdOf(after[k]);
    var e := SaveAll(Abs(d), d, after, now, names);
    SaveStoresTask(Abs(d), d, after, now, names, k);
    if Unchanged(Abs(d), t) {
      assert Abs(d)[id] == d[HolderOf(d, id)].body;
    } else {
      StoredKeepsGating(Abs(e)[id], t, now);
      GatedBySame(t, Abs(e)[id], history);
    }
  }

  /** Saving a gated list over a gated store whose tickets it all lists leaves a gated store. */
  lemma SaveIsGated(d: Disk, tasks: seq<Body>, after: seq<Body>, now: Stamp, names: seq<FileName>, history: seq<World>)
    requires Wf(d) && StoreGated(d, history) && LoadOf(Abs(d), tasks) && SameIds(tasks, after) && AllGated(after, history)
    requires |names| == |after| && FreshNames(d, names)
    requires forall t :: t in tasks ==> Truthy(IdOf(t))
    ensures var e := SaveAll(Abs(d), d, after, now, names); Wf(e) && StoreGated(e, history)
  {
    var e := SaveAll(Abs(d), d, after, now, names);
    SaveAllKeeps(Abs(d), d, after, now, names);
    forall p | p in e ensures Gated(e[p].body, history) {
      var id := IdOf(e[p].body);
      AbsAt(e, p);
      if id !in Abs(d) {
        NothingNew(d, tasks, after, now, names, id);
      }
      ListedIds(d, tasks, after, id);
      var k :| 0 <= k < |after| && IdOf(after[k]) == id;
      assert tasks[k] in tasks && after[k] in after;
      SavedTicketIsGated(d, after, now, names, history, k);
    }
  }

  lemma NothingNew(d: Disk, tasks: seq<Body>, after: seq<Body>, now: Stamp, names: seq<FileName>, id: Value)
    requires Wf(d) && LoadOf(Abs(d), tasks) && SameIds(tasks, after) && |names| == |after| && FreshNames(d, names)
    requires id !in Abs(d)
    ensures id !in Abs(SaveAll(Abs(d), d, after, now, names))
  {
    forall i | 0 <= i < |after| ensures IdOf(after[i]) != id {
      assert tasks[i] in tasks;
    }
    SaveCreatesOnlyListed(Abs(d), d, after, now, names, id);
  }

  // ---- Whole commands, whole runs ----

  /** One command as it reaches the store: the loaded list, in some order, and the surroundings of its execution. */
  datatype Session = Session(command: Command, context: Context, world: World, loaded: seq<Body>, now: Stamp, names: seq<FileName>)

  /** The surroundings a real command runs in, given the disk it finds. */
  ghost predicate Genuine(s: Session, d: Disk) {
    && LoadOf(Abs(d), s.loaded) && Faithful(s.command, s.context, s.world)
    && |s.names| == |s.loaded| && FreshNames(d, s.names)
  }

  lemma SessionIsTyped(s: Session, d: Disk, history: seq<World>)
    requires Wf(d) && StoreGated(d, history) && Genuine(s, d)
    ensures AllTyped(s.loaded) && |Execute(s.command, s.loaded, s.context)| == |s.names|
  {
    LoadIsGated(d, s.loaded, history);
    AllGatedStays(s.loaded, history, s.world);
    CommandKeepsGates(s.command, s.loaded, s.context, history, s.world);
    ExecuteKeepsIds(s.command, s.loaded, s.context);
  }

  /** Load, execute, save; a list the command cannot read leaves the store as it is. */
  ghost function Conduct(s: Session, d: Disk): Disk {
    if AllTyped(s.loaded) && |Execute(s.command, s.loaded, s.context)| == |s.names| then
      SaveAll(Abs(d), d, Execute(s.command, s.loaded, s.context), s.now, s.names)
    else d
  }

  /** A gated command, run alone against a gated store, is carried out and leaves a sound and gated store. */
  lemma SessionKeepsStoreGated(s: Session, d: Disk, history: seq<World>)
    requires Wf(d) && StoreGated(d, history) && Genuine(s, d)
    ensures AllTyped(s.loaded) && |Execute(s.command, s.loaded, s.context)| == |s.names|
    ensures Wf(Conduct(s, d)) && StoreGated(Conduct(s, d), history + [s.world])
  {
    SessionIsTyped(s, d, history);
    LoadIsGated(d, s.loaded, history);
    CommandKeepsGates(s.command, s.loaded, s.context, history, s.world);
    ExecuteKeepsIds(s.command, s.loaded, s.context);
    StoreGatedStays(d, history, s.world);
    SaveIsGated(d, s.loaded, Execute(s.command, s.loaded, s.context), s.now, s.names, history + [s.world]);
  }

  /** ... and carried out it is: up to defaults and time stamps the store then holds every ticket as the command left it. */
  lemma SessionIsCarriedOut(s: Session, d: Disk, history: seq<World>, k: nat)
    requires Wf(d) && StoreGated(d, history) && Genuine(s, d) && k < |s.loaded|
    ensures AllTyped(s.loaded) && |Execute(s.command, s.loaded, s.context)| == |s.loaded|
    ensures
      var t, e := Execute(s.command, s.loaded, s.context)[k], Conduct(s, d);
      IdOf(t) == IdOf(s.loaded[k]) && IdOf(t) in Abs(e)
      && EqIgnoringUpdatedAt(WithDefaults(Abs(e)[IdOf(t)]), WithDefaults(Stamped(t, s.now)))
  {
    SessionIsTyped(s, d, history);
    LoadIsGated(d, s.loaded, history);
    ExecuteKeepsIds(s.command, s.loaded, s.context);
    assert s.loaded[k] in s.loaded;
    StoreEqualsSavedList(Abs(d), d, Execute(s.command, s.loaded, s.context), s.now, s.names, k);
  }

  lemma StoreGatedStays(d: Disk, history: seq<World>, w: World)
    requires StoreGated(d, history)
    ensures StoreGated(d, history + [w])
  {
    forall p | p in d ensures Gated(d[p].body, history + [w]) {
      GatedStays(d[p].body, history, w);
    }
  }

  /** `e` is what the store looks like after the sessions, one after the other. */
  ghost predicate Leads(d: Disk, sessions: seq<Session>, e: Disk)
    decreases |sessions|
  {
    if sessions == [] then e == d
    else Genuine(sessions[0], d) && Leads(Conduct(sessions[0], d), sessions[1..], e)
  }

  ghost function Seen(sessions: seq<Session>): seq<World> {
    seq(|sessions|, i requires 0 <= i < |sessions| => sessions[i].world)
  }

  lemma SeenStep(history: seq<World>, sessions: seq<Session>)
    ensures sessions == [] ==> history + Seen(sessions) == history
    ensures sessions != [] ==> history + [sessions[0].world] + Seen(sessions[1..]) == history + Seen(sessions)
  {
  }

  /** Over every run of whole commands from a sound and gated store, the store stays sound and every file gated. */
  lemma {:induction false} StoreStaysGated(d: Disk, history: seq<World>, sessions: seq<Session>, e: Disk)
    requires Wf(d) && StoreGated(d, history) && Leads(d, sessions, e)
    ensures Wf(e) && StoreGated(e, history + Seen(sessions))
    decreases |sessions|
  {
    SeenStep(history, sessions);
    if sessions != [] {
      SessionKeepsStoreGated(sessions[0], d, history);
      StoreStaysGated(Conduct(sessions[0], d), history + [sessions[0].world], sessions[1..], e);
    }
  }
}
