/**
 Whole histories of queue commands: which of them can reopen a ticket, why a clear
 gate stays clear when none does, and why the order of closes does not matter.
 */
module QueueHistory {
  import opened Tickets
  import opened GateLogic
  import opened Ungating
  import opened QueueCommands
  import opened StoreCommands

  // ---- Runs of commands on the list ----

  lemma UngateKeepsTyped(tasks: seq<Body>, id: string, today: int)
    requires AllTyped(tasks) && GatesAreText(tasks)
    ensures AllTyped(UngateAll(tasks, id, today))
  {
    var ys := UngateAll(tasks, id, today);
    forall i | 0 <= i < |ys| ensures Typed(ys[i]) {
      assert tasks[i] in tasks;
    }
  }

  lemma EditedListIsTyped(c: Command, tasks: seq<Body>, ctx: Context, k: nat)
    requires AllTyped(tasks) && !c.ResetStale? && FindTask(tasks, c.id) == Some(k)
    ensures AllTyped(Execute(c, tasks, ctx))
  {
    var lowRisk := IsLowRisk(c, tasks[k], ctx);
    assert tasks[k] in tasks;
    EditKeepsTyped(c, tasks[k], lowRisk, ctx);
    ClosesWithClosed(c, tasks[k], lowRisk, ctx);
    var e := EditOf(c, tasks[k], lowRisk, ctx);
    if !e.Keep? {
      UpdateKeepsTyped(tasks, k, e.to);
      if e.CloseTo? {
        AfterCloseIsUngating(tasks[k := e.to], k, c.id, ctx.today);
        UngateKeepsTyped(tasks[k := e.to], c.id, ctx.today);
      }
    }
  }

  lemma ExecuteKeepsTyped(c: Command, tasks: seq<Body>, ctx: Context)
    requires AllTyped(tasks)
    ensures AllTyped(Execute(c, tasks, ctx))
  {
    if c.ResetStale? {
      var after := Execute(c, tasks, ctx);
      forall i | 0 <= i < |after| ensures Typed(after[i]) {
        assert tasks[i] in tasks;
      }
    } else if FindTask(tasks, c.id).Some? {
      EditedListIsTyped(c, tasks, ctx, FindTask(tasks, c.id).value);
    }
  }

  ghost function ExecuteAll(tasks: seq<Body>, turns: seq<Turn>): (r: seq<Body>)
    requires AllTyped(tasks)
    ensures AllTyped(r)
    decreases |turns|
  {
    if turns == [] then tasks
    else
      ExecuteKeepsTyped(turns[0].command, tasks, turns[0].context);
      ExecuteAll(Execute(turns[0].command, tasks, turns[0].context), turns[1..])
  }

  // ---- Who can reopen ----

  /** The commands that reopen their own terminal ticket. */
  predicate Reopens(c: Command, t: Body, ctx: Context) {
    match c
    case SetTo(_, status, _) => Settable(status) && !IsTerminal(status) && (status.Sprint? ==> IntentionDeclared(t))
    case Block(_, _) => true
    case MarkForReview(_) => true
    case Submit(_, _, evidence) => !(evidence && IsLowRisk(c, t, ctx))
    case _ => false
  }

  predicate Targets(c: Command, tasks: seq<Body>, i: nat) {
    !c.ResetStale? && FindTask(tasks, c.id) == Some(i)
  }

  lemma OwnTicketReopens(c: Command, t: Body, ctx: Context)
    requires TerminalBody(t) && !c.ResetStale?
    ensures var e := EditOf(c, t, IsLowRisk(c, t, ctx), ctx);
      !e.Keep? ==> (TerminalBody(e.to) <==> !Reopens(c, t, ctx))
    ensures EditOf(c, t, IsLowRisk(c, t, ctx), ctx).Keep? ==> !Reopens(c, t, ctx)
  {
  }

  /** A terminal ticket is reopened by a command exactly when it is the command's own and the command is one of these. */
  lemma ReopenedIff(c: Command, tasks: seq<Body>, ctx: Context, i: nat)
    requires AllTyped(tasks) && i < |tasks| && TerminalBody(tasks[i])
    ensures |Execute(c, tasks, ctx)| == |tasks|
    ensures TerminalBody(Execute(c, tasks, ctx)[i]) <==> !(Targets(c, tasks, i) && Reopens(c, tasks[i], ctx))
  {
    ExecuteKeepsIds(c, tasks, ctx);
    if !c.ResetStale? && FindTask(tasks, c.id).Some? {
      var k := FindTask(tasks, c.id).value;
      if k == i {
        OwnTicketReopens(c, tasks[i], ctx);
      }
      OthersStayTerminal(c, tasks, ctx, k, i);
    }
  }

  /** A command's own edit decides its own ticket; a pass over the dependents reopens nobody. */
  lemma OthersStayTerminal(c: Command, tasks: seq<Body>, ctx: Context, k: nat, i: nat)
    requires AllTyped(tasks) && Targets(c, tasks, k) && i < |tasks|
    ensures |Execute(c, tasks, ctx)| == |tasks|
    ensures var e := EditOf(c, tasks[k], IsLowRisk(c, tasks[k], ctx), ctx);
      TerminalBody(Execute(c, tasks, ctx)[i]) <==> TerminalBody(if i == k && !e.Keep? then e.to else tasks[i])
  {
    var lowRisk := IsLowRisk(c, tasks[k], ctx);
    var e := EditOf(c, tasks[k], lowRisk, ctx);
    assert tasks[k] in tasks;
    EditKeepsTyped(c, tasks[k], lowRisk, ctx);
    ClosesWithClosed(c, tasks[k], lowRisk, ctx);
    if e.CloseTo? {
      UpdateKeepsTyped(tasks, k, e.to);
      AfterCloseIsUngating(tasks[k := e.to], k, c.id, ctx.today);
      PassKeepsDone(tasks[k := e.to], c.id, ctx.today);
    }
  }

  ghost predicate ReopensNothing(c: Command, tasks: seq<Body>, ctx: Context) {
    forall i :: 0 <= i < |tasks| && Targets(c, tasks, i) && TerminalBody(tasks[i]) ==> !Reopens(c, tasks[i], ctx)
  }

  // ---- A clear gate stays clear ----

  ghost predicate StillDone(xs: seq<Body>, ys: seq<Body>) {
    SameIds(xs, ys) && forall i :: 0 <= i < |xs| && TerminalBody(xs[i]) ==> TerminalBody(ys[i])
  }

  lemma {:induction false} StillDoneIds(xs: seq<Body>, ys: seq<Body>, tid: string)
    requires StillDone(xs, ys)
    ensures IdDone(xs, tid) ==> IdDone(ys, tid)
  {
    if xs != [] {
      var n := |xs| - 1;
      StillDoneIds(xs[..n], ys[..n], tid);
    }
  }

  lemma CommandKeepsDone(c: Command, tasks: seq<Body>, ctx: Context)
    requires AllTyped(tasks) && ReopensNothing(c, tasks, ctx)
    ensures StillDone(tasks, Execute(c, tasks, ctx))
  {
    ExecuteKeepsIds(c, tasks, ctx);
    forall i | 0 <= i < |tasks| && TerminalBody(tasks[i]) ensures TerminalBody(Execute(c, tasks, ctx)[i]) {
      ReopenedIff(c, tasks, ctx, i);
    }
  }

  ghost predicate NeverReopens(tasks: seq<Body>, turns: seq<Turn>)
    requires AllTyped(tasks)
    decreases |turns|
  {
    turns == [] ||
    (ExecuteKeepsTyped(turns[0].command, tasks, turns[0].context);
     ReopensNothing(turns[0].command, tasks, turns[0].context)
     && NeverReopens(Execute(turns[0].command, tasks, turns[0].context), turns[1..]))
  }

  /**
   Over any run of commands none of which reopens a terminal ticket, and with the calendar not running backwards, a gate
   that was clear is still clear at the end.
   */
  lemma {:induction false} GateStaysClearOverCommands(gate: Value, tasks: seq<Body>, turns: seq<Turn>, day: int, later: int)
    requires gate.Null? || gate.Text?
    requires AllTyped(tasks) && NeverReopens(tasks, turns) && day <= later && GateClear(gate, tasks, day)
    ensures GateClear(gate, ExecuteAll(tasks, turns), later)
    decreases |turns|
  {
    if turns != [] {
      var c, ctx := turns[0].command, turns[0].context;
      ExecuteKeepsTyped(c, tasks, ctx);
      CommandKeepsDone(c, tasks, ctx);
      forall tid ensures IdDone(tasks, tid) ==> IdDone(Execute(c, tasks, ctx), tid) {
        StillDoneIds(tasks, Execute(c, tasks, ctx), tid);
      }
      GateStaysClearOverCommands(gate, Execute(c, tasks, ctx), turns[1..], day, later);
    }
  }

  lemma IdsStayUnique(xs: seq<Body>, ys: seq<Body>)
    requires SameIds(xs, ys) && UniqueIds(xs)
    ensures UniqueIds(ys)
  {
  }

  /** And a command that does reopen its ticket takes the gate on that ticket away from clear. */
  lemma ReopeningUnclearsItsGate(c: Command, tasks: seq<Body>, ctx: Context, k: nat, today: int)
    requires AllTyped(tasks) && UniqueIds(tasks) && Targets(c, tasks, k) && TerminalBody(tasks[k]) && Reopens(c, tasks[k], ctx)
    requires WellFormedId(c.id)
    ensures !GateClear(Text(c.id), Execute(c, tasks, ctx), today)
  {
    var after := Execute(c, tasks, ctx);
    ExecuteKeepsIds(c, tasks, ctx);
    IdsStayUnique(tasks, after);
    ReopenedIff(c, tasks, ctx, k);
    IdDoneByMember(after, c.id);
    forall t | t in after && IdOf(t) == Text(c.id) ensures t == after[k] {
      var i :| 0 <= i < |after| && after[i] == t;
      assert IdOf(after[i]) == IdOf(after[k]);
    }
    assert Spaced([c.id]) == c.id;
    PrintedGateClear([c.id], after, today);
    assert c.id in [c.id];
  }

  // ---- The order of close commands ----

  /** One `close`, with its own result, reason and surroundings. */
  datatype CloseCall = CloseCall(id: string, result: string, reason: Option<string>, ctx: Context)

  predicate Passes(call: CloseCall) {
    ProofGate(call.reason, call.ctx.proof).Allowed?
  }

  ghost function RunClose(call: CloseCall, tasks: seq<Body>): seq<Body>
    requires AllTyped(tasks)
  {
    Execute(CloseWith(call.id, call.result, call.reason), tasks, call.ctx)
  }

  ghost function RunCloses(tasks: seq<Body>, calls: seq<CloseCall>): (r: seq<Body>)
    requires AllTyped(tasks)
    ensures AllTyped(r) && SameIds(tasks, r)
  {
    if calls == [] then tasks
    else
      var n := |calls| - 1;
      var before := RunCloses(tasks, calls[..n]);
      var c := CloseWith(calls[n].id, calls[n].result, calls[n].reason);
      ExecuteKeepsTyped(c, before, calls[n].ctx);
      ExecuteKeepsIds(c, before, calls[n].ctx);
      RunClose(calls[n], before)
  }

  function ClosingOf(call: CloseCall): Closing
    requires Passes(call)
  {
    Closing(call.id, CloseStamp(ProofGate(call.reason, call.ctx.proof).notes, call.result, call.ctx.now))
  }

  /** The closes that pass the gate, in order. */
  function Closings(calls: seq<CloseCall>): seq<Closing> {
    if calls == [] then []
    else
      var n := |calls| - 1;
      Closings(calls[..n]) + if Passes(calls[n]) then [ClosingOf(calls[n])] else []
  }

  lemma {:induction false} ClosingsClose(calls: seq<CloseCall>)
    ensures AllClose(Closings(calls))
  {
    if calls != [] {
      var n := |calls| - 1;
      ClosingsClose(calls[..n]);
      if Passes(calls[n]) {
        CloseStampCloses(ProofGate(calls[n].reason, calls[n].ctx.proof).notes, calls[n].result, calls[n].ctx.now);
      }
    }
  }

  lemma OneCall(call: CloseCall, tasks: seq<Body>, today: int)
    requires AllTyped(tasks) && UniqueIds(tasks) && call.ctx.today == today
    ensures GatesAreText(tasks)
    ensures !Passes(call) ==> RunClose(call, tasks) == tasks
    ensures Passes(call) ==> Closes(ClosingOf(call).stamp) && RunClose(call, tasks) == CloseOne(tasks, ClosingOf(call), today)
  {
    TypedGates(tasks);
    var at := FindTask(tasks, call.id);
    if Passes(call) {
      CloseStampCloses(ProofGate(call.reason, call.ctx.proof).notes, call.result, call.ctx.now);
      if at.Some? {
        CloseCommandIsClosingStep(tasks, call.id, call.result, call.reason, call.ctx, at.value);
      } else {
        assert !Known(tasks, call.id);
      }
    }
  }

  lemma TypedGates(tasks: seq<Body>)
    requires AllTyped(tasks)
    ensures GatesAreText(tasks)
  {
  }

  lemma CloseAllStep(tasks: seq<Body>, order: seq<Closing>, c: Closing, today: int)
    requires GatesAreText(tasks) && AllClose(order) && Closes(c.stamp)
    ensures AllClose(order + [c]) && CloseAll(tasks, order + [c], today) == CloseOne(CloseAll(tasks, order, today), c, today)
  {
    assert (order + [c])[..|order|] == order;
  }

  /** A sequence of close commands on one day is the sequence of closing steps of those that pass the gate. */
  lemma {:induction false} CloseCallsAreClosings(tasks: seq<Body>, calls: seq<CloseCall>, today: int)
    requires AllTyped(tasks) && UniqueIds(tasks) && forall i :: 0 <= i < |calls| ==> calls[i].ctx.today == today
    ensures GatesAreText(tasks) && AllClose(Closings(calls))
    ensures RunCloses(tasks, calls) == CloseAll(tasks, Closings(calls), today)
  {
    TypedGates(tasks);
    ClosingsClose(calls);
    if calls != [] {
      var n := |calls| - 1;
      CloseCallsAreClosings(tasks, calls[..n], today);
      var before := RunCloses(tasks, calls[..n]);
      IdsStayUnique(tasks, before);
      OneCall(calls[n], before, today);
      if Passes(calls[n]) {
        CloseAllStep(tasks, Closings(calls[..n]), ClosingOf(calls[n]), today);
      } else {
        assert Closings(calls[..n]) + [] == Closings(calls[..n]);
      }
    }
  }

  /**
   Two sequences of close commands on one day that close the same tickets, in any order and with any results, proofs and
   reasons, leave every other ticket the same: as the closed form of `Ungating` says.
   */
  lemma CloseCommandsAreConfluent(tasks: seq<Body>, a: seq<CloseCall>, b: seq<CloseCall>, today: int, i: nat)
    requires AllTyped(tasks) && UniqueIds(tasks) && i < |tasks|
    requires forall j :: 0 <= j < |a| ==> a[j].ctx.today == today
    requires forall j :: 0 <= j < |b| ==> b[j].ctx.today == today
    requires Members(Closings(a)) == Members(Closings(b)) && !IsOneOf(tasks[i], Members(Closings(a)))
    ensures GateIsText(tasks[i])
    ensures RunCloses(tasks, a)[i] == RunCloses(tasks, b)[i] == AtEnd(tasks[i], tasks, Members(Closings(a)), today)
  {
    CloseCallsAreClosings(tasks, a, today);
    CloseCallsAreClosings(tasks, b, today);
    ClosingHasClosedForm(tasks, Closings(a), today, i);
    ClosingHasClosedForm(tasks, Closings(b), today, i);
  }
}
