/**
 The queue's commands, each one load, edit and save of the ticket list, with a
 gate on the way in (`sprint` needs a declared intention) and a gate on the way
 out (`closed` needs an accepted proof or an explicit reason for having none).
 */
module QueueCommands {
  import opened Tickets
  import opened TextLines
  import opened GateLogic
  import opened Ungating
  import opened Claims
  import opened ProofStore

  // ---- The exit gate ----

  datatype GateAnswer = Allowed(notes: Body) | Refused

  /** `_proof_gate`, given the proof the store would pick. */
  function ProofGate(reason: Option<string>, proof: Option<Proof>): GateAnswer {
    if reason.Some? then
      var named := Strip(reason.value, IsSpace);
      if named == "" then Refused
      else Allowed(map[KeyProven := Flag(false), KeyUnprovenReason := Text(named)])
    else if proof.None? then Refused
    else
      Allowed(map[
        KeyProven := Flag(true),
        KeyProofId := Text(proof.value.id),
        KeyProofCommit := if proof.value.commit == "" then Null else Text(proof.value.commit)
      ])
  }

  // ---- Commands ----

  datatype Command =
    | SetTo(id: string, status: Status, reason: Option<string>)
    | Reset(id: string)
    | ResetStale
    | Ungate(id: string)
    | Gate(id: string, gate: string)
    | Block(id: string, why: string)
    | MarkForReview(id: string)
    | CloseWith(id: string, result: string, reason: Option<string>)
    | Submit(id: string, result: string, evidence: bool)
    | Reconcile(id: string)
    | Claim(id: string)

  /** What a command reads from outside the queue: the proof the gate would find, the clock and the calendar. */
  datatype Context = Context(proof: Option<Proof>, now: Stamp, today: int)

  /** Statuses the command line accepts, minus the deprecated ones. */
  predicate Settable(s: Status) {
    !(s.Approval? || s.AwaitingApproval? || s.Assigned? || s.Discarded? || s.Unlisted?)
  }

  function FindTask(tasks: seq<Body>, id: string): (k: Option<nat>)
    ensures k.Some? ==> k.value < |tasks| && IdOf(tasks[k.value]) == Text(id)
    ensures k.Some? ==> forall j :: 0 <= j < k.value ==> IdOf(tasks[j]) != Text(id)
    ensures k.None? ==> forall t :: t in tasks ==> IdOf(t) != Text(id)
  {
    if tasks == [] then None
    else if IdOf(tasks[0]) == Text(id) then Some(0)
    else
      var k := FindTask(tasks[1..], id);
      assert tasks == [tasks[0]] + tasks[1..];
      if k.None? then None else Some(k.value + 1)
  }

  predicate Typed(t: Body) {
    GateIsText(t) && (Get(t, KeyDecisionId).Null? || Get(t, KeyDecisionId).Text?)
  }

  ghost predicate AllTyped(tasks: seq<Body>) {
    forall t :: t in tasks ==> Typed(t)
  }

  function SetOne(t: Body, status: Status, reason: Option<string>, ctx: Context): Option<Body> {
    if status.Closed? && !HasStatus(t, Closed) then
      var answer := ProofGate(reason, ctx.proof);
      if answer.Refused? then None else Some((t + answer.notes)[KeyStatus := Stat(Closed)])
    else if status.Sprint? && !HasStatus(t, Sprint) && !IntentionDeclared(t) then None
    else Some(t[KeyStatus := Stat(status)])
  }

  function ResetOne(t: Body): Body {
    if TerminalBody(t) then t
    else if !IntentionDeclared(t) then Divert(t)
    else t[KeyStatus := Stat(Sprint)][KeyDispatchedAt := Null][KeyBlockedAt := Null]
  }

  function ResetStaleOne(t: Body): Body {
    if !HasStatus(t, InProgress) then t
    else if !IntentionDeclared(t) then Divert(t)
    else t[KeyStatus := Stat(Sprint)][KeyDispatchedAt := Null]
  }

  function ResetAll(tasks: seq<Body>): (r: seq<Body>)
    ensures |r| == |tasks| && forall i :: 0 <= i < |r| ==> r[i] == ResetStaleOne(tasks[i])
  {
    seq(|tasks|, i requires 0 <= i < |tasks| => ResetStaleOne(tasks[i]))
  }

  function CloseOneBody(t: Body, result: string, reason: Option<string>, ctx: Context): Option<Body> {
    var answer := ProofGate(reason, ctx.proof);
    if answer.Refused? then None
    else Some((t + answer.notes)[KeyStatus := Stat(Closed)][KeyResult := Text(result)][KeyCompletedAt := Text(ctx.now)])
  }

  // Automatic validation of low-risk work

  const AUTO_REASON: string := 
    "auto-validated (igor S/M): " + "proof-on-close not yet wired into the auto-validate path"
  const HIGH_INERTIA: seq<string> := ["brainstem/", "memory/models.py", "cognition/reasoners/base.py"]

  function TextOr(v: Value): string {
    if v.Text? then v.text else ""
  }

  predicate LowRisk(t: Body) {
    var desc, result := Lower(TextOr(Get(t, KeyDescription))), Lower(TextOr(Get(t, KeyResult)));
    && (Get(t, KeySize) == Text("S") || Get(t, KeySize) == Text("M"))
    && (forall p :: p in HIGH_INERTIA ==> !Contains(desc, p))
    && !Contains(result, "fail") && !Contains(result, "scope_guard") && !Contains(result, "skipped")
    && Get(t, KeyWorker) == Text("igor")
  }

  function Submitted(t: Body, result: string, ctx: Context): Body {
    t[KeyStatus := Stat(AwaitingValidation)][KeyResult := Text(result)][KeyCompletedAt := Text(ctx.now)]
  }

  function AutoValidated(t: Body, ctx: Context): Body {
    var answer := ProofGate(None, ctx.proof);
    var answer := if answer.Refused? then ProofGate(Some(AUTO_REASON), ctx.proof) else answer;
    (if answer.Allowed? then t + answer.notes else t)[KeyStatus := Stat(Closed)][KeyAutoValidated := Flag(true)]
  }

  /** After a ticket at `k` became `closed`: the decision rollup, then the release of its dependents. */
  function AfterClose(tasks: seq<Body>, k: nat, id: string, today: int): seq<Body>
    requires k < |tasks| && AllTyped(tasks)
  {
    TypedParts(tasks, tasks[k]);
    var rolled := DecisionRollup(tasks, Get(tasks[k], KeyDecisionId));
    RollupKeepsTyped(tasks, Get(tasks[k], KeyDecisionId));
    UngateAll(rolled, id, today)
  }

  lemma TypedParts(tasks: seq<Body>, t: Body)
    requires AllTyped(tasks) && t in tasks
    ensures GatesAreText(tasks) && Typed(t)
  {
  }

  lemma RollupKeepsTyped(tasks: seq<Body>, decision: Value)
    requires AllTyped(tasks) && GatesAreText(tasks) && (decision.Null? || decision.Text?)
    ensures AllTyped(DecisionRollup(tasks, decision)) && GatesAreText(DecisionRollup(tasks, decision))
  {
    var rolled := DecisionRollup(tasks, decision);
    forall i | 0 <= i < |rolled| ensures Typed(rolled[i]) {
      assert tasks[i] in tasks;
    }
  }

  lemma UpdateKeepsTyped(tasks: seq<Body>, k: nat, t: Body)
    requires AllTyped(tasks) && k < |tasks| && Typed(t)
    ensures AllTyped(tasks[k := t])
  {
    forall b | b in tasks[k := t] ensures Typed(b) {
      assert b in tasks || b == t;
    }
  }

  /** What a command does to its own ticket: nothing, an edit, or a close (which also releases dependents). */
  datatype Edit = Keep | Change(to: Body) | CloseTo(to: Body)

  function EditOf(c: Command, t: Body, lowRisk: bool, ctx: Context): Edit {
    match c
    case SetTo(_, status, reason) =>
      var edited := SetOne(t, status, reason, ctx);
      if Settable(status) && edited.Some? then Change(edited.value) else Keep
    case Reset(_) => Change(ResetOne(t))
    case ResetStale => Change(ResetStaleOne(t))
    case Ungate(_) => Change(FlipUngated(t[KeyGate := Null]))
    case Gate(_, gate) => Change(t[KeyGate := Text(gate)])
    case Block(_, why) => Change(t[KeyStatus := Stat(Hold)][KeyResult := Text(why)][KeyBlockedAt := Text(ctx.now)])
    case MarkForReview(_) => Change(t[KeyStatus := Stat(Triage)])
    case CloseWith(_, result, reason) =>
      var closed := CloseOneBody(t, result, reason, ctx);
      if closed.None? then Keep else CloseTo(closed.value)
    case Submit(_, result, evidence) =>
      var submitted := Submitted(t, result, ctx);
      if evidence && lowRisk then CloseTo(AutoValidated(submitted, ctx)) else Change(submitted)
    case Reconcile(_) => if HasStatus(t, InProgress) then Change(ReleaseBody(t)) else Keep
    case Claim(_) => if HasStatus(t, Sprint) then Change(ClaimBody(t, Some(ctx.now))) else Keep
  }

  lemma EditKeepsTyped(c: Command, t: Body, lowRisk: bool, ctx: Context)
    requires Typed(t)
    ensures !EditOf(c, t, lowRisk, ctx).Keep? ==> Typed(EditOf(c, t, lowRisk, ctx).to)
  {
  }

  /** Low risk is judged on the ticket as submitted. */
  function IsLowRisk(c: Command, t: Body, ctx: Context): bool {
    c.Submit? && LowRisk(Submitted(t, c.result, ctx))
  }

  /** The list a command saves; a refused command saves the list it loaded. */
  function Execute(c: Command, tasks: seq<Body>, ctx: Context): seq<Body>
    requires AllTyped(tasks)
  {
    if c.ResetStale? then ResetAll(tasks)
    else
      var at := FindTask(tasks, c.id);
      if at.None? then tasks
      else
        var k := at.value;
        var lowRisk := IsLowRisk(c, tasks[k], ctx);
        match EditOf(c, tasks[k], lowRisk, ctx)
        case Keep => tasks
        case Change(u) => tasks[k := u]
        case CloseTo(u) =>
          EditKeepsTyped(c, tasks[k], lowRisk, ctx);
          UpdateKeepsTyped(tasks, k, u);
          AfterClose(tasks[k := u], k, c.id, ctx.today)
  }

  // ---- The two invariants ----

  /** The outside world when a command ran: the proofs on file and the commit graph at its HEAD. */
  datatype World = World(proofs: seq<Proof>, graph: Graph, head: Commit)

  ghost predicate ProofWasAccepted(t: Body, history: seq<World>) {
    exists k :: 0 <= k < |history| && AcceptedIn(t, history[k])
  }

  ghost predicate AcceptedIn(t: Body, w: World) {
    w.head in w.graph && IdOf(t).Text?
    && exists p :: p in w.proofs && IdOf(t).text in p.tickets && Validate(w.graph, w.head, p).Accepted?
                   && Get(t, KeyProofId) == Text(p.id)
  }

  /** Closed in one of the two honest ways. */
  ghost predicate ClosedHonestly(t: Body, history: seq<World>) {
    || (Get(t, KeyProven) == Flag(true) && ProofWasAccepted(t, history))
    || (Get(t, KeyProven) == Flag(false) && Get(t, KeyUnprovenReason).Text?
        && Strip(Get(t, KeyUnprovenReason).text, IsSpace) != "")
  }

  ghost predicate Gated(t: Body, history: seq<World>) {
    && Typed(t)
    && (HasStatus(t, Sprint) ==> IntentionDeclared(t))
    && (HasStatus(t, Closed) ==> ClosedHonestly(t, history))
  }

  ghost predicate AllGated(tasks: seq<Body>, history: seq<World>) {
    forall t :: t in tasks ==> Gated(t, history)
  }

  /** The context's proof is the one the store would pick for the command's ticket in this world. */
  ghost predicate Faithful(c: Command, ctx: Context, w: World) {
    && w.head in w.graph
    && (!c.ResetStale? ==> ctx.proof == BestProof(w.proofs, c.id, w.graph, w.head))
  }

  lemma {:induction false} TrimIsTrimmed(s: string, drop: char -> bool)
    ensures Strip(Strip(s, drop), drop) == Strip(s, drop)
  {
    var l := StripLeft(s, drop);
    StripLeftClean(s, drop);
    StripRightClean(l, drop);
    StripRightHead(l, drop);
  }

  lemma {:induction false} StripLeftClean(s: string, drop: char -> bool)
    ensures StripLeft(s, drop) == "" || !drop(StripLeft(s, drop)[0])
  {
    if s != "" && drop(s[0]) {
      StripLeftClean(s[1..], drop);
    }
  }

  lemma {:induction false} StripRightClean(s: string, drop: char -> bool)
    ensures StripRight(s, drop) == "" || !drop(StripRight(s, drop)[|StripRight(s, drop)| - 1])
  {
    if s != "" && drop(s[|s| - 1]) {
      StripRightClean(s[..|s| - 1], drop);
    }
  }

  lemma {:induction false} StripRightHead(s: string, drop: char -> bool)
    ensures StripRight(s, drop) <= s
  {
    if s != "" && drop(s[|s| - 1]) {
      StripRightHead(s[..|s| - 1], drop);
    }
  }

  lemma BestIsAccepted(u: Body, id: string, p: Proof, w: World)
    requires w.head in w.graph && BestProof(w.proofs, id, w.graph, w.head) == Some(p)
    requires IdOf(u) == Text(id) && Get(u, KeyProofId) == Text(p.id)
    ensures AcceptedIn(u, w)
  {
    FirstAcceptedIsAccepted(LinkedTo(w.proofs, id), q => Validate(w.graph, w.head, q));
    LinkedIff(w.proofs, id, p);
  }

  /** Passing the exit gate leaves an honest close behind, whatever the ticket carried before. */
  lemma ProofGateIsHonest(t: Body, id: string, reason: Option<string>, ctx: Context, w: World, history: seq<World>)
    requires IdOf(t) == Text(id) && w.head in w.graph && ctx.proof == BestProof(w.proofs, id, w.graph, w.head)
    ensures ProofGate(reason, ctx.proof).Allowed? ==>
      ClosedHonestly(t + ProofGate(reason, ctx.proof).notes, history + [w])
  {
    var answer := ProofGate(reason, ctx.proof);
    if answer.Allowed? {
      var u := t + answer.notes;
      if reason.Some? {
        TrimIsTrimmed(reason.value, IsSpace);
      } else {
        BestIsAccepted(u, id, ctx.proof.value, w);
        assert AcceptedIn(u, (history + [w])[|history|]);
      }
    }
  }

  /** Honesty looks only at the id, the proof fields and the history, which only grows. */
  lemma HonestyKept(t: Body, u: Body, history: seq<World>, w: World)
    requires ClosedHonestly(t, history) && IdOf(u) == IdOf(t) && Get(u, KeyProven) == Get(t, KeyProven)
    requires Get(u, KeyProofId) == Get(t, KeyProofId) && Get(u, KeyUnprovenReason) == Get(t, KeyUnprovenReason)
    ensures ClosedHonestly(u, history + [w])
  {
    if Get(t, KeyProven) == Flag(true) {
      var k :| 0 <= k < |history| && AcceptedIn(t, history[k]);
      assert (history + [w])[k] == history[k];
      assert AcceptedIn(u, (history + [w])[k]);
    }
  }

  lemma GatedStays(t: Body, history: seq<World>, w: World)
    requires Gated(t, history)
    ensures Gated(t, history + [w])
  {
    if HasStatus(t, Closed) {
      HonestyKept(t, t, history, w);
    }
  }

  lemma AllGatedStays(tasks: seq<Body>, history: seq<World>, w: World)
    requires AllGated(tasks, history)
    ensures AllGated(tasks, history + [w])
  {
    forall t | t in tasks ensures Gated(t, history + [w]) {
      GatedStays(t, history, w);
    }
  }

  lemma UpdateKeepsGated(tasks: seq<Body>, k: nat, t: Body, history: seq<World>)
    requires AllGated(tasks, history) && k < |tasks| && Gated(t, history)
    ensures AllGated(tasks[k := t], history)
  {
    forall b | b in tasks[k := t] ensures Gated(b, history) {
      assert b in tasks || b == t;
    }
  }

  /** Every one-ticket edit a command makes, apart from closing, keeps the ticket gated. */
  lemma EditKeepsGated(t: Body, u: Body, history: seq<World>, w: World)
    requires Gated(t, history) && Typed(u)
    requires IdOf(u) == IdOf(t) && Get(u, KeyIntention) == Get(t, KeyIntention)
    requires Get(u, KeyProven) == Get(t, KeyProven) && Get(u, KeyProofId) == Get(t, KeyProofId)
    requires Get(u, KeyUnprovenReason) == Get(t, KeyUnprovenReason)
    requires HasStatus(u, Sprint) ==> HasStatus(t, Sprint) || IntentionDeclared(t)
    requires HasStatus(u, Closed) ==> HasStatus(t, Closed)
    ensures Gated(u, history + [w])
  {
    if HasStatus(u, Closed) {
      HonestyKept(t, u, history, w);
    }
  }

  lemma AfterCloseKeepsGated(tasks: seq<Body>, k: nat, id: string, today: int, history: seq<World>)
    requires AllGated(tasks, history) && k < |tasks| && HasStatus(tasks[k], Closed)
    ensures AllTyped(tasks) && AllGated(AfterClose(tasks, k, id, today), history)
  {
    TypedParts(tasks, tasks[k]);
    RollupAfterCloseIsIdentity(tasks, k);
    var after := AfterClose(tasks, k, id, today);
    assert after == UngateAll(tasks, id, today);
    UngatingKeepsGated(tasks, id, today, history);
  }

  lemma UngatingKeepsGated(tasks: seq<Body>, id: string, today: int, history: seq<World>)
    requires AllGated(tasks, history) && GatesAreText(tasks)
    ensures AllGated(UngateAll(tasks, id, today), history)
  {
    var after := UngateAll(tasks, id, today);
    forall i | 0 <= i < |after| ensures Gated(after[i], history) {
      assert tasks[i] in tasks;
      FlipKeepsDone(tasks[i]);
    }
  }

  /** A body that took the gate's notes and then `closed` (and nothing the invariants read) is gated. */
  lemma ClosedBodyGated(t: Body, u: Body, id: string, reason: Option<string>, ctx: Context, w: World, history: seq<World>)
    requires Typed(t) && Typed(u) && IdOf(t) == Text(id)
    requires w.head in w.graph && ctx.proof == BestProof(w.proofs, id, w.graph, w.head)
    requires ProofGate(reason, ctx.proof).Allowed? && HasStatus(u, Closed)
    requires var s := t + ProofGate(reason, ctx.proof).notes;
      IdOf(u) == IdOf(s) && Get(u, KeyProven) == Get(s, KeyProven) && Get(u, KeyProofId) == Get(s, KeyProofId)
      && Get(u, KeyUnprovenReason) == Get(s, KeyUnprovenReason)
    ensures Gated(u, history + [w])
  {
    ProofGateIsHonest(t, id, reason, ctx, w, history);
    var s := t + ProofGate(reason, ctx.proof).notes;
    if Get(s, KeyProven) == Flag(true) {
      var k :| 0 <= k < |history + [w]| && AcceptedIn(s, (history + [w])[k]);
      assert AcceptedIn(u, (history + [w])[k]);
    }
  }

  lemma AutoReasonIsNamed()
    ensures Strip(AUTO_REASON, IsSpace) != ""
  {
    assert AUTO_REASON[0] == "auto-validated (igor S/M): "[0] == 'a';
    assert StripLeft(AUTO_REASON, IsSpace) == AUTO_REASON;
    SolidIsNotBlank(AUTO_REASON, IsSpace);
  }

  lemma {:induction false} SolidIsNotBlank(s: string, drop: char -> bool)
    requires s != "" && !drop(s[0])
    ensures StripRight(s, drop) != ""
  {
    if drop(s[|s| - 1]) {
      SolidIsNotBlank(s[..|s| - 1], drop);
    }
  }

  /** The commands that never close: what they write is an ordinary edit. */
  lemma PlainEditIsGated(c: Command, t: Body, lowRisk: bool, ctx: Context, history: seq<World>, w: World)
    requires Gated(t, history) && !c.SetTo? && !c.CloseWith? && !c.Submit?
    ensures var e := EditOf(c, t, lowRisk, ctx); !e.CloseTo? && (e.Change? ==> Gated(e.to, history + [w]))
  {
    EditKeepsTyped(c, t, lowRisk, ctx);
    PlainEditKeepsFields(c, t, lowRisk, ctx);
    var e := EditOf(c, t, lowRisk, ctx);
    if e.Change? {
      EditKeepsGated(t, e.to, history, w);
    }
  }

  lemma PlainEditKeepsFields(c: Command, t: Body, lowRisk: bool, ctx: Context)
    requires !c.SetTo? && !c.CloseWith? && !c.Submit?
    ensures var e := EditOf(c, t, lowRisk, ctx);
      && !e.CloseTo?
      && (e.Change? ==>
            && IdOf(e.to) == IdOf(t) && Get(e.to, KeyIntention) == Get(t, KeyIntention)
            && Get(e.to, KeyProven) == Get(t, KeyProven) && Get(e.to, KeyProofId) == Get(t, KeyProofId)
            && Get(e.to, KeyUnprovenReason) == Get(t, KeyUnprovenReason)
            && (HasStatus(e.to, Sprint) ==> HasStatus(t, Sprint) || IntentionDeclared(t))
            && (HasStatus(e.to, Closed) ==> HasStatus(t, Closed)))
  {
  }

  /** Automatic validation closes honestly: with the proof the gate finds, or with its own named reason. */
  lemma AutoCloseIsGated(t: Body, id: string, ctx: Context, w: World, history: seq<World>)
    requires Typed(t) && IdOf(t) == Text(id)
    requires w.head in w.graph && ctx.proof == BestProof(w.proofs, id, w.graph, w.head)
    ensures HasStatus(AutoValidated(t, ctx), Closed) && Gated(AutoValidated(t, ctx), history + [w])
  {
    AutoReasonIsNamed();
    var reason := if ProofGate(None, ctx.proof).Refused? then Some(AUTO_REASON) else None;
    ClosedBodyGated(t, AutoValidated(t, ctx), id, reason, ctx, w, history);
  }

  lemma SubmitIsGated(c: Command, t: Body, lowRisk: bool, ctx: Context, history: seq<World>, w: World)
    requires Gated(t, history) && Faithful(c, ctx, w) && c.Submit? && IdOf(t) == Text(c.id)
    ensures var e := EditOf(c, t, lowRisk, ctx);
      !e.Keep? && Gated(e.to, history + [w]) && (e.CloseTo? ==> HasStatus(e.to, Closed))
  {
    EditKeepsTyped(c, t, lowRisk, ctx);
    var e := EditOf(c, t, lowRisk, ctx);
    if e.CloseTo? {
      AutoCloseIsGated(Submitted(t, c.result, ctx), c.id, ctx, w, history);
    } else {
      EditKeepsGated(t, e.to, history, w);
    }
  }

  /** A command's own ticket: gated before, gated after. */
  lemma EditIsGated(c: Command, t: Body, lowRisk: bool, ctx: Context, history: seq<World>, w: World)
    requires Gated(t, history) && Faithful(c, ctx, w) && !c.ResetStale? && IdOf(t) == Text(c.id)
    ensures var e := EditOf(c, t, lowRisk, ctx);
      && (!e.Keep? ==> Gated(e.to, history + [w]))
      && (e.CloseTo? ==> HasStatus(e.to, Closed))
  {
    if c.Submit? {
      SubmitIsGated(c, t, lowRisk, ctx, history, w);
    } else if c.SetTo? || c.CloseWith? {
      EditKeepsTyped(c, t, lowRisk, ctx);
      var e := EditOf(c, t, lowRisk, ctx);
      if c.CloseWith? || (c.status.Closed? && !HasStatus(t, Closed)) {
        if !e.Keep? {
          ClosedBodyGated(t, e.to, c.id, c.reason, ctx, w, history);
        }
      } else if e.Change? {
        EditKeepsGated(t, e.to, history, w);
      }
    } else {
      PlainEditIsGated(c, t, lowRisk, ctx, history, w);
    }
  }

  lemma OneTicketCommand(c: Command, tasks: seq<Body>, ctx: Context, history: seq<World>, w: World, k: nat)
    requires AllGated(tasks, history) && Faithful(c, ctx, w) && !c.ResetStale?
    requires FindTask(tasks, c.id) == Some(k) && AllTyped(tasks)
    ensures AllGated(Execute(c, tasks, ctx), history + [w])
  {
    var h := history + [w];
    assert tasks[k] in tasks;
    AllGatedStays(tasks, history, w);
    var lowRisk := IsLowRisk(c, tasks[k], ctx);
    EditIsGated(c, tasks[k], lowRisk, ctx, history, w);
    match EditOf(c, tasks[k], lowRisk, ctx)
    case Keep =>
    case Change(u) => UpdateKeepsGated(tasks, k, u, h);
    case CloseTo(u) =>
      UpdateKeepsGated(tasks, k, u, h);
      AfterCloseKeepsGated(tasks[k := u], k, c.id, ctx.today, h);
  }

  /** Every gated command keeps both invariants on every ticket. */
  lemma CommandKeepsGates(c: Command, tasks: seq<Body>, ctx: Context, history: seq<World>, w: World)
    requires AllGated(tasks, history) && Faithful(c, ctx, w)
    ensures AllTyped(tasks) && AllGated(Execute(c, tasks, ctx), history + [w])
  {
    AllGatedStays(tasks, history, w);
    if c.ResetStale? {
      var after := Execute(c, tasks, ctx);
      forall i | 0 <= i < |after| ensures Gated(after[i], history + [w]) {
        assert tasks[i] in tasks;
        EditKeepsGated(tasks[i], after[i], history, w);
      }
    } else {
      var at := FindTask(tasks, c.id);
      if at.Some? {
        OneTicketCommand(c, tasks, ctx, history, w, at.value);
      }
    }
  }

  datatype Turn = Turn(command: Command, context: Context, world: World)

  ghost predicate FaithfulRun(turns: seq<Turn>) {
    forall i :: 0 <= i < |turns| ==> Faithful(turns[i].command, turns[i].context, turns[i].world)
  }

  ghost function Worlds(turns: seq<Turn>): seq<World> {
    seq(|turns|, i requires 0 <= i < |turns| => turns[i].world)
  }

  /** Over every run of gated commands, in worlds that change freely between them, both gates hold throughout. */
  lemma {:induction false} GatesHoldOverEveryRun(tasks: seq<Body>, history: seq<World>, turns: seq<Turn>) returns (final: seq<Body>)
    requires AllGated(tasks, history) && FaithfulRun(turns)
    ensures Reaches(tasks, turns, final) && AllGated(final, history + Worlds(turns))
    decreases |turns|
  {
    if turns == [] {
      final := tasks;
      assert history + Worlds(turns) == history;
    } else {
      var first := turns[0];
      CommandKeepsGates(first.command, tasks, first.context, history, first.world);
      var rest := turns[1..];
      final := GatesHoldOverEveryRun(Execute(first.command, tasks, first.context), history + [first.world], rest);
      assert history + [first.world] + Worlds(rest) == history + Worlds(turns);
    }
  }

  ghost predicate Reaches(tasks: seq<Body>, turns: seq<Turn>, final: seq<Body>)
    decreases |turns|
  {
    if turns == [] then final == tasks
    else AllTyped(tasks) && Reaches(Execute(turns[0].command, tasks, turns[0].context), turns[1..], final)
  }

  // ---- The close command is the closing step of `Ungating` ----

  /** What a close writes on its own ticket. */
  function CloseStamp(notes: Body, result: string, now: Stamp): Body -> Body {
    b => (b + (notes - {KeyId, KeyGate}))[KeyStatus := Stat(Closed)][KeyResult := Text(result)][KeyCompletedAt := Text(now)]
  }

  lemma CloseStampCloses(notes: Body, result: string, now: Stamp)
    ensures Closes(CloseStamp(notes, result, now))
  {
    var stamp := CloseStamp(notes, result, now);
    forall b ensures IdOf(stamp(b)) == IdOf(b) && TerminalBody(stamp(b)) && (GateIsText(b) ==> GateIsText(stamp(b))) {
      assert stamp(b) == (b + (notes - {KeyId, KeyGate}))[KeyStatus := Stat(Closed)][KeyResult := Text(result)][KeyCompletedAt := Text(now)];
    }
  }

  lemma MarkOne(tasks: seq<Body>, id: string, stamp: Body -> Body, k: nat)
    requires UniqueIds(tasks) && FindTask(tasks, id) == Some(k)
    ensures Known(tasks, id) && Mark(tasks, {id}, stamp) == tasks[k := stamp(tasks[k])]
  {
    assert tasks[k] in tasks;
    forall i | 0 <= i < |tasks| ensures IsOneOf(tasks[i], {id}) <==> i == k {
    }
  }

  lemma AfterCloseIsUngating(tasks: seq<Body>, k: nat, id: string, today: int)
    requires AllTyped(tasks) && k < |tasks| && HasStatus(tasks[k], Closed)
    ensures GatesAreText(tasks) && AfterClose(tasks, k, id, today) == UngateAll(tasks, id, today)
  {
    TypedParts(tasks, tasks[k]);
    RollupAfterCloseIsIdentity(tasks, k);
  }

  /** An allowed close writes the stamp, whatever the ticket was. */
  lemma CloseBodyIsStamp(t: Body, result: string, reason: Option<string>, ctx: Context)
    requires ProofGate(reason, ctx.proof).Allowed?
    ensures CloseOneBody(t, result, reason, ctx) == Some(CloseStamp(ProofGate(reason, ctx.proof).notes, result, ctx.now)(t))
  {
    var notes := ProofGate(reason, ctx.proof).notes;
    assert notes - {KeyId, KeyGate} == notes;
  }

  lemma CloseExecutes(tasks: seq<Body>, id: string, result: string, reason: Option<string>, ctx: Context, k: nat, u: Body)
    requires AllTyped(tasks) && FindTask(tasks, id) == Some(k) && CloseOneBody(tasks[k], result, reason, ctx) == Some(u)
    ensures AllTyped(tasks[k := u]) && HasStatus(u, Closed)
    ensures Execute(CloseWith(id, result, reason), tasks, ctx) == AfterClose(tasks[k := u], k, id, ctx.today)
  {
    EditKeepsTyped(CloseWith(id, result, reason), tasks[k], false, ctx);
    UpdateKeepsTyped(tasks, k, u);
  }

  /**
   An allowed close of a uniquely named ticket is one closing step, so the closed form and the
   confluence of `Ungating` speak about this command.
   */
  lemma CloseCommandIsClosingStep(tasks: seq<Body>, id: string, result: string, reason: Option<string>, ctx: Context, k: nat)
    requires AllTyped(tasks) && UniqueIds(tasks) && FindTask(tasks, id) == Some(k) && ProofGate(reason, ctx.proof).Allowed?
    ensures var stamp := CloseStamp(ProofGate(reason, ctx.proof).notes, result, ctx.now);
      GatesAreText(tasks) && Closes(stamp)
      && Execute(CloseWith(id, result, reason), tasks, ctx) == CloseOne(tasks, Closing(id, stamp), ctx.today)
  {
    var stamp := CloseStamp(ProofGate(reason, ctx.proof).notes, result, ctx.now);
    var u := stamp(tasks[k]);
    TypedParts(tasks, tasks[k]);
    CloseStampCloses(ProofGate(reason, ctx.proof).notes, result, ctx.now);
    CloseBodyIsStamp(tasks[k], result, reason, ctx);
    CloseExecutes(tasks, id, result, reason, ctx, k, u);
    AfterCloseIsUngating(tasks[k := u], k, id, ctx.today);
    MarkOne(tasks, id, stamp, k);
  }

  // ---- Resets strand nothing ----

  /** After any of the reset paths no targeted ticket is left in progress: it is claimable or in triage. */
  lemma ResetsLeaveNothingInProgress(tasks: seq<Body>, id: string, ctx: Context, k: nat)
    requires AllTyped(tasks) && FindTask(tasks, id) == Some(k)
    ensures forall t :: t in Execute(ResetStale, tasks, ctx) ==> !HasStatus(t, InProgress)
    ensures !HasStatus(Execute(Reset(id), tasks, ctx)[k], InProgress)
    ensures !TerminalBody(tasks[k]) ==>
      var t := Execute(Reset(id), tasks, ctx)[k];
      HasStatus(t, if IntentionDeclared(tasks[k]) then Sprint else Triage)
    ensures !HasStatus(Execute(Reconcile(id), tasks, ctx)[k], InProgress)
  {
    StaleResetLeavesNone(tasks, ctx);
    OneEdit(Reset(id), tasks, ctx, k);
    OneEdit(Reconcile(id), tasks, ctx, k);
    hide Execute, IntentionDeclared;
  }

  lemma StaleResetLeavesNone(tasks: seq<Body>, ctx: Context)
    requires AllTyped(tasks)
    ensures forall t :: t in Execute(ResetStale, tasks, ctx) ==> !HasStatus(t, InProgress)
  {
    var after := Execute(ResetStale, tasks, ctx);
    forall t | t in after ensures !HasStatus(t, InProgress) {
      var i :| 0 <= i < |after| && after[i] == t;
      assert after[i] == ResetStaleOne(tasks[i]);
    }
  }

  /** A terminal ticket is never reopened by a reset, a reconcile, a claim or an ungate of another ticket's close. */
  lemma ResetsReopenNothing(tasks: seq<Body>, id: string, ctx: Context, k: nat)
    requires AllTyped(tasks) && FindTask(tasks, id) == Some(k) && TerminalBody(tasks[k])
    ensures Execute(Reset(id), tasks, ctx) == tasks
    ensures Execute(Reconcile(id), tasks, ctx) == tasks
    ensures Execute(Claim(id), tasks, ctx) == tasks
    ensures Execute(ResetStale, tasks, ctx)[k] == tasks[k]
  {
    ResetKeepsTerminal(tasks, id, ctx, k);
    ClaimAndReconcileKeepTerminal(tasks, id, ctx, k);
    assert Execute(ResetStale, tasks, ctx)[k] == ResetStaleOne(tasks[k]);
  }

  lemma ResetKeepsTerminal(tasks: seq<Body>, id: string, ctx: Context, k: nat)
    requires AllTyped(tasks) && FindTask(tasks, id) == Some(k) && TerminalBody(tasks[k])
    ensures Execute(Reset(id), tasks, ctx) == tasks
  {
    assert tasks[k := tasks[k]] == tasks;
  }

  lemma ClaimAndReconcileKeepTerminal(tasks: seq<Body>, id: string, ctx: Context, k: nat)
    requires AllTyped(tasks) && FindTask(tasks, id) == Some(k) && TerminalBody(tasks[k])
    ensures Execute(Reconcile(id), tasks, ctx) == tasks && Execute(Claim(id), tasks, ctx) == tasks
  {
  }

  // ---- Each command in plain words ----

  /** A command that neither closes nor sweeps edits its own ticket in place. */
  lemma OneEdit(c: Command, tasks: seq<Body>, ctx: Context, k: nat)
    requires AllTyped(tasks) && !c.ResetStale? && FindTask(tasks, c.id) == Some(k)
    requires !EditOf(c, tasks[k], IsLowRisk(c, tasks[k], ctx), ctx).CloseTo?
    ensures var e := EditOf(c, tasks[k], IsLowRisk(c, tasks[k], ctx), ctx);
      Execute(c, tasks, ctx) == tasks[k := if e.Change? then e.to else tasks[k]]
  {
    hide EditOf;
  }

  /** The one-ticket commands without a gate: what they write, and nothing else, on their own ticket alone. */
  lemma PlainCommandsInWords(tasks: seq<Body>, id: string, text: string, ctx: Context, k: nat)
    requires AllTyped(tasks) && FindTask(tasks, id) == Some(k)
    ensures EditsOnly(tasks, Execute(Gate(id, text), tasks, ctx), k) && EditsOnly(tasks, Execute(Block(id, text), tasks, ctx), k)
    ensures EditsOnly(tasks, Execute(MarkForReview(id), tasks, ctx), k)
    ensures var t := Execute(Gate(id, text), tasks, ctx)[k]; Get(t, KeyGate) == Text(text) && SameBut(tasks[k], t, {KeyGate})
    ensures var t := Execute(Block(id, text), tasks, ctx)[k];
      HasStatus(t, Hold) && Get(t, KeyResult) == Text(text) && Get(t, KeyBlockedAt) == Text(ctx.now)
      && SameBut(tasks[k], t, {KeyStatus, KeyResult, KeyBlockedAt})
    ensures var t := Execute(MarkForReview(id), tasks, ctx)[k]; HasStatus(t, Triage) && SameBut(tasks[k], t, {KeyStatus})
  {
    OneEdit(Gate(id, text), tasks, ctx, k);
    OneEdit(Block(id, text), tasks, ctx, k);
    OneEdit(MarkForReview(id), tasks, ctx, k);
    hide Execute;
  }

  ghost predicate EditsOnly(was: seq<Body>, now: seq<Body>, k: nat) {
    |now| == |was| && forall i :: 0 <= i < |was| && i != k ==> now[i] == was[i]
  }

  lemma UngateInWords(tasks: seq<Body>, id: string, ctx: Context, k: nat)
    requires AllTyped(tasks) && FindTask(tasks, id) == Some(k)
    ensures EditsOnly(tasks, Execute(Ungate(id), tasks, ctx), k) && LetGo(tasks[k], Execute(Ungate(id), tasks, ctx)[k])
  {
    OneEdit(Ungate(id), tasks, ctx, k);
    FlipLetsGo(tasks[k]);
  }

  lemma ClaimInWords(tasks: seq<Body>, id: string, ctx: Context, k: nat)
    requires AllTyped(tasks) && FindTask(tasks, id) == Some(k)
    ensures EditsOnly(tasks, Execute(Claim(id), tasks, ctx), k)
    ensures var t := Execute(Claim(id), tasks, ctx)[k];
      if HasStatus(tasks[k], Sprint)
      then HasStatus(t, InProgress) && Get(t, KeyDispatchedAt) == Text(ctx.now) && SameBut(tasks[k], t, {KeyStatus, KeyDispatchedAt})
      else t == tasks[k]
  {
    ClaimAndReleaseInWords(tasks[k], ctx.now);
    OneEdit(Claim(id), tasks, ctx, k);
    hide ClaimBody, ReleaseBody, IntentionDeclared, Execute;
  }

  lemma ReconcileInWords(tasks: seq<Body>, id: string, ctx: Context, k: nat)
    requires AllTyped(tasks) && FindTask(tasks, id) == Some(k)
    ensures EditsOnly(tasks, Execute(Reconcile(id), tasks, ctx), k)
    ensures var t := Execute(Reconcile(id), tasks, ctx)[k];
      if !HasStatus(tasks[k], InProgress) then t == tasks[k]
      else if IntentionDeclared(tasks[k])
      then HasStatus(t, Sprint) && Get(t, KeyDispatchedAt) == Null && SameBut(tasks[k], t, {KeyStatus, KeyDispatchedAt})
      else HasStatus(t, Triage) && Get(t, KeyFailReason) == NO_INTENTION && Get(t, KeyDispatchedAt) == Null
           && SameBut(tasks[k], t, {KeyStatus, KeyFailReason, KeyDispatchedAt})
  {
    ClaimAndReleaseInWords(tasks[k], ctx.now);
    OneEdit(Reconcile(id), tasks, ctx, k);
    hide ClaimBody, ReleaseBody, IntentionDeclared, Execute;
  }

  lemma ClaimAndReleaseInWords(was: Body, now: Stamp)
    ensures var t := ClaimBody(was, Some(now));
      HasStatus(t, InProgress) && Get(t, KeyDispatchedAt) == Text(now) && SameBut(was, t, {KeyStatus, KeyDispatchedAt})
    ensures var t := ReleaseBody(was);
      Get(t, KeyDispatchedAt) == Null &&
      if IntentionDeclared(was) then HasStatus(t, Sprint) && SameBut(was, t, {KeyStatus, KeyDispatchedAt})
      else HasStatus(t, Triage) && Get(t, KeyFailReason) == NO_INTENTION && SameBut(was, t, {KeyStatus, KeyFailReason, KeyDispatchedAt})
  {
  }

  /** What makes submitted work close by itself: small, by igor, nowhere near the files of high inertia, and nothing bad in the result. */
  ghost predicate ClosesItself(t: Body, result: string) {
    && Get(t, KeyWorker) == Text("igor") && (Get(t, KeySize) == Text("S") || Get(t, KeySize) == Text("M"))
    && !Contains(Lower(result), "fail") && !Contains(Lower(result), "scope_guard") && !Contains(Lower(result), "skipped")
    && (forall p :: p in HIGH_INERTIA ==> !Contains(Lower(TextOr(Get(t, KeyDescription))), p))
  }

  /** A submit waits for validation, or closes the ticket: with the proof on file, or with the reason that there is none yet. */
  lemma SubmitInWords(tasks: seq<Body>, id: string, result: string, evidence: bool, ctx: Context, k: nat)
    requires AllTyped(tasks) && FindTask(tasks, id) == Some(k)
    ensures |Execute(Submit(id, result, evidence), tasks, ctx)| == |tasks|
    ensures
      var t := Execute(Submit(id, result, evidence), tasks, ctx)[k];
      && Get(t, KeyResult) == Text(result) && Get(t, KeyCompletedAt) == Text(ctx.now)
      && (if evidence && ClosesItself(tasks[k], result) then
            && HasStatus(t, Closed) && Get(t, KeyAutoValidated) == Flag(true)
            && Annotated(tasks[k], t, if ctx.proof.Some? then None else Some(AUTO_REASON), ctx.proof,
                         {KeyStatus, KeyResult, KeyCompletedAt, KeyAutoValidated})
          else
            HasStatus(t, AwaitingValidation) && SameBut(tasks[k], t, {KeyStatus, KeyResult, KeyCompletedAt}))
  {
    var c := Submit(id, result, evidence);
    var s := Submitted(tasks[k], result, ctx);
    SubmittedInWords(tasks[k], result, ctx);
    SubmittedIsRead(tasks[k], result, ctx);
    hide Execute, AutoValidated, LowRisk, Submitted, ClosesItself, Annotated, SameBut;
    if evidence && LowRisk(s) {
      AutoReasonIsNamed();
      AutoAnnotates(tasks[k], s, ctx);
      AutoCloseExecutes(tasks, id, result, ctx, k);
    } else {
      OneEdit(c, tasks, ctx, k);
    }
  }

  lemma SubmittedInWords(t: Body, result: string, ctx: Context)
    ensures var s := Submitted(t, result, ctx);
      HasStatus(s, AwaitingValidation) && Get(s, KeyResult) == Text(result) && Get(s, KeyCompletedAt) == Text(ctx.now)
      && SameBut(t, s, {KeyStatus, KeyResult, KeyCompletedAt})
  {
  }

  lemma AutoCloseExecutes(tasks: seq<Body>, id: string, result: string, ctx: Context, k: nat)
    requires AllTyped(tasks) && FindTask(tasks, id) == Some(k) && LowRisk(Submitted(tasks[k], result, ctx))
    requires HasStatus(AutoValidated(Submitted(tasks[k], result, ctx), ctx), Closed)
    ensures var after := Execute(Submit(id, result, true), tasks, ctx);
      |after| == |tasks| && after[k] == AutoValidated(Submitted(tasks[k], result, ctx), ctx)
  {
    hide AutoValidated, LowRisk, Submitted, Execute;
    var c, u := Submit(id, result, true), AutoValidated(Submitted(tasks[k], result, ctx), ctx);
    assert EditOf(c, tasks[k], true, ctx) == CloseTo(u) && IsLowRisk(c, tasks[k], ctx);
    OneClose(c, tasks, ctx, k);
    ClosedStays(tasks, id, result, ctx, k, u);
  }

  /** A command that closes its ticket releases the dependents after the edit. */
  lemma OneClose(c: Command, tasks: seq<Body>, ctx: Context, k: nat)
    requires AllTyped(tasks) && !c.ResetStale? && FindTask(tasks, c.id) == Some(k)
    requires EditOf(c, tasks[k], IsLowRisk(c, tasks[k], ctx), ctx).CloseTo?
    ensures var u := EditOf(c, tasks[k], IsLowRisk(c, tasks[k], ctx), ctx).to;
      AllTyped(tasks[k := u]) && Execute(c, tasks, ctx) == AfterClose(tasks[k := u], k, c.id, ctx.today)
  {
    assert tasks[k] in tasks;
    EditKeepsTyped(c, tasks[k], IsLowRisk(c, tasks[k], ctx), ctx);
    hide EditOf, AfterClose, Typed;
    UpdateKeepsTyped(tasks, k, EditOf(c, tasks[k], IsLowRisk(c, tasks[k], ctx), ctx).to);
  }

  lemma SubmittedIsRead(t: Body, result: string, ctx: Context)
    ensures LowRisk(Submitted(t, result, ctx)) <==> ClosesItself(t, result)
  {
  }

  lemma AutoAnnotates(was: Body, s: Body, ctx: Context)
    requires Strip(AUTO_REASON, IsSpace) != "" && SameBut(was, s, {KeyStatus, KeyResult, KeyCompletedAt})
    ensures var t := AutoValidated(s, ctx);
      && HasStatus(t, Closed) && Get(t, KeyAutoValidated) == Flag(true)
      && Get(t, KeyResult) == Get(s, KeyResult) && Get(t, KeyCompletedAt) == Get(s, KeyCompletedAt)
      && Annotated(was, t, if ctx.proof.Some? then None else Some(AUTO_REASON), ctx.proof,
                   {KeyStatus, KeyResult, KeyCompletedAt, KeyAutoValidated})
  {
    hide Strip, ProofGate;
    var reason := if ctx.proof.Some? then None else Some(AUTO_REASON);
    GateInWords(reason, ctx.proof);
    GateInWords(None, ctx.proof);
    NotesAnnotate(s, reason, ctx.proof);
    var notes := ProofGate(reason, ctx.proof).notes;
    assert AutoValidated(s, ctx) == (s + notes)[KeyStatus := Stat(Closed)][KeyAutoValidated := Flag(true)];
    AutoKeepsNotes(was, s, s + notes, reason, ctx.proof);
  }

  lemma AutoKeepsNotes(was: Body, s: Body, u: Body, reason: Option<string>, proof: Option<Proof>)
    requires SameBut(was, s, {KeyStatus, KeyResult, KeyCompletedAt}) && Annotated(s, u, reason, proof, {})
    ensures var t := u[KeyStatus := Stat(Closed)][KeyAutoValidated := Flag(true)];
      && Get(t, KeyResult) == Get(s, KeyResult) && Get(t, KeyCompletedAt) == Get(s, KeyCompletedAt)
      && Annotated(was, t, reason, proof, {KeyStatus, KeyResult, KeyCompletedAt, KeyAutoValidated})
  {
    hide Strip;
  }

  /** Without a reason a close goes through exactly when some proof linked to the ticket is accepted, and it names such a proof. */
  lemma ProvenCloseIff(tasks: seq<Body>, id: string, result: string, ctx: Context, w: World, k: nat)
    requires AllTyped(tasks) && FindTask(tasks, id) == Some(k) && Faithful(CloseWith(id, result, None), ctx, w)
    ensures
      var after := Execute(CloseWith(id, result, None), tasks, ctx);
      if exists p :: p in w.proofs && id in p.tickets && Validate(w.graph, w.head, p).Accepted? then
        |after| == |tasks| && HasStatus(after[k], Closed) && Get(after[k], KeyProven) == Flag(true) && AcceptedIn(after[k], w)
      else after == tasks
  {
    hide Validate, Execute, LinkedTo, AfterClose;
    BestProofIff(w.proofs, id, w.graph, w.head);
    GateInWords(None, ctx.proof);
    if ctx.proof.Some? {
      var u := (tasks[k] + ProofGate(None, ctx.proof).notes)[KeyStatus := Stat(Closed)][KeyResult := Text(result)][KeyCompletedAt := Text(ctx.now)];
      NotesAnnotate(tasks[k], None, ctx.proof);
      CloseAnnotates(tasks[k], tasks[k] + ProofGate(None, ctx.proof).notes, u, result, None, ctx.proof, ctx.now);
      CloseExecutes(tasks, id, result, None, ctx, k, u);
      ClosedStays(tasks, id, result, ctx, k, u);
      BestIsAccepted(u, id, ctx.proof.value, w);
    } else {
      RefusedCloseKeeps(tasks, id, result, None, ctx, k);
    }
  }

  lemma ClosedStays(tasks: seq<Body>, id: string, result: string, ctx: Context, k: nat, u: Body)
    requires AllTyped(tasks) && k < |tasks| && AllTyped(tasks[k := u]) && HasStatus(u, Closed)
    ensures var after := AfterClose(tasks[k := u], k, id, ctx.today); |after| == |tasks| && after[k] == u
  {
    AfterCloseIsUngating(tasks[k := u], k, id, ctx.today);
    ClosedInWords(tasks, k, u, AfterClose(tasks[k := u], k, id, ctx.today), id, ctx.today);
  }

  // ---- What the gates do not cover ----

  /** `setstatus` edits one ticket: a terminal status set this way releases no dependent. */
  lemma SetStatusReleasesNobody(tasks: seq<Body>, id: string, status: Status, reason: Option<string>, ctx: Context, k: nat, j: nat)
    requires AllTyped(tasks) && FindTask(tasks, id) == Some(k) && j < |tasks| && j != k
    ensures |Execute(SetTo(id, status, reason), tasks, ctx)| == |tasks|
    ensures Execute(SetTo(id, status, reason), tasks, ctx)[j] == tasks[j]
  {
  }

  /** The exit gate guards `closed` alone: `done` and `cancelled` are set with no proof and no reason. */
  lemma OtherTerminalsAreUngated(tasks: seq<Body>, id: string, status: Status, reason: Option<string>, ctx: Context, k: nat)
    requires AllTyped(tasks) && FindTask(tasks, id) == Some(k) && (status.Done? || status.Cancelled?)
    ensures Execute(SetTo(id, status, reason), tasks, ctx) == tasks[k := tasks[k][KeyStatus := Stat(status)]]
  {
  }

  // ---- The migration command ----

  /** `migrate-statuses`: old words and title prefixes to the current statuses, with no gate on the way. */
  function MigratedStatus(t: Body): Value {
    var s, title := Get(t, KeyStatus), TextOr(Get(t, KeyOther("title")));
    var s :=
      if s != Stat(Pending) then s
      else if "DESIGNED:" <= title then Stat(Sprint)
      else if "NEEDS DESIGN:" <= title || "NEW:" <= title then Stat(Triage)
      else if "CLOSED:" <= title then Stat(Hold)
      else s;
    var s :=
      if s == Stat(Blocked) then Stat(Hold)
      else if s == Stat(AwaitingApproval) || s == Stat(Approval) || s == Stat(NeedsReview) || s == Stat(Design) || s == Stat(OpenQuestions)
      then Stat(Triage)
      else s;
    if IdOf(t) == Text("T-uc-cert-domain-migration") then Stat(Akien) else s
  }

  function Migrated(t: Body): Body {
    if TerminalBody(t) then t else t[KeyStatus := MigratedStatus(t)]
  }

  /** A migration breaks the entry gate exactly for a pending ticket titled as designed that declares no intention. */
  lemma MigrationIsUngated(t: Body, history: seq<World>)
    requires Gated(t, history)
    ensures Gated(Migrated(t), history) <==>
      !(HasStatus(t, Pending) && "DESIGNED:" <= TextOr(Get(t, KeyOther("title")))
        && IdOf(t) != Text("T-uc-cert-domain-migration") && !IntentionDeclared(t))
  {
  }

  /** A word the current status list no longer has. */
  ghost predicate IsRetired(v: Value) {
    v == Stat(Blocked) || v == Stat(AwaitingApproval) || v == Stat(Approval) || v == Stat(NeedsReview) || v == Stat(Design)
    || v == Stat(OpenQuestions)
  }

  /** A migration leaves no retired word behind, touches the status alone, leaves settled tickets alone, and is done after one run. */
  lemma MigrationSettles(t: Body)
    ensures SameBut(t, Migrated(t), {KeyStatus}) && !IsRetired(Get(Migrated(t), KeyStatus)) && Migrated(Migrated(t)) == Migrated(t)
    ensures IdOf(t) != Text("T-uc-cert-domain-migration") && !HasStatus(t, Pending) ==>
      Get(Migrated(t), KeyStatus) == if !IsRetired(Get(t, KeyStatus)) then Get(t, KeyStatus)
                                     else if HasStatus(t, Blocked) then Stat(Hold) else Stat(Triage)
    ensures IdOf(t) != Text("T-uc-cert-domain-migration") && HasStatus(t, Pending) ==>
      var title := TextOr(Get(t, KeyOther("title")));
      HasStatus(Migrated(t), if "DESIGNED:" <= title then Sprint
                             else if "NEEDS DESIGN:" <= title || "NEW:" <= title then Triage
                             else if "CLOSED:" <= title then Hold else Pending)
  {
  }

  // ---- The commands as they edit the loaded list ----

  /** `setstatus` in plain words: which requests are carried out, what they write, and that they write it on one ticket alone. */
  ghost predicate SetInWords(tasks: seq<Body>, after: seq<Body>, id: string, status: Status, reason: Option<string>, ctx: Context, saved: bool) {
    var at := FindTask(tasks, id);
    && |after| == |tasks|
    && (at.None? || !saved ==> !saved && after == tasks)
    && (at.Some? ==>
          var k := at.value;
          && EditsOnly(tasks, after, k)
          && (if status.Closed? && !HasStatus(tasks[k], Closed) then
                && (saved <==> if reason.Some? then Strip(reason.value, IsSpace) != "" else ctx.proof.Some?)
                && (saved ==> HasStatus(after[k], Closed) && Annotated(tasks[k], after[k], reason, ctx.proof, {KeyStatus}))
              else
                && (saved <==> !(status == Approval || status == AwaitingApproval || status == Assigned || status == Discarded || status.Unlisted?)
                               && (status.Sprint? && !HasStatus(tasks[k], Sprint) ==> IntentionDeclared(tasks[k])))
                && (saved ==> HasStatus(after[k], status) && SameBut(tasks[k], after[k], {KeyStatus}))))
  }

  lemma SetStatusInWords(tasks: seq<Body>, id: string, status: Status, reason: Option<string>, ctx: Context)
    requires AllTyped(tasks)
    ensures
      var at := FindTask(tasks, id);
      var saved := Settable(status) && at.Some? && SetOne(tasks[at.value], status, reason, ctx).Some?;
      SetInWords(tasks, Execute(SetTo(id, status, reason), tasks, ctx), id, status, reason, ctx, saved)
  {
    var at := FindTask(tasks, id);
    if at.Some? {
      SetOneInWords(tasks[at.value], status, reason, ctx);
      OneEdit(SetTo(id, status, reason), tasks, ctx, at.value);
      hide SetOne, Strip, IntentionDeclared, Execute, Annotated, SameBut;
    } else {
      UnknownIdKeeps(SetTo(id, status, reason), tasks, ctx);
    }
  }

  lemma SetOneInWords(t: Body, status: Status, reason: Option<string>, ctx: Context)
    ensures
      var to := SetOne(t, status, reason, ctx);
      if status.Closed? && !HasStatus(t, Closed) then
        && (to.Some? <==> if reason.Some? then Strip(reason.value, IsSpace) != "" else ctx.proof.Some?)
        && (to.Some? ==> HasStatus(to.value, Closed) && Annotated(t, to.value, reason, ctx.proof, {KeyStatus}))
      else
        && (to.Some? <==> (status.Sprint? && !HasStatus(t, Sprint) ==> IntentionDeclared(t)))
        && (to.Some? ==> HasStatus(to.value, status) && SameBut(t, to.value, {KeyStatus}))
  {
    hide ProofGate, Strip, IntentionDeclared, Annotated;
    GateInWords(reason, ctx.proof);
    if status.Closed? && !HasStatus(t, Closed) && ProofGate(reason, ctx.proof).Allowed? {
      NotesAnnotate(t, reason, ctx.proof);
      SetAnnotates(t, t + ProofGate(reason, ctx.proof).notes, reason, ctx.proof);
    }
  }

  lemma SetAnnotates(t: Body, s: Body, reason: Option<string>, proof: Option<Proof>)
    requires Annotated(t, s, reason, proof, {})
    ensures HasStatus(s[KeyStatus := Stat(Closed)], Closed) && Annotated(t, s[KeyStatus := Stat(Closed)], reason, proof, {KeyStatus})
  {
  }

  method CmdSetStatus(a: array<Body>, id: string, status: Status, reason: Option<string>, ctx: Context) returns (saved: bool)
    requires AllTyped(a[..])
    modifies a
    ensures a[..] == Execute(SetTo(id, status, reason), old(a[..]), ctx)
    ensures saved <==> Settable(status) && FindTask(old(a[..]), id).Some?
                       && SetOne(old(a[..])[FindTask(old(a[..]), id).value], status, reason, ctx).Some?
    ensures !saved ==> a[..] == old(a[..])
    ensures SetInWords(old(a[..]), a[..], id, status, reason, ctx, saved)
  {
    SetStatusInWords(a[..], id, status, reason, ctx);
    hide SetInWords, Annotated, Strip, IntentionDeclared;
    if !Settable(status) {
      return false;
    }
    var at := FindTask(a[..], id);
    if at.None? {
      return false;
    }
    var k := at.value;
    if status.Closed? && !HasStatus(a[k], Closed) {
      var answer := ProofGate(reason, ctx.proof);
      if answer.Refused? {
        return false;
      }
      a[k] := a[k] + answer.notes;
    } else if status.Sprint? && !HasStatus(a[k], Sprint) {
      if !IntentionDeclared(a[k]) {
        return false;
      }
    }
    a[k] := a[k][KeyStatus := Stat(status)];
    return true;
  }

  /** Back to `sprint` with the given fields cleared, or, without an intention, to triage with the reason. */
  ghost predicate PutBackInWords(was: Body, t: Body, cleared: set<Key>) {
    if IntentionDeclared(was) then
      HasStatus(t, Sprint) && (forall k :: k in cleared ==> Get(t, k) == Null) && SameBut(was, t, {KeyStatus} + cleared)
    else
      HasStatus(t, Triage) && Get(t, KeyFailReason) == NO_INTENTION && SameBut(was, t, {KeyStatus, KeyFailReason})
  }

  lemma ResetInWords(was: Body)
    requires !TerminalBody(was)
    ensures PutBackInWords(was, ResetOne(was), {KeyDispatchedAt, KeyBlockedAt})
  {
  }

  method CmdReset(a: array<Body>, id: string, ctx: Context) returns (saved: bool)
    requires AllTyped(a[..])
    modifies a
    ensures a[..] == Execute(Reset(id), old(a[..]), ctx)
    ensures saved <==> FindTask(old(a[..]), id).Some? && !TerminalBody(old(a[..])[FindTask(old(a[..]), id).value])
    ensures !saved ==> a[..] == old(a[..])
    ensures saved ==>
      var k := FindTask(old(a[..]), id).value;
      && PutBackInWords(old(a[..])[k], a[k], {KeyDispatchedAt, KeyBlockedAt})
      && forall i :: 0 <= i < a.Length && i != k ==> a[i] == old(a[..])[i]
  {
    var at := FindTask(a[..], id);
    if at.None? {
      return false;
    }
    var k := at.value;
    OneEdit(Reset(id), a[..], ctx, k);
    if TerminalBody(a[k]) {
      assert a[..][k := a[k]] == a[..];
      return false;
    }
    ResetInWords(a[k]);
    hide PutBackInWords, Execute, TerminalBody;
    var allowed := GuardSprintEntry(a, k);
    if allowed {
      a[k] := a[k][KeyStatus := Stat(Sprint)];
      a[k] := a[k][KeyDispatchedAt := Null];
      a[k] := a[k][KeyBlockedAt := Null];
    }
    return true;
  }

  /** One iteration of the sweep. */
  method ResetStaleAt(a: array<Body>, i: nat) returns (stale: bool)
    requires i < a.Length
    modifies a
    ensures stale <==> HasStatus(old(a[i]), InProgress)
    ensures a[..] == old(a[..])[i := ResetStaleOne(old(a[i]))]
  {
    stale := HasStatus(a[i], InProgress);
    if stale {
      var allowed := GuardSprintEntry(a, i);
      if allowed {
        a[i] := a[i][KeyStatus := Stat(Sprint)];
        a[i] := a[i][KeyDispatchedAt := Null];
      }
    }
  }

  /** How many of the first `n` tickets are in progress; the sweep saves only when there are some. */
  function CountInProgress(tasks: seq<Body>, n: nat): nat
    requires n <= |tasks|
  {
    if n == 0 then 0 else CountInProgress(tasks, n - 1) + if HasStatus(tasks[n - 1], InProgress) then 1 else 0
  }

  /** The list when the sweep has treated its first `i` tickets. */
  ghost function Swept(was: seq<Body>, i: nat): (now: seq<Body>)
    requires i <= |was|
    ensures |now| == |was| && forall j :: i <= j < |was| ==> now[j] == was[j]
  {
    if i == 0 then was else Swept(was, i - 1)[i - 1 := ResetStaleOne(was[i - 1])]
  }

  lemma {:induction false} SweptFront(was: seq<Body>, i: nat)
    requires i <= |was|
    ensures forall j :: 0 <= j < i ==> Swept(was, i)[j] == ResetStaleOne(was[j])
  {
    if i > 0 {
      SweptFront(was, i - 1);
    }
  }

  lemma SweptAll(was: seq<Body>, now: seq<Body>)
    requires now == Swept(was, |was|)
    ensures now == ResetAll(was)
  {
    SweptFront(was, |was|);
    forall j | 0 <= j < |was| ensures now[j] == ResetAll(was)[j] {
    }
  }

  method CmdResetStale(a: array<Body>, ctx: Context) returns (resetCount: nat)
    requires AllTyped(a[..])
    modifies a
    ensures a[..] == Execute(ResetStale, old(a[..]), ctx)
    ensures resetCount == CountInProgress(old(a[..]), a.Length)
    ensures resetCount == |set i | 0 <= i < a.Length && HasStatus(old(a[..])[i], InProgress)|
    ensures forall i :: 0 <= i < a.Length ==>
      if HasStatus(old(a[..])[i], InProgress) then PutBackInWords(old(a[..])[i], a[i], {KeyDispatchedAt}) else a[i] == old(a[..])[i]
  {
    ghost var was := a[..];
    resetCount := 0;
    var i := 0;
    while i < a.Length
      invariant 0 <= i <= a.Length
      invariant a[..] == Swept(was, i)
      invariant resetCount == CountInProgress(was, i)
    {
      assert a[i] == a[..][i] == was[i];
      var stale := ResetStaleAt(a, i);
      if stale {
        resetCount := resetCount + 1;
      }
      i := i + 1;
    }
    SweptAll(was, a[..]);
    StaleInWords(was);
    CountsInProgress(was, |was|);
    assert InProgressPlaces(was, |was|) == set i | 0 <= i < a.Length && HasStatus(was[i], InProgress);
    assert forall j :: 0 <= j < a.Length ==> a[j] == a[..][j];
  }

  lemma StaleInWords(was: seq<Body>)
    ensures forall i :: 0 <= i < |was| ==>
      if HasStatus(was[i], InProgress) then PutBackInWords(was[i], ResetAll(was)[i], {KeyDispatchedAt}) else ResetAll(was)[i] == was[i]
  {
    forall i | 0 <= i < |was| ensures
      if HasStatus(was[i], InProgress) then PutBackInWords(was[i], ResetStaleOne(was[i]), {KeyDispatchedAt}) else ResetStaleOne(was[i]) == was[i] {
    }
  }

  lemma {:induction false} CountsInProgress(was: seq<Body>, n: nat)
    requires n <= |was|
    ensures CountInProgress(was, n) == |InProgressPlaces(was, n)|
  {
    hide HasStatus;
    if n > 0 {
      CountsInProgress(was, n - 1);
      var before, after := InProgressPlaces(was, n - 1), InProgressPlaces(was, n);
      assert after == if HasStatus(was[n - 1], InProgress) then before + {n - 1} else before;
    }
  }

  ghost function InProgressPlaces(was: seq<Body>, n: nat): set<int>
    requires n <= |was|
  {
    set i | 0 <= i < n && HasStatus(was[i], InProgress)
  }

  /** Closing the ticket at `k` as `u`, as readers of the list see it: `u` stays, and the pass decides every other ticket. */
  lemma ClosedInWords(was: seq<Body>, k: nat, u: Body, now: seq<Body>, id: string, today: int)
    requires k < |was| && HasStatus(u, Closed) && GatesAreText(was[k := u]) && now == UngateAll(was[k := u], id, today)
    ensures now[k] == u
    ensures forall i :: 0 <= i < |was| && i != k ==>
      var gate := Get(was[i], KeyGate);
      && (gate.Null? || gate.Text?)
      && (if !TerminalBody(was[i]) && Truthy(gate) && id in IdTokens(gate.text) && GateClear(gate, was[k := u], today)
          then LetGo(was[i], now[i]) else now[i] == was[i])
  {
    var mid := was[k := u];
    PassInWords(mid, now, id, today);
    forall i | 0 <= i < |was| && i != k ensures mid[i] == was[i] && GateIsText(was[i]) {
      assert mid[i] in mid;
    }
  }

  lemma UnknownIdKeeps(c: Command, tasks: seq<Body>, ctx: Context)
    requires AllTyped(tasks) && !c.ResetStale? && FindTask(tasks, c.id).None?
    ensures Execute(c, tasks, ctx) == tasks
  {
  }

  lemma RefusedCloseKeeps(tasks: seq<Body>, id: string, result: string, reason: Option<string>, ctx: Context, k: nat)
    requires AllTyped(tasks) && FindTask(tasks, id) == Some(k) && ProofGate(reason, ctx.proof).Refused?
    ensures Execute(CloseWith(id, result, reason), tasks, ctx) == tasks
  {
  }

  /** The exit gate in plain words: a named reason, or a proof on file. */
  lemma GateInWords(reason: Option<string>, proof: Option<Proof>)
    ensures ProofGate(reason, proof).Allowed? <==> if reason.Some? then Strip(reason.value, IsSpace) != "" else proof.Some?
  {
  }

  /** What a passed gate leaves on the ticket it lets out. */
  ghost predicate Annotated(was: Body, t: Body, reason: Option<string>, proof: Option<Proof>, others: set<Key>) {
    if reason.Some? then
      && Get(t, KeyProven) == Flag(false) && Get(t, KeyUnprovenReason) == Text(Strip(reason.value, IsSpace))
      && SameBut(was, t, others + {KeyProven, KeyUnprovenReason})
    else
      && proof.Some? && Get(t, KeyProven) == Flag(true) && Get(t, KeyProofId) == Text(proof.value.id)
      && Get(t, KeyProofCommit) == (if proof.value.commit == "" then Null else Text(proof.value.commit))
      && SameBut(was, t, others + {KeyProven, KeyProofId, KeyProofCommit})
  }

  lemma NotesAnnotate(was: Body, reason: Option<string>, proof: Option<Proof>)
    requires ProofGate(reason, proof).Allowed?
    ensures Annotated(was, was + ProofGate(reason, proof).notes, reason, proof, {})
  {
  }

  lemma CloseAnnotates(was: Body, s: Body, t: Body, result: string, reason: Option<string>, proof: Option<Proof>, now: Stamp)
    requires Annotated(was, s, reason, proof, {})
    requires t == s[KeyStatus := Stat(Closed)][KeyResult := Text(result)][KeyCompletedAt := Text(now)]
    ensures HasStatus(t, Closed) && Get(t, KeyResult) == Text(result) && Get(t, KeyCompletedAt) == Text(now)
    ensures Annotated(was, t, reason, proof, {KeyStatus, KeyResult, KeyCompletedAt})
  {
  }

  method CmdClose(a: array<Body>, id: string, result: string, reason: Option<string>, ctx: Context) returns (saved: bool)
    requires AllTyped(a[..])
    modifies a
    ensures a[..] == Execute(CloseWith(id, result, reason), old(a[..]), ctx)
    ensures saved <==> FindTask(old(a[..]), id).Some? && ProofGate(reason, ctx.proof).Allowed?
    ensures saved <==> (exists t :: t in old(a[..]) && IdOf(t) == Text(id))
                       && (if reason.Some? then Strip(reason.value, IsSpace) != "" else ctx.proof.Some?)
    ensures !saved ==> a[..] == old(a[..])
    ensures saved ==>
      var k := FindTask(old(a[..]), id).value;
      var was, t := old(a[..])[k], a[k];
      && HasStatus(t, Closed) && Get(t, KeyResult) == Text(result) && Get(t, KeyCompletedAt) == Text(ctx.now)
      && Annotated(was, t, reason, ctx.proof, {KeyStatus, KeyResult, KeyCompletedAt})
    ensures saved ==>
      var k := FindTask(old(a[..]), id).value;
      forall i :: 0 <= i < a.Length && i != k ==>
        var was := old(a[..])[i]; var gate := Get(was, KeyGate);
        && (gate.Null? || gate.Text?)
        && (if !TerminalBody(was) && Truthy(gate) && id in IdTokens(gate.text) && GateClear(gate, old(a[..])[k := a[k]], ctx.today)
            then LetGo(was, a[i]) else a[i] == was)
  {
    hide ProofGate, Execute, DecisionRollup, AfterClose, UngateAll, LetGo, GateClear, IdTokens, Strip;
    GateInWords(reason, ctx.proof);
    var at := FindTask(a[..], id);
    if at.None? {
      UnknownIdKeeps(CloseWith(id, result, reason), a[..], ctx);
      return false;
    }
    var k := at.value;
    var answer := ProofGate(reason, ctx.proof);
    if answer.Refused? {
      RefusedCloseKeeps(a[..], id, result, reason, ctx, k);
      return false;
    }
    ghost var was := a[..];
    var t := a[k] + answer.notes;
    t := t[KeyStatus := Stat(Closed)];
    t := t[KeyResult := Text(result)];
    t := t[KeyCompletedAt := Text(ctx.now)];
    NotesAnnotate(a[k], reason, ctx.proof);
    CloseAnnotates(a[k], a[k] + answer.notes, t, result, reason, ctx.proof, ctx.now);
    a[k] := t;
    CloseExecutes(was, id, result, reason, ctx, k, t);
    assert a[..] == was[k := t];
    TypedParts(a[..], t);
    RollUpDecision(a, Get(a[k], KeyDecisionId));
    RollupAfterCloseIsIdentity(was[k := t], k);
    AfterCloseIsUngating(was[k := t], k, id, ctx.today);
    var _ := UngateDependents(a, id, ctx.today);
    ClosedInWords(was, k, t, a[..], id, ctx.today);
    return true;
  }
}
