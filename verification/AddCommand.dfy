/**
 `add`: candidates from a file, each checked, filled in and appended to the queue,
 at whatever status it asks for.
 */
module AddCommand {
  import opened Tickets
  import opened GateLogic
  import opened Ungating
  import opened QueueCommands

  /** What the command learns about one candidate from outside: inferred fields, the difficulty as a number, the preflight's word, and what the decorators write. */
  datatype Preflight = Preflight(worker: string, role: string, difficulty: int, approved: bool, extras: Body)

  datatype Outcome = Corrupted | Present | BadRole | BadDifficulty | Rejected | Admitted(ticket: Body)

  function ValidRoles(): set<Value> {
    {Text("apprentice"), Text("builder"), Text("creator"), Text("master"), Text("guru")}
  }

  predicate UsableId(id: Value) {
    Truthy(id) && !(id.Text? && "[REDACTED" <= id.text)
  }

  /** Missing keys of a new ticket; a ticket without a status starts in triage. */
  function NewDefaults(now: Stamp): Body {
    map[
      KeyStatus := Stat(Triage),
      KeyOther("created_at") := Text(now),
      KeyOther("created_by") := Null,
      KeyResult := Null,
      KeyDispatchedAt := Null,
      KeyCompletedAt := Null,
      KeyRequiredFiles := Items([]),
      KeyRelatedTo := Null,
      KeyGithubIssue := Null,
      KeyDecisionId := Null,
      KeyGate := Null,
      KeyIntention := Null,
      KeyTargetDifficulty := Num(1.0)
    ]
  }

  /** The decorators write the description and fields of their own, never the fields the queue runs on. */
  function Decorations(extras: Body): Body {
    map k | k in extras && (k.KeyDescription? || k.KeyOther?) :: extras[k]
  }

  function WithWorker(t: Body, worker: string): Body {
    if Get(t, KeyWorker) == Null || Get(t, KeyWorker) == Text("") then t[KeyWorker := Text(worker)] else t
  }

  function WithRole(t: Body, role: string): Body {
    if Truthy(Get(t, KeyRole)) then t else t[KeyRole := Text(role)]
  }

  function Filled(nt: Body, p: Preflight, now: Stamp): Body {
    WithRole(WithWorker(NewDefaults(now) + nt, p.worker), p.role)[KeyTargetDifficulty := Num(p.difficulty as real)] + Decorations(p.extras)
  }

  function Admit(nt: Body, existing: set<Value>, p: Preflight, now: Stamp): Outcome {
    if !UsableId(IdOf(nt)) then Corrupted
    else if IdOf(nt) in existing then Present
    else if Truthy(Get(nt, KeyRole)) && Get(nt, KeyRole) !in ValidRoles() then BadRole
    else if !(1 <= p.difficulty <= 5) then BadDifficulty
    else if !p.approved then Rejected
    else Admitted(Filled(nt, p, now))
  }

  function IdsOf(tasks: seq<Body>): set<Value> {
    set t | t in tasks :: IdOf(t)
  }

  /** Each candidate's fate; ids are checked against the queue as loaded, not against the batch. */
  function Outcomes(nts: seq<Body>, existing: set<Value>, ps: seq<Preflight>, now: Stamp): (os: seq<Outcome>)
    requires |ps| == |nts|
    ensures |os| == |nts| && forall i :: 0 <= i < |os| ==> os[i] == Admit(nts[i], existing, ps[i], now)
  {
    seq(|nts|, i requires 0 <= i < |nts| => Admit(nts[i], existing, ps[i], now))
  }

  /** The tickets among the first `n` outcomes. */
  function Survivors(os: seq<Outcome>, n: nat): seq<Body>
    requires n <= |os|
  {
    if n == 0 then [] else Survivors(os, n - 1) + if os[n - 1].Admitted? then [os[n - 1].ticket] else []
  }

  function Additions(tasks: seq<Body>, nts: seq<Body>, ps: seq<Preflight>, now: Stamp): seq<Body>
    requires |ps| == |nts|
  {
    Survivors(Outcomes(nts, IdsOf(tasks), ps, now), |nts|)
  }

  /** The list `add` saves. */
  function Add(tasks: seq<Body>, nts: seq<Body>, ps: seq<Preflight>, now: Stamp): seq<Body>
    requires |ps| == |nts|
  {
    tasks + Additions(tasks, nts, ps, now)
  }

  method CmdAdd(tasks: seq<Body>, nts: seq<Body>, ps: seq<Preflight>, now: Stamp) returns (saved: seq<Body>, added: nat)
    requires |ps| == |nts|
    ensures saved == Add(tasks, nts, ps, now) && added == |saved| - |tasks|
    ensures exists picked :: PickedOut(tasks, nts, ps, picked) && Appended(tasks, nts, ps, picked, saved)
  {
    AddInWords(tasks, nts, ps, now);
    hide Admit, PickedOut, Appended;
    var existing := IdsOf(tasks);
    ghost var os := Outcomes(nts, existing, ps, now);
    saved, added := tasks, 0;
    var i := 0;
    while i < |nts|
      invariant 0 <= i <= |nts|
      invariant saved == tasks + Survivors(os, i) && added == |saved| - |tasks|
    {
      var o := Admit(nts[i], existing, ps[i], now);
      if o.Admitted? {
        saved := saved + [o.ticket];
        added := added + 1;
      }
      i := i + 1;
    }
  }

  /** Every admitted candidate is among the tickets ... */
  lemma {:induction false} AdmittedIsAdded(os: seq<Outcome>, n: nat, i: nat)
    requires i < n <= |os| && os[i].Admitted?
    ensures os[i].ticket in Survivors(os, n)
  {
    if i < n - 1 {
      AdmittedIsAdded(os, n - 1, i);
    }
  }

  /** ... and nothing else is. */
  lemma {:induction false} AddedWasAdmitted(os: seq<Outcome>, n: nat, t: Body) returns (i: nat)
    requires n <= |os| && t in Survivors(os, n)
    ensures i < n && os[i] == Admitted(t)
  {
    if t in Survivors(os, n - 1) {
      i := AddedWasAdmitted(os, n - 1, t);
    } else {
      i := n - 1;
    }
  }

  // ---- The command in plain words ----

  /** A usable id that the stored queue does not have, a known role or none, a tier from 1 to 5, and a passed preflight. */
  ghost predicate Acceptable(nt: Body, tasks: seq<Body>, p: Preflight) {
    && Truthy(Get(nt, KeyId)) && !(Get(nt, KeyId).Text? && "[REDACTED" <= Get(nt, KeyId).text)
    && (forall t :: t in tasks ==> Get(t, KeyId) != Get(nt, KeyId))
    && (Truthy(Get(nt, KeyRole)) ==>
          Get(nt, KeyRole) == Text("apprentice") || Get(nt, KeyRole) == Text("builder") || Get(nt, KeyRole) == Text("creator")
          || Get(nt, KeyRole) == Text("master") || Get(nt, KeyRole) == Text("guru"))
    && 1 <= p.difficulty <= 5 && p.approved
  }

  /** The candidate as it is added: what it says is kept, and what it leaves open is filled in. */
  ghost predicate FilledAs(nt: Body, t: Body, p: Preflight) {
    && Get(t, KeyId) == Get(nt, KeyId) && Get(t, KeyGate) == Get(nt, KeyGate) && Get(t, KeyIntention) == Get(nt, KeyIntention)
    && Get(t, KeyDecisionId) == Get(nt, KeyDecisionId) && Get(t, KeyResult) == Get(nt, KeyResult)
    && Get(t, KeyProven) == Get(nt, KeyProven) && Get(t, KeyProofId) == Get(nt, KeyProofId)
    && Get(t, KeyUnprovenReason) == Get(nt, KeyUnprovenReason)
    && Get(t, KeyStatus) == (if KeyStatus in nt then nt[KeyStatus] else Stat(Triage))
    && Get(t, KeyWorker) == (if Get(nt, KeyWorker) == Null || Get(nt, KeyWorker) == Text("") then Text(p.worker) else Get(nt, KeyWorker))
    && Get(t, KeyRole) == (if Truthy(Get(nt, KeyRole)) then Get(nt, KeyRole) else Text(p.role))
    && Get(t, KeyTargetDifficulty) == Num(p.difficulty as real)
  }

  /** The places of the acceptable candidates, in order. */
  ghost predicate PickedOut(tasks: seq<Body>, nts: seq<Body>, ps: seq<Preflight>, picked: seq<nat>)
    requires |ps| == |nts|
  {
    && (forall i, j :: 0 <= i < j < |picked| ==> picked[i] < picked[j])
    && (forall i: nat :: i in picked <==> i < |nts| && Acceptable(nts[i], tasks, ps[i]))
  }

  ghost predicate Appended(tasks: seq<Body>, nts: seq<Body>, ps: seq<Preflight>, picked: seq<nat>, saved: seq<Body>)
    requires |ps| == |nts|
  {
    && |saved| == |tasks| + |picked| && saved[..|tasks|] == tasks
    && forall j :: 0 <= j < |picked| ==> picked[j] < |nts| && FilledAs(nts[picked[j]], saved[|tasks| + j], ps[picked[j]])
  }

  lemma FilledInWords(nt: Body, p: Preflight, now: Stamp)
    ensures FilledAs(nt, Filled(nt, p, now), p)
  {
    FillKeepsGateFields(nt, p, now);
    FilledElsewhere(nt, p, now);
  }

  lemma FilledElsewhere(nt: Body, p: Preflight, now: Stamp)
    ensures var t := Filled(nt, p, now);
      && Get(t, KeyResult) == Get(nt, KeyResult) && Get(t, KeyTargetDifficulty) == Num(p.difficulty as real)
      && Get(t, KeyWorker) == (if Get(nt, KeyWorker) == Null || Get(nt, KeyWorker) == Text("") then Text(p.worker) else Get(nt, KeyWorker))
      && Get(t, KeyRole) == (if Truthy(Get(nt, KeyRole)) then Get(nt, KeyRole) else Text(p.role))
  {
    var a := NewDefaults(now) + nt;
    DefaultsElsewhere(nt, now);
    Inferred(a, p.worker, p.role);
    var b := WithRole(WithWorker(a, p.worker), p.role);
    OutsideDecorations(b, Num(p.difficulty as real), p.extras, KeyResult);
    OutsideDecorations(b, Num(p.difficulty as real), p.extras, KeyWorker);
    OutsideDecorations(b, Num(p.difficulty as real), p.extras, KeyRole);
    OutsideDecorations(b, Num(p.difficulty as real), p.extras, KeyTargetDifficulty);
    hide NewDefaults, Decorations, WithRole, WithWorker;
  }

  lemma DefaultsElsewhere(nt: Body, now: Stamp)
    ensures var a := NewDefaults(now) + nt;
      Get(a, KeyResult) == Get(nt, KeyResult) && Get(a, KeyWorker) == Get(nt, KeyWorker) && Get(a, KeyRole) == Get(nt, KeyRole)
  {
  }

  lemma Inferred(a: Body, worker: string, role: string)
    ensures var b := WithRole(WithWorker(a, worker), role);
      && Get(b, KeyResult) == Get(a, KeyResult)
      && Get(b, KeyWorker) == (if Get(a, KeyWorker) == Null || Get(a, KeyWorker) == Text("") then Text(worker) else Get(a, KeyWorker))
      && Get(b, KeyRole) == (if Truthy(Get(a, KeyRole)) then Get(a, KeyRole) else Text(role))
  {
  }

  lemma OutsideDecorations(t: Body, difficulty: Value, extras: Body, k: Key)
    requires !k.KeyDescription? && !k.KeyOther?
    ensures Get(t[KeyTargetDifficulty := difficulty] + Decorations(extras), k) == if k.KeyTargetDifficulty? then difficulty else Get(t, k)
  {
  }

  lemma AdmittedInWords(nt: Body, tasks: seq<Body>, p: Preflight, now: Stamp)
    ensures var o := Admit(nt, IdsOf(tasks), p, now);
      && (o.Admitted? <==> Acceptable(nt, tasks, p)) && (o.Admitted? ==> FilledAs(nt, o.ticket, p))
  {
    FilledInWords(nt, p, now);
    hide Filled;
    assert IdOf(nt) in IdsOf(tasks) <==> exists t :: t in tasks && Get(t, KeyId) == Get(nt, KeyId);
  }

  ghost function Picks(os: seq<Outcome>, n: nat): seq<nat>
    requires n <= |os|
  {
    if n == 0 then [] else Picks(os, n - 1) + if os[n - 1].Admitted? then [n - 1] else []
  }

  lemma {:induction false} PicksAreSurvivors(os: seq<Outcome>, n: nat)
    requires n <= |os|
    ensures var picked := Picks(os, n);
      && |picked| == |Survivors(os, n)|
      && (forall j :: 0 <= j < |picked| ==> picked[j] < n && os[picked[j]] == Admitted(Survivors(os, n)[j]))
      && (forall i, j :: 0 <= i < j < |picked| ==> picked[i] < picked[j])
  {
    if n > 0 {
      PicksAreSurvivors(os, n - 1);
    }
  }

  lemma {:induction false} PicksAreAdmitted(os: seq<Outcome>, n: nat, i: nat)
    requires n <= |os|
    ensures i in Picks(os, n) <==> i < n && os[i].Admitted?
  {
    if n > 0 {
      PicksAreAdmitted(os, n - 1, i);
    }
  }

  lemma AddInWords(tasks: seq<Body>, nts: seq<Body>, ps: seq<Preflight>, now: Stamp)
    requires |ps| == |nts|
    ensures exists picked :: PickedOut(tasks, nts, ps, picked) && Appended(tasks, nts, ps, picked, Add(tasks, nts, ps, now))
  {
    var os := Outcomes(nts, IdsOf(tasks), ps, now);
    var picked := Picks(os, |os|);
    forall i: nat | i < |nts| ensures (os[i].Admitted? <==> Acceptable(nts[i], tasks, ps[i]))
                                 && (os[i].Admitted? ==> FilledAs(nts[i], os[i].ticket, ps[i])) {
      AdmittedInWords(nts[i], tasks, ps[i], now);
    }
    PicksAreSurvivors(os, |os|);
    forall i: nat ensures i in picked <==> i < |os| && os[i].Admitted? {
      PicksAreAdmitted(os, |os|, i);
    }
    hide Acceptable, FilledAs, Admit;
    assert PickedOut(tasks, nts, ps, picked);
    assert Appended(tasks, nts, ps, picked, Add(tasks, nts, ps, now));
  }

  // ---- The gates ----

  /** What slips in: a claimable ticket with no intention, or a closed one with neither proof nor reason. */
  ghost predicate SlipsIn(nt: Body, history: seq<World>) {
    || (HasStatus(nt, Sprint) && !IntentionDeclared(nt))
    || (HasStatus(nt, Closed) && !ClosedHonestly(nt, history))
  }

  predicate IsGateField(k: Key) {
    k.KeyId? || k.KeyStatus? || k.KeyGate? || k.KeyDecisionId? || k.KeyIntention? || k.KeyProven? || k.KeyProofId? || k.KeyUnprovenReason?
  }

  lemma DefaultsAtGateField(k: Key, now: Stamp)
    requires IsGateField(k)
    ensures Get(NewDefaults(now), k) == if k.KeyStatus? then Stat(Triage) else Null
  {
  }

  lemma InferenceKeeps(t: Body, worker: string, role: string, k: Key)
    requires IsGateField(k)
    ensures Get(WithRole(WithWorker(t, worker), role), k) == Get(t, k)
  {
  }

  /** Filling in and decorating change nothing the gates look at, except that a missing status becomes triage. */
  lemma FillKeepsGateField(nt: Body, p: Preflight, now: Stamp, k: Key)
    requires IsGateField(k)
    ensures Get(Filled(nt, p, now), k) == if k in nt || !k.KeyStatus? then Get(nt, k) else Stat(Triage)
  {
    var t := NewDefaults(now) + nt;
    DefaultsAtGateField(k, now);
    assert Get(t, k) == if k in nt then nt[k] else Get(NewDefaults(now), k);
    InferenceKeeps(t, p.worker, p.role, k);
    OutsideDecorations(WithRole(WithWorker(t, p.worker), p.role), Num(p.difficulty as real), p.extras, k);
  }

  lemma FillKeepsGateFields(nt: Body, p: Preflight, now: Stamp)
    ensures var t := Filled(nt, p, now);
      && IdOf(t) == IdOf(nt)
      && Get(t, KeyStatus) == (if KeyStatus in nt then nt[KeyStatus] else Stat(Triage))
      && Get(t, KeyGate) == Get(nt, KeyGate) && Get(t, KeyDecisionId) == Get(nt, KeyDecisionId)
      && Get(t, KeyIntention) == Get(nt, KeyIntention) && Get(t, KeyProven) == Get(nt, KeyProven)
      && Get(t, KeyProofId) == Get(nt, KeyProofId) && Get(t, KeyUnprovenReason) == Get(nt, KeyUnprovenReason)
  {
    forall k | IsGateField(k) ensures Get(Filled(nt, p, now), k) == if k in nt || !k.KeyStatus? then Get(nt, k) else Stat(Triage) {
      FillKeepsGateField(nt, p, now, k);
    }
    assert IsGateField(KeyId) && IsGateField(KeyStatus) && IsGateField(KeyGate) && IsGateField(KeyDecisionId);
    assert IsGateField(KeyIntention) && IsGateField(KeyProven) && IsGateField(KeyProofId) && IsGateField(KeyUnprovenReason);
  }

  lemma HonestyAgrees(t: Body, u: Body, history: seq<World>)
    requires IdOf(u) == IdOf(t) && Get(u, KeyProven) == Get(t, KeyProven)
    requires Get(u, KeyProofId) == Get(t, KeyProofId) && Get(u, KeyUnprovenReason) == Get(t, KeyUnprovenReason)
    requires ClosedHonestly(t, history)
    ensures ClosedHonestly(u, history)
  {
    if Get(t, KeyProven) == Flag(true) {
      var k :| 0 <= k < |history| && AcceptedIn(t, history[k]);
      assert AcceptedIn(u, history[k]);
    }
  }

  lemma FilledIsGatedIff(nt: Body, p: Preflight, now: Stamp, history: seq<World>)
    requires Typed(nt)
    ensures Gated(Filled(nt, p, now), history) <==> !SlipsIn(nt, history)
  {
    var t := Filled(nt, p, now);
    FillKeepsGateFields(nt, p, now);
    if ClosedHonestly(nt, history) {
      HonestyAgrees(nt, t, history);
    }
    if ClosedHonestly(t, history) {
      HonestyAgrees(t, nt, history);
    }
  }

  lemma AdmittedIsFilled(nt: Body, existing: set<Value>, p: Preflight, now: Stamp)
    ensures var o := Admit(nt, existing, p, now);
      o.Admitted? ==> o.ticket == Filled(nt, p, now) && IdOf(o.ticket) == IdOf(nt) && UsableId(IdOf(nt)) && IdOf(nt) !in existing
  {
    FillKeepsGateFields(nt, p, now);
  }

  lemma AdmittedIsGatedIff(nt: Body, existing: set<Value>, p: Preflight, now: Stamp, history: seq<World>)
    requires Typed(nt)
    ensures var o := Admit(nt, existing, p, now); o.Admitted? ==> (Gated(o.ticket, history) <==> !SlipsIn(nt, history))
  {
    AdmittedIsFilled(nt, existing, p, now);
    FilledIsGatedIff(nt, p, now, history);
  }

  /** The candidate at `i` gets past every check. */
  predicate Admits(tasks: seq<Body>, nts: seq<Body>, ps: seq<Preflight>, now: Stamp, i: nat)
    requires i < |nts| == |ps|
  {
    Admit(nts[i], IdsOf(tasks), ps[i], now).Admitted?
  }

  /**
   `add` keeps both gates on the whole queue exactly when no candidate it admits asks for `sprint` without an intention
   or for `closed` without proof or reason; a candidate that names no status is always safe.
   */
  lemma AddKeepsGatesIff(tasks: seq<Body>, nts: seq<Body>, ps: seq<Preflight>, now: Stamp, history: seq<World>)
    requires AllGated(tasks, history) && |ps| == |nts| && AllTyped(nts)
    ensures AllGated(Add(tasks, nts, ps, now), history)
       <==> forall i :: 0 <= i < |nts| && Admits(tasks, nts, ps, now, i) ==> !SlipsIn(nts[i], history)
  {
    var os := Outcomes(nts, IdsOf(tasks), ps, now);
    forall i | 0 <= i < |nts| ensures os[i].Admitted? ==> (Gated(os[i].ticket, history) <==> !SlipsIn(nts[i], history)) {
      assert nts[i] in nts;
      AdmittedIsGatedIff(nts[i], IdsOf(tasks), ps[i], now, history);
    }
    GatedAdditionsIff(tasks, os, history);
    assert forall i :: 0 <= i < |nts| ==> (Admits(tasks, nts, ps, now, i) <==> os[i].Admitted?);
  }

  lemma GatedAdditionsIff(tasks: seq<Body>, os: seq<Outcome>, history: seq<World>)
    requires AllGated(tasks, history)
    ensures AllGated(tasks + Survivors(os, |os|), history) <==> forall i :: 0 <= i < |os| && os[i].Admitted? ==> Gated(os[i].ticket, history)
  {
    var more := Survivors(os, |os|);
    if AllGated(tasks + more, history) {
      forall i | 0 <= i < |os| && os[i].Admitted? ensures Gated(os[i].ticket, history) {
        AdmittedIsAdded(os, |os|, i);
        assert os[i].ticket in tasks + more;
      }
    }
    if forall i :: 0 <= i < |os| && os[i].Admitted? ==> Gated(os[i].ticket, history) {
      forall t | t in tasks + more ensures Gated(t, history) {
        if t !in tasks {
          var i := AddedWasAdmitted(os, |os|, t);
        }
      }
    }
  }

  /** A plain candidate for `closed` always slips in: no proof is looked up for it. */
  lemma PlainClosedSlipsIn(nt: Body, history: seq<World>)
    requires HasStatus(nt, Closed) && Get(nt, KeyProven).Null?
    ensures SlipsIn(nt, history)
  {
  }

  // ---- Ids ----

  lemma AdditionsAreNew(tasks: seq<Body>, nts: seq<Body>, ps: seq<Preflight>, now: Stamp, t: Body)
    requires |ps| == |nts| && t in Additions(tasks, nts, ps, now)
    ensures UsableId(IdOf(t)) && IdOf(t) !in IdsOf(tasks)
  {
    var i := AddedWasAdmitted(Outcomes(nts, IdsOf(tasks), ps, now), |nts|, t);
    AdmittedIsFilled(nts[i], IdsOf(tasks), ps[i], now);
  }

  /** No stored ticket is touched or shadowed, but a batch may name a new id twice: ids stay unique exactly when it does not. */
  lemma AddKeepsIdsUniqueIff(tasks: seq<Body>, nts: seq<Body>, ps: seq<Preflight>, now: Stamp)
    requires UniqueIds(tasks) && |ps| == |nts|
    ensures tasks <= Add(tasks, nts, ps, now)
    ensures UniqueIds(Add(tasks, nts, ps, now)) <==> UniqueIds(Additions(tasks, nts, ps, now))
  {
    var more := Additions(tasks, nts, ps, now);
    var all := tasks + more;
    forall t | t in more ensures IdOf(t) !in IdsOf(tasks) {
      AdditionsAreNew(tasks, nts, ps, now, t);
    }
    if UniqueIds(all) {
      forall i, j | 0 <= i < j < |more| ensures IdOf(more[i]) != IdOf(more[j]) {
        assert all[|tasks| + i] == more[i] && all[|tasks| + j] == more[j];
      }
    }
    if UniqueIds(more) {
      forall i, j | 0 <= i < j < |all| ensures IdOf(all[i]) != IdOf(all[j]) {
        if i < |tasks| <= j {
          assert all[i] in tasks && IdOf(all[i]) in IdsOf(tasks) && all[j] == more[j - |tasks|] && more[j - |tasks|] in more;
        } else if |tasks| <= i {
          assert all[i] == more[i - |tasks|] && all[j] == more[j - |tasks|];
        }
      }
    }
  }
}
