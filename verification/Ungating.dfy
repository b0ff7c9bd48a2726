/**
 Closing a ticket releases the tickets gated on it: one in-place pass over the
 loaded list, testing each gate against the list as it is being changed.
 */
module Ungating {
  import opened Tickets
  import opened TextLines
  import opened GateLogic

  const NO_INTENTION: Value := Text("no intention \U{2014} cannot be proven; design incomplete")

  ghost predicate GatesAreText(tasks: seq<Body>) {
    forall t :: t in tasks ==> GateIsText(t)
  }

  predicate GateIsText(t: Body) {
    Get(t, KeyGate).Null? || Get(t, KeyGate).Text?
  }

  // ---- One ticket ----

  /** An automatic path never strands a ticket: without an intention it is diverted to the design step. */
  function Divert(t: Body): Body {
    t[KeyStatus := Stat(Triage)][KeyFailReason := NO_INTENTION]
  }

  /** A ticket whose gate is gone leaves the `dependency` limbo. */
  function FlipUngated(t: Body): Body {
    if HasStatus(t, Dependency) && !Truthy(Get(t, KeyGate)) then
      if IntentionDeclared(t) then t[KeyStatus := Stat(Sprint)] else Divert(t)
    else t
  }

  /** What a release leaves of a ticket: no gate, out of `dependency` if it was there, and nothing else changed. */
  ghost predicate LetGo(was: Body, t: Body) {
    && Get(t, KeyGate) == Null
    && (if !HasStatus(was, Dependency) then SameBut(was, t, {KeyGate})
        else if IntentionDeclared(was) then HasStatus(t, Sprint) && SameBut(was, t, {KeyGate, KeyStatus})
        else HasStatus(t, Triage) && Get(t, KeyFailReason) == NO_INTENTION && SameBut(was, t, {KeyGate, KeyStatus, KeyFailReason}))
  }

  predicate Released(t: Body, tasks: seq<Body>, closedId: string, today: int)
    requires GateIsText(t)
  {
    var gate := Get(t, KeyGate);
    !TerminalBody(t) && Truthy(gate) && closedId in IdTokens(gate.text) && GateClear(gate, tasks, today)
  }

  function UngateOne(t: Body, tasks: seq<Body>, closedId: string, today: int): Body
    requires GateIsText(t)
  {
    if Released(t, tasks, closedId, today) then FlipUngated(t[KeyGate := Null]) else t
  }

  function UngateAll(tasks: seq<Body>, closedId: string, today: int): seq<Body>
    requires GatesAreText(tasks)
  {
    seq(|tasks|, i requires 0 <= i < |tasks| => UngateOne(tasks[i], tasks, closedId, today))
  }

  /** How many of the first `n` tickets the pass releases. */
  function CountReleased(tasks: seq<Body>, n: nat, closedId: string, today: int): nat
    requires GatesAreText(tasks) && n <= |tasks|
  {
    if n == 0 then 0
    else
      assert tasks[n - 1] in tasks;
      CountReleased(tasks, n - 1, closedId, today) + if Released(tasks[n - 1], tasks, closedId, today) then 1 else 0
  }

  // ---- A gate looks at the list only through which ids are done ----

  ghost predicate SameDone(xs: seq<Body>, ys: seq<Body>) {
    |xs| == |ys|
    && forall i :: 0 <= i < |xs| ==> IdOf(xs[i]) == IdOf(ys[i]) && (TerminalBody(xs[i]) <==> TerminalBody(ys[i]))
  }

  lemma {:induction false} SameDoneIds(xs: seq<Body>, ys: seq<Body>, tid: string)
    requires SameDone(xs, ys)
    ensures IdDone(xs, tid) <==> IdDone(ys, tid)
  {
    if xs != [] {
      var n := |xs| - 1;
      SameDoneIds(xs[..n], ys[..n], tid);
    }
  }

  lemma SameDoneGates(xs: seq<Body>, ys: seq<Body>, gate: Value, today: int)
    requires SameDone(xs, ys) && (gate.Null? || gate.Text?)
    ensures GateClear(gate, xs, today) <==> GateClear(gate, ys, today)
  {
    forall tid ensures IdDone(xs, tid) <==> IdDone(ys, tid) {
      SameDoneIds(xs, ys, tid);
    }
  }

  /** A flip never makes a status terminal, and never touches the id. */
  lemma FlipKeepsDone(t: Body)
    ensures IdOf(FlipUngated(t[KeyGate := Null])) == IdOf(t)
    ensures TerminalBody(FlipUngated(t[KeyGate := Null])) <==> TerminalBody(t)
    ensures GateIsText(FlipUngated(t[KeyGate := Null])) && !Truthy(Get(FlipUngated(t[KeyGate := Null]), KeyGate))
  {
  }

  /** `_guard_sprint_entry`: allows the entry, or has already diverted the ticket. */
  method GuardSprintEntry(a: array<Body>, i: nat) returns (allowed: bool)
    requires i < a.Length
    modifies a
    ensures allowed <==> IntentionDeclared(old(a[i]))
    ensures a[..] == old(a[..])[i := if allowed then old(a[i]) else Divert(old(a[i]))]
    ensures !allowed ==> HasStatus(a[i], Triage) && Get(a[i], KeyFailReason) == NO_INTENTION
                         && SameBut(old(a[i]), a[i], {KeyStatus, KeyFailReason})
  {
    allowed := IntentionDeclared(a[i]);
    if !allowed {
      a[i] := a[i][KeyStatus := Stat(Triage)];
      a[i] := a[i][KeyFailReason := NO_INTENTION];
    }
  }

  method FlipUngatedToSprint(a: array<Body>, i: nat) returns (flipped: bool)
    requires i < a.Length
    modifies a
    ensures a[..] == old(a[..])[i := FlipUngated(old(a[i]))]
    ensures flipped <==> HasStatus(old(a[i]), Dependency) && !Truthy(Get(old(a[i]), KeyGate)) && IntentionDeclared(old(a[i]))
    ensures flipped ==> HasStatus(a[i], Sprint) && SameBut(old(a[i]), a[i], {KeyStatus})
    ensures HasStatus(old(a[i]), Dependency) && !Truthy(Get(old(a[i]), KeyGate)) && !IntentionDeclared(old(a[i])) ==>
      HasStatus(a[i], Triage) && Get(a[i], KeyFailReason) == NO_INTENTION && SameBut(old(a[i]), a[i], {KeyStatus, KeyFailReason})
    ensures !HasStatus(old(a[i]), Dependency) || Truthy(Get(old(a[i]), KeyGate)) ==> a[i] == old(a[i])
  {
    if HasStatus(a[i], Dependency) && !Truthy(Get(a[i], KeyGate)) {
      var allowed := GuardSprintEntry(a, i);
      if !allowed {
        return false;
      }
      a[i] := a[i][KeyStatus := Stat(Sprint)];
      return true;
    }
    return false;
  }

  lemma PassPrefix(tasks: seq<Body>, closedId: string, today: int, i: nat, now: seq<Body>)
    requires GatesAreText(tasks) && i < |tasks|
    requires now == UngateAll(tasks, closedId, today)[..i] + tasks[i..]
    ensures GateIsText(tasks[i]) && now[i] == tasks[i] && SameDone(now, tasks)
    ensures Released(tasks[i], now, closedId, today) <==> Released(tasks[i], tasks, closedId, today)
    ensures now[i := UngateOne(tasks[i], now, closedId, today)]
         == UngateAll(tasks, closedId, today)[..i + 1] + tasks[i + 1..]
  {
    assert tasks[i] in tasks;
    PassKeepsDone(tasks, closedId, today);
    SameDoneGates(now, tasks, Get(tasks[i], KeyGate), today);
  }

  /** One iteration of the pass. */
  method UngateAt(a: array<Body>, i: nat, closedId: string, today: int) returns (released: bool)
    requires i < a.Length && GateIsText(a[i])
    modifies a
    ensures released <==> Released(old(a[i]), old(a[..]), closedId, today)
    ensures a[..] == old(a[..])[i := UngateOne(old(a[i]), old(a[..]), closedId, today)]
  {
    if TerminalBody(a[i]) {
      return false;
    }
    var gate := Get(a[i], KeyGate);
    if !Truthy(gate) {
      return false;
    }
    if closedId !in IdTokens(gate.text) {
      return false;
    }
    if GateClear(gate, a[..], today) {
      a[i] := a[i][KeyGate := Null];
      var _ := FlipUngatedToSprint(a, i);
      return true;
    }
    return false;
  }

  /** The list when the pass has treated its first `i` tickets. */
  ghost function Progress(was: seq<Body>, closedId: string, today: int, i: nat): (now: seq<Body>)
    requires GatesAreText(was) && i <= |was|
    ensures |now| == |was|
  {
    if i == 0 then was
    else
      assert was[i - 1] in was;
      Progress(was, closedId, today, i - 1)[i - 1 := UngateOne(was[i - 1], was, closedId, today)]
  }

  lemma {:induction false} ProgressIs(was: seq<Body>, closedId: string, today: int, i: nat)
    requires GatesAreText(was) && i <= |was|
    ensures Progress(was, closedId, today, i) == UngateAll(was, closedId, today)[..i] + was[i..]
  {
    if i > 0 {
      hide GatesAreText, UngateOne;
      ProgressIs(was, closedId, today, i - 1);
      TakeOneMore(UngateAll(was, closedId, today), was, i - 1);
    }
  }

  lemma TakeOneMore<T>(all: seq<T>, was: seq<T>, i: nat)
    requires i < |all| == |was|
    ensures (all[..i] + was[i..])[i := all[i]] == all[..i + 1] + was[i + 1..]
  {
  }

  lemma ProgressEnds(was: seq<Body>, closedId: string, today: int)
    requires GatesAreText(was)
    ensures Progress(was, closedId, today, |was|) == UngateAll(was, closedId, today)
  {
    ProgressIs(was, closedId, today, |was|);
  }

  /** The half-updated list answers each gate as the list at the start would. */
  method UngateStep(a: array<Body>, i: nat, closedId: string, today: int, ghost was: seq<Body>) returns (released: bool)
    requires GatesAreText(was) && i < a.Length == |was| && a[..] == Progress(was, closedId, today, i)
    modifies a
    ensures a[..] == Progress(was, closedId, today, i + 1)
    ensures GateIsText(was[i]) && (released <==> Released(was[i], was, closedId, today))
  {
    ghost var now := a[..];
    ProgressIs(was, closedId, today, i);
    ProgressIs(was, closedId, today, i + 1);
    PassPrefix(was, closedId, today, i, now);
    assert a[i] == now[i];
    released := UngateAt(a, i, closedId, today);
  }

  /** The in-place pass, testing each gate on the half-updated list, is the simultaneous update. */
  method UngateDependents(a: array<Body>, closedId: string, today: int) returns (ungated: nat)
    requires GatesAreText(a[..])
    modifies a
    ensures a[..] == UngateAll(old(a[..]), closedId, today)
    ensures ungated == CountReleased(old(a[..]), a.Length, closedId, today)
    ensures ungated == |set i | 0 <= i < a.Length && a[i] != old(a[..])[i]|
    ensures forall i :: 0 <= i < a.Length ==>
      var was := old(a[..])[i]; var gate := Get(was, KeyGate);
      && (gate.Null? || gate.Text?)
      && (if !TerminalBody(was) && Truthy(gate) && closedId in IdTokens(gate.text) && GateClear(gate, old(a[..]), today)
          then LetGo(was, a[i]) else a[i] == was)
  {
    ghost var was := a[..];
    ungated := 0;
    var i := 0;
    while i < a.Length
      invariant 0 <= i <= a.Length
      invariant a[..] == Progress(was, closedId, today, i)
      invariant ungated == CountReleased(was, i, closedId, today)
    {
      var released := UngateStep(a, i, closedId, today, was);
      if released {
        ungated := ungated + 1;
      }
      i := i + 1;
    }
    ProgressEnds(was, closedId, today);
    PassInWords(was, a[..], closedId, today);
    assert (set i | 0 <= i < a.Length && a[i] != was[i]) == (set i | 0 <= i < |was| && a[..][i] != was[i]);
  }

  lemma PassInWords(was: seq<Body>, now: seq<Body>, closedId: string, today: int)
    requires GatesAreText(was) && now == UngateAll(was, closedId, today)
    ensures CountReleased(was, |was|, closedId, today) == |set i | 0 <= i < |was| && now[i] != was[i]|
    ensures forall i :: 0 <= i < |was| ==>
      var gate := Get(was[i], KeyGate);
      && (gate.Null? || gate.Text?)
      && (if !TerminalBody(was[i]) && Truthy(gate) && closedId in IdTokens(gate.text) && GateClear(gate, was, today)
          then LetGo(was[i], now[i]) else now[i] == was[i])
  {
    hide GateClear, IdTokens, FlipUngated;
    forall i | 0 <= i < |was| ensures GateIsText(was[i])
        && (if Released(was[i], was, closedId, today) then LetGo(was[i], now[i]) && now[i] != was[i] else now[i] == was[i]) {
      assert was[i] in was;
      FlipLetsGo(was[i]);
    }
    CountIsSize(was, |was|, closedId, today);
    assert (set i | 0 <= i < |was| && now[i] != was[i]) == ReleasedPlaces(was, |was|, closedId, today);
  }

  lemma FlipLetsGo(t: Body)
    ensures LetGo(t, FlipUngated(t[KeyGate := Null]))
  {
  }

  lemma {:induction false} CountIsSize(tasks: seq<Body>, n: nat, closedId: string, today: int)
    requires GatesAreText(tasks) && n <= |tasks|
    ensures CountReleased(tasks, n, closedId, today) == |ReleasedPlaces(tasks, n, closedId, today)|
  {
    hide Released;
    if n > 0 {
      CountIsSize(tasks, n - 1, closedId, today);
      assert tasks[n - 1] in tasks;
      var before, after := ReleasedPlaces(tasks, n - 1, closedId, today), ReleasedPlaces(tasks, n, closedId, today);
      assert after == if Released(tasks[n - 1], tasks, closedId, today) then before + {n - 1} else before;
    }
  }

  ghost function ReleasedPlaces(tasks: seq<Body>, n: nat, closedId: string, today: int): set<int>
    requires GatesAreText(tasks) && n <= |tasks|
  {
    set i | 0 <= i < n && tasks[i] in tasks && Released(tasks[i], tasks, closedId, today)
  }

  // ---- One pass: list order does not matter, and a second pass does nothing ----

  ghost predicate UniqueIds(tasks: seq<Body>) {
    forall i, j :: 0 <= i < j < |tasks| ==> IdOf(tasks[i]) != IdOf(tasks[j])
  }

  lemma {:induction false} IdDoneByMember(tasks: seq<Body>, tid: string)
    requires UniqueIds(tasks)
    ensures IdDone(tasks, tid) <==> exists t :: t in tasks && IdOf(t) == Text(tid) && TerminalBody(t)
  {
    if tasks != [] {
      var n := |tasks| - 1;
      assert tasks == tasks[..n] + [tasks[n]];
      IdDoneByMember(tasks[..n], tid);
    }
  }

  /** Two orderings of the same queue release the same tickets. */
  lemma PassIgnoresListOrder(xs: seq<Body>, ys: seq<Body>, closedId: string, today: int, t: Body)
    requires UniqueIds(xs) && UniqueIds(ys) && (forall b :: b in xs <==> b in ys) && GateIsText(t)
    ensures UngateOne(t, xs, closedId, today) == UngateOne(t, ys, closedId, today)
  {
    forall tid ensures IdDone(xs, tid) <==> IdDone(ys, tid) {
      IdDoneByMember(xs, tid);
      IdDoneByMember(ys, tid);
    }
  }

  lemma PassKeepsDone(tasks: seq<Body>, closedId: string, today: int)
    requires GatesAreText(tasks)
    ensures SameDone(UngateAll(tasks, closedId, today), tasks) && GatesAreText(UngateAll(tasks, closedId, today))
  {
    var ys := UngateAll(tasks, closedId, today);
    forall i | 0 <= i < |tasks| ensures IdOf(ys[i]) == IdOf(tasks[i]) && GateIsText(ys[i])
                                        && (TerminalBody(ys[i]) <==> TerminalBody(tasks[i])) {
      assert tasks[i] in tasks;
      FlipKeepsDone(tasks[i]);
    }
  }

  lemma PassIsIdempotent(tasks: seq<Body>, closedId: string, today: int)
    requires GatesAreText(tasks)
    ensures GatesAreText(UngateAll(tasks, closedId, today))
    ensures UngateAll(UngateAll(tasks, closedId, today), closedId, today) == UngateAll(tasks, closedId, today)
  {
    var ys := UngateAll(tasks, closedId, today);
    PassKeepsDone(tasks, closedId, today);
    forall i | 0 <= i < |ys| ensures UngateOne(ys[i], ys, closedId, today) == ys[i] {
      assert tasks[i] in tasks && ys[i] in ys;
      FlipKeepsDone(tasks[i]);
      SameDoneGates(ys, tasks, Get(ys[i], KeyGate), today);
    }
  }

  // ---- Closing a set of tickets, in any order ----

  /** `stamp` is whatever a close does to the closed ticket itself. */
  ghost predicate Closes(stamp: Body -> Body) {
    forall b :: IdOf(stamp(b)) == IdOf(b) && TerminalBody(stamp(b)) && (GateIsText(b) ==> GateIsText(stamp(b)))
  }

  /** One close: the ticket, and what this close writes on it. */
  datatype Closing = Closing(id: string, stamp: Body -> Body)

  ghost predicate AllClose(order: seq<Closing>) {
    forall i :: 0 <= i < |order| ==> Closes(order[i].stamp)
  }

  /** The plainest close. */
  function Shut(b: Body): Body {
    b[KeyStatus := Stat(Closed)]
  }

  lemma ShutCloses()
    ensures Closes(Shut)
  {
  }

  predicate IsOneOf(t: Body, cs: set<string>) {
    IdOf(t).Text? && IdOf(t).text in cs
  }

  function Mark(tasks: seq<Body>, cs: set<string>, stamp: Body -> Body): seq<Body> {
    seq(|tasks|, i requires 0 <= i < |tasks| => if IsOneOf(tasks[i], cs) then stamp(tasks[i]) else tasks[i])
  }

  predicate Known(tasks: seq<Body>, c: string) {
    exists t :: t in tasks && IdOf(t) == Text(c)
  }

  /** Close one ticket (an unknown id is refused) and run the pass. */
  ghost function CloseOne(tasks: seq<Body>, c: Closing, today: int): seq<Body>
    requires GatesAreText(tasks) && Closes(c.stamp)
  {
    if Known(tasks, c.id) then
      MarkKeepsText(tasks, {c.id}, c.stamp);
      UngateAll(Mark(tasks, {c.id}, c.stamp), c.id, today)
    else tasks
  }

  lemma MarkKeepsText(tasks: seq<Body>, cs: set<string>, stamp: Body -> Body)
    requires GatesAreText(tasks) && Closes(stamp)
    ensures GatesAreText(Mark(tasks, cs, stamp))
  {
    var ys := Mark(tasks, cs, stamp);
    forall i | 0 <= i < |ys| ensures GateIsText(ys[i]) {
      assert tasks[i] in tasks;
    }
  }

  lemma CloseOneKeepsText(tasks: seq<Body>, c: Closing, today: int)
    requires GatesAreText(tasks) && Closes(c.stamp)
    ensures GatesAreText(CloseOne(tasks, c, today))
  {
    if Known(tasks, c.id) {
      MarkKeepsText(tasks, {c.id}, c.stamp);
      PassKeepsDone(Mark(tasks, {c.id}, c.stamp), c.id, today);
    }
  }

  ghost function CloseAll(tasks: seq<Body>, order: seq<Closing>, today: int): (r: seq<Body>)
    requires GatesAreText(tasks) && AllClose(order)
    ensures GatesAreText(r)
  {
    if order == [] then tasks
    else
      var n := |order| - 1;
      var before := CloseAll(tasks, order[..n], today);
      CloseOneKeepsText(before, order[n], today);
      CloseOne(before, order[n], today)
  }

  ghost function Members(order: seq<Closing>): set<string> {
    set i | 0 <= i < |order| :: order[i].id
  }

  lemma MembersStep(order: seq<Closing>)
    requires order != []
    ensures Members(order) == Members(order[..|order| - 1]) + {order[|order| - 1].id}
  {
    var n := |order| - 1;
    forall c ensures c in Members(order) <==> c in Members(order[..n]) + {order[n].id} {
      if c in Members(order) {
        var i :| 0 <= i < |order| && order[i].id == c;
        assert i < n ==> order[..n][i].id == c;
      }
      if c in Members(order[..n]) {
        var i :| 0 <= i < n && order[..n][i].id == c;
        assert order[i].id == c;
      }
    }
  }

  /** The closed form: released iff the gate names a closed member and is clear once all of them are closed. */
  ghost predicate ReleasedAtEnd(t: Body, tasks: seq<Body>, cs: set<string>, today: int)
    requires GateIsText(t)
  {
    var gate := Get(t, KeyGate);
    && !TerminalBody(t) && Truthy(gate)
    && (exists c :: c in cs && Known(tasks, c) && c in IdTokens(gate.text))
    && GateClear(gate, Mark(tasks, cs, Shut), today)
  }

  ghost function AtEnd(t: Body, tasks: seq<Body>, cs: set<string>, today: int): Body
    requires GateIsText(t)
  {
    if ReleasedAtEnd(t, tasks, cs, today) then FlipUngated(t[KeyGate := Null]) else t
  }

  lemma {:induction false} MarkedIds(tasks: seq<Body>, cs: set<string>, stamp: Body -> Body, tid: string)
    requires Closes(stamp)
    ensures IdDone(Mark(tasks, cs, stamp), tid) <==> (tid in cs && Known(tasks, tid)) || IdDone(tasks, tid)
  {
    if tasks != [] {
      var n := |tasks| - 1;
      var ys := Mark(tasks, cs, stamp);
      assert ys[..n] == Mark(tasks[..n], cs, stamp);
      assert tasks == tasks[..n] + [tasks[n]];
      assert tasks[n] in tasks;
      MarkedIds(tasks[..n], cs, stamp, tid);
    }
  }

  lemma MarkAt(tasks: seq<Body>, cs: set<string>, stamp: Body -> Body, i: nat)
    requires Closes(stamp) && i < |tasks|
    ensures IdOf(Mark(tasks, cs, stamp)[i]) == IdOf(tasks[i])
    ensures TerminalBody(Mark(tasks, cs, stamp)[i]) <==> IsOneOf(tasks[i], cs) || TerminalBody(tasks[i])
  {
  }

  /** One more close on both sides: the half-closed list stays level with the list marked all at once. */
  lemma CloseKeepsLevel(tasks: seq<Body>, before: seq<Body>, cs: set<string>, c: Closing, today: int)
    requires GatesAreText(before) && Closes(c.stamp) && SameDone(before, Mark(tasks, cs, Shut))
    requires forall x :: Known(before, x) <==> Known(tasks, x)
    ensures SameDone(CloseOne(before, c, today), Mark(tasks, cs + {c.id}, Shut))
    ensures forall x :: Known(CloseOne(before, c, today), x) <==> Known(tasks, x)
  {
    var after := CloseOne(before, c, today);
    ShutCloses();
    if Known(before, c.id) {
      MarkKeepsText(before, {c.id}, c.stamp);
      PassKeepsDone(Mark(before, {c.id}, c.stamp), c.id, today);
    }
    forall i | 0 <= i < |tasks| ensures IdOf(after[i]) == IdOf(tasks[i])
      && (TerminalBody(after[i]) <==> TerminalBody(Mark(tasks, cs + {c.id}, Shut)[i])) {
      assert before[i] in before;
      MarkAt(tasks, cs, Shut, i);
      MarkAt(tasks, cs + {c.id}, Shut, i);
      MarkAt(before, {c.id}, c.stamp, i);
      assert IsOneOf(tasks[i], cs + {c.id}) <==> IsOneOf(tasks[i], cs) || IsOneOf(tasks[i], {c.id});
    }
    KnownBySameIds(after, before);
  }

  /** After closing in some order, which ids are done is what marking the whole set at once says. */
  lemma {:induction false} DoneAfterClosing(tasks: seq<Body>, order: seq<Closing>, today: int)
    requires GatesAreText(tasks) && AllClose(order)
    ensures SameDone(CloseAll(tasks, order, today), Mark(tasks, Members(order), Shut))
    ensures forall c :: Known(CloseAll(tasks, order, today), c) <==> Known(tasks, c)
  {
    if order == [] {
      assert Members(order) == {};
      assert Mark(tasks, {}, Shut) == tasks;
    } else {
      var n := |order| - 1;
      DoneAfterClosing(tasks, order[..n], today);
      MembersStep(order);
      CloseKeepsLevel(tasks, CloseAll(tasks, order[..n], today), Members(order[..n]), order[n], today);
    }
  }

  lemma KnownBySameIds(xs: seq<Body>, ys: seq<Body>)
    requires |xs| == |ys| && forall i :: 0 <= i < |xs| ==> IdOf(xs[i]) == IdOf(ys[i])
    ensures forall c :: Known(xs, c) <==> Known(ys, c)
  {
    forall c ensures Known(xs, c) <==> Known(ys, c) {
      if t :| t in xs && IdOf(t) == Text(c) {
        var i :| 0 <= i < |xs| && xs[i] == t;
        assert ys[i] in ys;
      }
      if t :| t in ys && IdOf(t) == Text(c) {
        var i :| 0 <= i < |ys| && ys[i] == t;
        assert xs[i] in xs;
      }
    }
  }

  /**
   Closing a set of tickets, in any order and on one day, each with whatever its own close writes on it, leaves every
   ticket outside the set exactly as the closed form says.
   */
  lemma {:induction false} ClosingHasClosedForm(tasks: seq<Body>, order: seq<Closing>, today: int, i: nat)
    requires GatesAreText(tasks) && AllClose(order) && i < |tasks| && !IsOneOf(tasks[i], Members(order))
    ensures GateIsText(tasks[i]) && |CloseAll(tasks, order, today)| == |tasks|
    ensures CloseAll(tasks, order, today)[i] == AtEnd(tasks[i], tasks, Members(order), today)
  {
    assert tasks[i] in tasks;
    DoneAfterClosing(tasks, order, today);
    if order != [] {
      var n := |order| - 1;
      var before := CloseAll(tasks, order[..n], today);
      MembersStep(order);
      ClosingHasClosedForm(tasks, order[..n], today, i);
      DoneAfterClosing(tasks, order[..n], today);
      ClosingStep(tasks, before, Members(order[..n]), order[n], today, i);
    }
  }

  /** Which ids are done once `c` is closed too, on the marked list and on the half-closed one. */
  lemma DoneWithOneMore(tasks: seq<Body>, before: seq<Body>, cs: set<string>, c: Closing, tid: string)
    requires Closes(c.stamp) && SameDone(before, Mark(tasks, cs, Shut))
    requires forall x :: Known(before, x) <==> Known(tasks, x)
    ensures IdDone(Mark(tasks, cs + {c.id}, Shut), tid) <==> IdDone(Mark(tasks, cs, Shut), tid) || (tid == c.id && Known(tasks, c.id))
    ensures IdDone(Mark(before, {c.id}, c.stamp), tid) <==> IdDone(Mark(tasks, cs + {c.id}, Shut), tid)
  {
    ShutCloses();
    MarkedIds(tasks, cs, Shut, tid);
    MarkedIds(tasks, cs + {c.id}, Shut, tid);
    MarkedIds(before, {c.id}, c.stamp, tid);
    SameDoneIds(before, Mark(tasks, cs, Shut), tid);
  }

  lemma ClosingStep(tasks: seq<Body>, before: seq<Body>, cs: set<string>, c: Closing, today: int, i: nat)
    requires GatesAreText(tasks) && GatesAreText(before) && Closes(c.stamp) && i < |tasks| == |before|
    requires GateIsText(tasks[i]) && !IsOneOf(tasks[i], cs + {c.id})
    requires before[i] == AtEnd(tasks[i], tasks, cs, today)
    requires SameDone(before, Mark(tasks, cs, Shut))
    requires forall x :: Known(before, x) <==> Known(tasks, x)
    ensures CloseOne(before, c, today)[i] == AtEnd(tasks[i], tasks, cs + {c.id}, today)
  {
    FlipKeepsDone(tasks[i]);
    forall tid ensures (IdDone(Mark(tasks, cs + {c.id}, Shut), tid) <==>
                        IdDone(Mark(tasks, cs, Shut), tid) || (tid == c.id && Known(tasks, c.id)))
                       && (IdDone(Mark(before, {c.id}, c.stamp), tid) <==> IdDone(Mark(tasks, cs + {c.id}, Shut), tid)) {
      DoneWithOneMore(tasks, before, cs, c, tid);
    }
    if Known(before, c.id) {
      MarkKeepsText(before, {c.id}, c.stamp);
      assert Mark(before, {c.id}, c.stamp)[i] == before[i];
    }
  }

  /** Hence neither the order in which a set of tickets is closed nor what each close writes matters to anyone else. */
  lemma ClosingIsConfluent(tasks: seq<Body>, a: seq<Closing>, b: seq<Closing>, today: int, i: nat)
    requires GatesAreText(tasks) && AllClose(a) && AllClose(b) && Members(a) == Members(b)
    requires i < |tasks| && !IsOneOf(tasks[i], Members(a))
    ensures |CloseAll(tasks, a, today)| == |CloseAll(tasks, b, today)| == |tasks|
    ensures CloseAll(tasks, a, today)[i] == CloseAll(tasks, b, today)[i]
  {
    ClosingHasClosedForm(tasks, a, today, i);
    ClosingHasClosedForm(tasks, b, today, i);
  }

  // ---- A clear gate stays clear while no ticket is reopened or dropped ----

  /** Every terminal ticket is still listed, and still terminal. */
  ghost predicate TerminalsStay(xs: seq<Body>, ys: seq<Body>) {
    forall t :: t in xs && TerminalBody(t) ==> StaysTerminal(ys, IdOf(t))
  }

  ghost predicate StaysTerminal(ys: seq<Body>, id: Value) {
    exists u :: u in ys && IdOf(u) == id && TerminalBody(u)
  }

  ghost predicate Follows(a: Moment, b: Moment) {
    UniqueIds(a.tasks) && UniqueIds(b.tasks) && a.today <= b.today && TerminalsStay(a.tasks, b.tasks)
  }

  lemma FollowsIsLater(a: Moment, b: Moment)
    requires Follows(a, b)
    ensures Later(a, b)
  {
    forall tid | IdDone(a.tasks, tid) ensures IdDone(b.tasks, tid) {
      IdDoneByMember(a.tasks, tid);
      IdDoneByMember(b.tasks, tid);
      var t :| t in a.tasks && IdOf(t) == Text(tid) && TerminalBody(t);
      assert StaysTerminal(b.tasks, IdOf(t));
    }
  }

  /** Over any history of a queue with unique ids, in any listing order, that reopens and drops no terminal ticket. */
  lemma GateStaysClearInQueue(gate: Value, run: seq<Moment>)
    requires gate.Null? || gate.Text?
    requires run != [] && forall i :: 0 <= i < |run| - 1 ==> Follows(run[i], run[i + 1])
    requires GateClear(gate, run[0].tasks, run[0].today)
    ensures forall m :: m in run ==> GateClear(gate, m.tasks, m.today)
  {
    forall i | 0 <= i < |run| - 1 ensures Later(run[i], run[i + 1]) {
      FollowsIsLater(run[i], run[i + 1]);
    }
    ClearGateStaysClear(gate, run);
  }

  // ---- The decision rollup ----

  predicate OpenForRollup(t: Body) {
    !(HasStatus(t, Done) || HasStatus(t, Discarded) || HasStatus(t, Blocked))
  }

  predicate RollupFires(tasks: seq<Body>, decision: Value) {
    && Truthy(decision)
    && (exists t :: t in tasks && Get(t, KeyDecisionId) == decision)
    && (forall t :: t in tasks && Get(t, KeyDecisionId) == decision ==> !OpenForRollup(t))
  }

  function RollOne(t: Body, decision: Value): Body
    requires decision.Text?
  {
    var gate := Get(t, KeyGate);
    if gate.Text? && Truthy(gate) && Contains(gate.text, decision.text) then t[KeyGate := Null] else t
  }

  function DecisionRollup(tasks: seq<Body>, decision: Value): seq<Body>
    requires GatesAreText(tasks) && (decision.Null? || decision.Text?)
  {
    if !RollupFires(tasks, decision) then tasks else seq(|tasks|, i requires 0 <= i < |tasks| => RollOne(tasks[i], decision))
  }

  /** The rollup as it runs: count the decision's tickets and the open ones among them, then clear the gates that name it. */
  method RollUpDecision(a: array<Body>, decision: Value)
    requires GatesAreText(a[..]) && (decision.Null? || decision.Text?)
    modifies a
    ensures a[..] == DecisionRollup(old(a[..]), decision)
  {
    if !Truthy(decision) {
      return;
    }
    ghost var was := a[..];
    var siblings, openCount, i := 0, 0, 0;
    while i < a.Length
      invariant 0 <= i <= a.Length && 0 <= openCount && 0 <= siblings
      invariant siblings == 0 <==> forall j :: 0 <= j < i ==> Get(a[j], KeyDecisionId) != decision
      invariant openCount == 0 <==> forall j :: 0 <= j < i && Get(a[j], KeyDecisionId) == decision ==> !OpenForRollup(a[j])
      modifies {}
    {
      if Get(a[i], KeyDecisionId) == decision {
        siblings := siblings + 1;
        if OpenForRollup(a[i]) {
          openCount := openCount + 1;
        }
      }
      i := i + 1;
    }
    FiresByPlace(was, decision);
    if siblings == 0 || openCount > 0 {
      return;
    }
    i := 0;
    while i < a.Length
      invariant 0 <= i <= a.Length
      invariant forall j :: 0 <= j < i ==> a[j] == RollOne(was[j], decision)
      invariant forall j :: i <= j < a.Length ==> a[j] == was[j]
    {
      a[i] := RollOne(a[i], decision);
      i := i + 1;
    }
  }

  lemma FiresByPlace(tasks: seq<Body>, decision: Value)
    requires Truthy(decision)
    ensures RollupFires(tasks, decision) <==>
      (exists j :: 0 <= j < |tasks| && Get(tasks[j], KeyDecisionId) == decision)
      && (forall j :: 0 <= j < |tasks| && Get(tasks[j], KeyDecisionId) == decision ==> !OpenForRollup(tasks[j]))
  {
    if j :| 0 <= j < |tasks| && Get(tasks[j], KeyDecisionId) == decision {
      assert tasks[j] in tasks;
    }
  }

  /**
   The rollup clears the gates that name the decision, and only those, and only when the decision has tickets and each of
   them is `done`, `discarded` or `blocked`.
   */
  lemma RollupClearsItsGates(tasks: seq<Body>, decision: Value, i: nat)
    requires GatesAreText(tasks) && (decision.Null? || decision.Text?) && i < |tasks|
    ensures |DecisionRollup(tasks, decision)| == |tasks|
    ensures
      var finished := forall t :: t in tasks && Get(t, KeyDecisionId) == decision ==>
                        HasStatus(t, Done) || HasStatus(t, Discarded) || HasStatus(t, Blocked);
      var named := exists t :: t in tasks && Get(t, KeyDecisionId) == decision;
      var gate := Get(tasks[i], KeyGate);
      if Truthy(decision) && named && finished && Truthy(gate) && gate.Text? && Contains(gate.text, decision.text)
      then Get(DecisionRollup(tasks, decision)[i], KeyGate) == Null && SameBut(tasks[i], DecisionRollup(tasks, decision)[i], {KeyGate})
      else DecisionRollup(tasks, decision)[i] == tasks[i]
  {
    assert tasks[i] in tasks;
  }

  /** `closed` does not count as finished: after a close, the rollup of that ticket's decision does nothing. */
  lemma RollupAfterCloseIsIdentity(tasks: seq<Body>, k: nat)
    requires GatesAreText(tasks) && k < |tasks| && HasStatus(tasks[k], Closed)
    requires Get(tasks[k], KeyDecisionId).Null? || Get(tasks[k], KeyDecisionId).Text?
    ensures DecisionRollup(tasks, Get(tasks[k], KeyDecisionId)) == tasks
  {
    assert tasks[k] in tasks && OpenForRollup(tasks[k]);
  }
}
