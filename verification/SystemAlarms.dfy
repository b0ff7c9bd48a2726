/**
 System alarms: one open record per signature, deduplicated by counters, with a
 breakdown by caller that is pruned as callers fall quiet.
 */
module SystemAlarms {
  import opened Lexical
  import opened TextLines

  type Caller = string
  type Signature = string
  type Time = int

  datatype Alarm = Alarm(
    count: int,
    callers: map<Caller, int>,
    lastSeen: map<Caller, Time>,
    firstSeenAt: Time,
    lastSeenAt: Time,
    message: string,
    notified: bool)

  /** The open directory and the archive, by signature. */
  datatype Ledger = Ledger(open: map<Signature, Alarm>, archive: map<Signature, Alarm>)

  datatype RaiseStatus = New | Incremented | Reopened

  // ---- Where a signature's record lives ----

  predicate IsSafe(c: char) {
    IsAlnum(c) || c == '.' || c == '_' || c == '-'
  }

  function Sanitized(sig: Signature): string {
    seq(|sig|, i requires 0 <= i < |sig| => if IsSafe(sig[i]) then sig[i] else '_')
  }

  function FileName(sig: Signature): string {
    var bare := Strip(Sanitized(sig), c => c == '_');
    var safe := if bare == "" then "alarm" else bare;
    (if |safe| > 120 then safe[..120] else safe) + ".json"
  }

  /** Read as an underscore in the file name. */
  predicate IsBlank(c: char) {
    !IsSafe(c) || c == '_'
  }

  /** Short enough to be kept whole, and neither end is trimmed. */
  predicate IsSolid(sig: Signature) {
    0 < |sig| <= 120 && !IsBlank(sig[0]) && !IsBlank(sig[|sig| - 1])
  }

  lemma SolidNames(sig: Signature)
    requires IsSolid(sig)
    ensures FileName(sig) == Sanitized(sig) + ".json"
  {
  }

  /** The same length and the same characters, except where both have a blank. */
  ghost predicate ReadAlike(a: Signature, b: Signature) {
    |a| == |b| && forall i :: 0 <= i < |a| ==> a[i] == b[i] || (IsBlank(a[i]) && IsBlank(b[i]))
  }

  lemma SanitizedAlikeIff(a: Signature, b: Signature)
    ensures Sanitized(a) == Sanitized(b) <==> ReadAlike(a, b)
  {
    if Sanitized(a) == Sanitized(b) {
      assert |a| == |Sanitized(a)| == |Sanitized(b)| == |b|;
      forall i | 0 <= i < |a| ensures a[i] == b[i] || (IsBlank(a[i]) && IsBlank(b[i])) {
        assert Sanitized(a)[i] == Sanitized(b)[i];
      }
    }
  }

  /** Two such signatures share a record exactly when they read alike. */
  lemma NamesAgreeIff(a: Signature, b: Signature)
    requires IsSolid(a) && IsSolid(b)
    ensures FileName(a) == FileName(b) <==> ReadAlike(a, b)
  {
    SolidNames(a);
    SolidNames(b);
    SanitizedAlikeIff(a, b);
    assert (Sanitized(a) + ".json")[..|a|] == Sanitized(a) && (Sanitized(b) + ".json")[..|b|] == Sanitized(b);
  }

  /** Longer signatures are told apart by their first 120 characters alone. */
  lemma LongNamesAgreeIff(a: Signature, b: Signature)
    requires |a| > 120 && |b| > 120
    requires !IsBlank(a[0]) && !IsBlank(a[|a| - 1]) && !IsBlank(b[0]) && !IsBlank(b[|b| - 1])
    ensures FileName(a) == FileName(b) <==> ReadAlike(a[..120], b[..120])
  {
    LongName(a);
    LongName(b);
    SanitizedAlikeIff(a[..120], b[..120]);
    assert FileName(a)[..120] == Sanitized(a[..120]) && FileName(b)[..120] == Sanitized(b[..120]);
  }

  lemma LongName(sig: Signature)
    requires |sig| > 120 && !IsBlank(sig[0]) && !IsBlank(sig[|sig| - 1])
    ensures FileName(sig) == Sanitized(sig[..120]) + ".json"
  {
    assert Strip(Sanitized(sig), c => c == '_') == Sanitized(sig);
    assert Sanitized(sig)[..120] == Sanitized(sig[..120]);
  }

  /** Signatures of blanks alone all share one record. */
  lemma BlankNamesCollide(sig: Signature)
    requires forall i :: 0 <= i < |sig| ==> IsBlank(sig[i])
    ensures FileName(sig) == "alarm.json"
  {
    AllDropped(Sanitized(sig), c => c == '_');
  }

  lemma {:induction false} AllDropped(s: string, drop: char -> bool)
    requires forall i :: 0 <= i < |s| ==> drop(s[i])
    ensures Strip(s, drop) == ""
  {
    if s != "" {
      AllDropped(s[1..], drop);
    }
  }

  ghost predicate AllSafe(s: string) {
    forall i :: 0 <= i < |s| ==> IsSafe(s[i])
  }

  /** For one kind, `kind:rest` signatures with safe rests share a record exactly when they are the same signature. */
  lemma OneKindNamesAgreeIff(kind: string, x: string, y: string)
    requires IsSolid(kind + ":" + x) && IsSolid(kind + ":" + y) && AllSafe(x) && AllSafe(y)
    ensures FileName(kind + ":" + x) == FileName(kind + ":" + y) <==> x == y
  {
    var a, b, n := kind + ":" + x, kind + ":" + y, |kind| + 1;
    NamesAgreeIff(a, b);
    assert forall i :: 0 <= i < |x| ==> a[n + i] == x[i];
    assert forall i :: 0 <= i < |y| ==> b[n + i] == y[i];
    assert forall i :: 0 <= i < n ==> a[i] == (kind + ":")[i] == b[i];
    if ReadAlike(a, b) {
      forall i | 0 <= i < |x| ensures x[i] == y[i] {
        assert a[n + i] == x[i] && b[n + i] == y[i];
      }
    }
  }

  /** Across kinds too, as long as neither part has an underscore of its own. */
  lemma KindsAndRestsKeepTheirNames(kind1: string, x: string, kind2: string, y: string)
    requires IsSolid(kind1 + ":" + x) && IsSolid(kind2 + ":" + y)
    requires forall c :: c in kind1 || c in x || c in kind2 || c in y ==> !IsBlank(c)
    ensures FileName(kind1 + ":" + x) == FileName(kind2 + ":" + y) <==> kind1 == kind2 && x == y
  {
    var a, b := kind1 + ":" + x, kind2 + ":" + y;
    NamesAgreeIff(a, b);
    if ReadAlike(a, b) {
      OneBlank(kind1, x);
      OneBlank(kind2, y);
      assert a[|kind1|] == ':' && b[|kind2|] == ':' && |a| == |b|;
      assert |kind1| == |kind2|;
      assert forall i :: 0 <= i < |a| ==> a[i] == b[i];
      assert kind1 == a[..|kind1|] && x == a[|kind1| + 1..];
      assert kind2 == b[..|kind2|] && y == b[|kind2| + 1..];
    }
  }

  lemma OneBlank(kind: string, x: string)
    requires forall c :: c in kind || c in x ==> !IsBlank(c)
    ensures forall i :: 0 <= i < |kind + ":" + x| ==> (IsBlank((kind + ":" + x)[i]) <==> i == |kind|)
  {
    var a := kind + ":" + x;
    forall i | 0 <= i < |a| ensures IsBlank(a[i]) <==> i == |kind| {
      assert i < |kind| ==> a[i] == kind[i] && kind[i] in kind;
      assert i > |kind| ==> a[i] == x[i - |kind| - 1] && x[i - |kind| - 1] in x;
    }
  }

  /** Every unsafe character reads as an underscore, whatever surrounds it. */
  lemma UnsafeSignaturesCollide(a: string, c: char, b: string)
    requires !IsSafe(c)
    ensures FileName(a + [c] + b) == FileName(a + "_" + b)
  {
    assert Sanitized(a + [c] + b) == Sanitized(a + "_" + b);
  }

  // ---- Single-signature operations (each under the signature's lock) ----

  function Bumped(a: Alarm, caller: Caller, message: string, now: Time): Alarm {
    a.(count := a.count + 1,
       callers := a.callers[caller := (if caller in a.callers then a.callers[caller] else 0) + 1],
       lastSeen := a.lastSeen[caller := now],
       lastSeenAt := now,
       message := message)
  }

  function Fresh(caller: Caller, message: string, now: Time): Alarm {
    Alarm(1, map[caller := 1], map[caller := now], now, now, message, false)
  }

  function Raise(l: Ledger, sig: Signature, caller: Caller, message: string, now: Time): (Ledger, RaiseStatus) {
    if sig in l.open then (l.(open := l.open[sig := Bumped(l.open[sig], caller, message, now)]), Incremented)
    else (l.(open := l.open[sig := Fresh(caller, message, now)]), if sig in l.archive then Reopened else New)
  }

  function MarkNotified(l: Ledger, sig: Signature): Ledger {
    if sig in l.open then l.(open := l.open[sig := l.open[sig].(notified := true)]) else l
  }

  function Close(l: Ledger, sig: Signature): Ledger {
    if sig in l.open then Ledger(l.open - {sig}, l.archive[sig := l.open[sig]]) else l
  }

  function Stale(a: Alarm, cutoff: Time): set<Caller> {
    set c | c in a.lastSeen && a.lastSeen[c] < cutoff
  }

  /** The record with its quiet callers removed; the count is recomputed only when it stays open. */
  function Pruned(a: Alarm, cutoff: Time): Alarm {
    a.(callers := a.callers - Stale(a, cutoff), lastSeen := a.lastSeen - Stale(a, cutoff))
  }

  /** One listed record; the sweep skips a record with an empty signature. */
  function PruneOne(l: Ledger, sig: Signature, cutoff: Time): Ledger {
    if sig == "" || sig !in l.open then l
    else
      var a, p := l.open[sig], Pruned(l.open[sig], cutoff);
      if p.callers == map[] then Ledger(l.open - {sig}, l.archive[sig := p])
      else if Stale(a, cutoff) != {} then l.(open := l.open[sig := p.(count := Sum(p.callers))])
      else l
  }

  // ---- Sums over a caller breakdown ----

  ghost function SumOver(m: map<Caller, int>, keys: set<Caller>): int
    requires keys <= m.Keys
  {
    if keys == {} then 0
    else
      var c := Pick(keys);
      m[c] + SumOver(m, keys - {c})
  }

  ghost function Pick(keys: set<Caller>): (c: Caller)
    requires keys != {}
    ensures c in keys
  {
    var c :| c in keys; c
  }

  /** The total of the breakdown, computed as the source does, by adding the values up. */
  function Sum(m: map<Caller, int>): (s: int)
    ensures s == SumOver(m, m.Keys)
    decreases |m|
  {
    if m == map[] then 0
    else
      var c := Least(m.Keys);
      RemoveFromSum(m, m.Keys, c);
      var rest := m - {c};
      SameSum(m, rest, m.Keys - {c});
      m[c] + Sum(rest)
  }

  function Least(keys: set<Caller>): (c: Caller)
    requires keys != {}
    ensures c in keys
  {
    LeastExists(keys);
    LeastIsUnique(keys);
    var c :| c in keys && forall d :: d in keys ==> LexLe(c, d);
    c
  }

  ghost predicate IsLeast(c: Caller, keys: set<Caller>) {
    c in keys && forall d :: d in keys ==> LexLe(c, d)
  }

  lemma LeastOfTwo(x: Caller, y: Caller, rest: set<Caller>)
    requires IsLeast(y, rest)
    ensures IsLeast(if LexLe(x, y) then x else y, {x} + rest)
  {
    LexTotal(x, y);
    LexTotal(x, x);
    if LexLe(x, y) {
      forall d | d in rest ensures LexLe(x, d) {
        LexTransitive(x, y, d);
      }
    }
  }

  lemma {:induction false} LeastExists(keys: set<Caller>)
    requires keys != {}
    ensures exists c :: IsLeast(c, keys)
    decreases |keys|
  {
    var x := Pick(keys);
    var rest := keys - {x};
    assert keys == {x} + rest;
    if rest == {} {
      LexTotal(x, x);
      assert IsLeast(x, keys);
    } else {
      LeastExists(rest);
      var y :| IsLeast(y, rest);
      LeastOfTwo(x, y, rest);
    }
  }

  lemma LeastIsUnique(keys: set<Caller>)
    ensures forall a, b :: a in keys && b in keys && (forall d :: d in keys ==> LexLe(a, d)) && (forall d :: d in keys ==> LexLe(b, d))
              ==> a == b
  {
    forall a, b | a in keys && b in keys && LexLe(a, b) && LexLe(b, a) ensures a == b {
      LexTotal(a, b);
    }
  }

  lemma {:induction false} SameSum(m: map<Caller, int>, n: map<Caller, int>, keys: set<Caller>)
    requires keys <= m.Keys && keys <= n.Keys && forall c :: c in keys ==> m[c] == n[c]
    ensures SumOver(m, keys) == SumOver(n, keys)
    decreases keys
  {
    if keys != {} {
      SameSum(m, n, keys - {Pick(keys)});
    }
  }

  lemma {:induction false} RemoveFromSum(m: map<Caller, int>, keys: set<Caller>, c: Caller)
    requires keys <= m.Keys && c in keys
    ensures SumOver(m, keys) == m[c] + SumOver(m, keys - {c})
    decreases keys
  {
    var d := Pick(keys);
    if d != c {
      RemoveFromSum(m, keys - {d}, c);
      RemoveFromSum(m, keys - {c}, d);
      assert keys - {d} - {c} == keys - {c} - {d};
    }
  }

  lemma SumUpdate(m: map<Caller, int>, c: Caller, v: int)
    ensures Sum(m[c := v]) == Sum(m) - (if c in m then m[c] else 0) + v
  {
    var n := m[c := v];
    var rest := m.Keys - {c};
    RemoveFromSum(n, n.Keys, c);
    assert n.Keys - {c} == rest;
    SameSum(m, n, rest);
    if c in m {
      RemoveFromSum(m, m.Keys, c);
    } else {
      assert rest == m.Keys;
    }
  }

  lemma {:induction false} SumSplit(m: map<Caller, int>, gone: set<Caller>)
    requires gone <= m.Keys
    ensures Sum(m) == Sum(m - gone) + SumOver(m, gone)
    decreases gone
  {
    hide Sum;
    if gone == {} {
      assert m - gone == m;
    } else {
      var c := Pick(gone);
      SumSplit(m, gone - {c});
      PutBackOne(m, gone, c);
    }
  }

  lemma PutBackOne(m: map<Caller, int>, gone: set<Caller>, c: Caller)
    requires c in gone && c in m
    ensures Sum(m - (gone - {c})) == Sum(m - gone) + m[c]
  {
    SumUpdate(m - gone, c, m[c]);
    assert (m - gone)[c := m[c]] == m - (gone - {c});
  }

  // ---- Open records are consistent ----

  ghost predicate Consistent(a: Alarm) {
    a.count == Sum(a.callers) && a.callers.Keys == a.lastSeen.Keys && a.callers != map[]
  }

  ghost predicate AllConsistent(l: Ledger) {
    forall sig :: sig in l.open ==> Consistent(l.open[sig])
  }

  datatype Event =
    | Raised(sig: Signature, caller: Caller, message: string, at: Time)
    | Marked(sig: Signature)
    | Closed(sig: Signature)
    | PrunedAt(sig: Signature, cutoff: Time)

  function Apply(l: Ledger, e: Event): Ledger {
    match e
    case Raised(sig, caller, message, at) => Raise(l, sig, caller, message, at).0
    case Marked(sig) => MarkNotified(l, sig)
    case Closed(sig) => Close(l, sig)
    case PrunedAt(sig, cutoff) => PruneOne(l, sig, cutoff)
  }

  function Play(l: Ledger, events: seq<Event>): Ledger {
    if events == [] then l else Apply(Play(l, events[..|events| - 1]), events[|events| - 1])
  }

  lemma BumpKeepsConsistent(a: Alarm, caller: Caller, message: string, now: Time)
    requires Consistent(a)
    ensures Consistent(Bumped(a, caller, message, now))
  {
    SumUpdate(a.callers, caller, (if caller in a.callers then a.callers[caller] else 0) + 1);
    assert caller in Bumped(a, caller, message, now).callers;
  }

  lemma FreshIsConsistent(caller: Caller, message: string, now: Time)
    ensures Consistent(Fresh(caller, message, now))
  {
    SumUpdate(map[], caller, 1);
    assert map[][caller := 1] == map[caller := 1];
    assert caller in Fresh(caller, message, now).callers;
  }

  lemma EventKeepsConsistent(l: Ledger, e: Event)
    requires AllConsistent(l)
    ensures AllConsistent(Apply(l, e))
  {
    match e
    case Raised(sig, caller, message, at) =>
      if sig in l.open {
        BumpKeepsConsistent(l.open[sig], caller, message, at);
      } else {
        FreshIsConsistent(caller, message, at);
      }
    case _ =>
  }

  // ---- The ledger: every successful raise is still open, was pruned, or was closed ----

  ghost function OpenCount(l: Ledger, sig: Signature): int {
    if sig in l.open then l.open[sig].count else 0
  }

  /** Raises an event adds, prunes away and closes away, for one signature. */
  ghost function Gained(e: Event, sig: Signature): int {
    if e.Raised? && e.sig == sig then 1 else 0
  }

  ghost function PrunedAway(l: Ledger, e: Event, sig: Signature): int {
    if e.PrunedAt? && e.sig == sig && sig != "" && sig in l.open then
      var a := l.open[sig];
      SumOver(a.callers, Stale(a, e.cutoff) * a.callers.Keys)
    else 0
  }

  ghost function ClosedAway(l: Ledger, e: Event, sig: Signature): int {
    if e.Closed? && e.sig == sig then OpenCount(l, sig) else 0
  }

  ghost function Raises(events: seq<Event>, sig: Signature): int {
    if events == [] then 0
    else Raises(events[..|events| - 1], sig) + Gained(events[|events| - 1], sig)
  }

  ghost function TotalPruned(l: Ledger, events: seq<Event>, sig: Signature): int {
    if events == [] then 0
    else
      var n := |events| - 1;
      TotalPruned(l, events[..n], sig) + PrunedAway(Play(l, events[..n]), events[n], sig)
  }

  ghost function TotalClosed(l: Ledger, events: seq<Event>, sig: Signature): int {
    if events == [] then 0
    else
      var n := |events| - 1;
      TotalClosed(l, events[..n], sig) + ClosedAway(Play(l, events[..n]), events[n], sig)
  }

  lemma PruneLeavesOthers(l: Ledger, pruned: Signature, cutoff: Time, sig: Signature)
    requires pruned != sig
    ensures OpenCount(PruneOne(l, pruned, cutoff), sig) == OpenCount(l, sig)
  {
  }

  lemma PruneBalances(l: Ledger, sig: Signature, cutoff: Time)
    requires AllConsistent(l)
    ensures OpenCount(l, sig) == OpenCount(PruneOne(l, sig, cutoff), sig) + PrunedAway(l, PrunedAt(sig, cutoff), sig)
  {
    if sig != "" && sig in l.open {
      var a := l.open[sig];
      var gone := Stale(a, cutoff);
      assert gone * a.callers.Keys == gone;
      SumSplit(a.callers, gone);
      if gone == {} {
        assert a.callers - gone == a.callers;
      }
    }
  }

  lemma RaiseBalances(l: Ledger, raised: Signature, caller: Caller, message: string, at: Time, sig: Signature)
    ensures OpenCount(Raise(l, raised, caller, message, at).0, sig) == OpenCount(l, sig) + if raised == sig then 1 else 0
  {
  }

  lemma MarkAndCloseBalance(l: Ledger, named: Signature, sig: Signature)
    ensures OpenCount(MarkNotified(l, named), sig) == OpenCount(l, sig)
    ensures OpenCount(Close(l, named), sig) == if named == sig then 0 else OpenCount(l, sig)
  {
  }

  lemma EventBalances(l: Ledger, e: Event, sig: Signature)
    requires AllConsistent(l)
    ensures OpenCount(l, sig) + Gained(e, sig)
         == OpenCount(Apply(l, e), sig) + PrunedAway(l, e, sig) + ClosedAway(l, e, sig)
  {
    match e
    case Raised(raised, caller, message, at) => RaiseBalances(l, raised, caller, message, at, sig);
    case PrunedAt(pruned, cutoff) =>
      if pruned == sig {
        PruneBalances(l, pruned, cutoff);
      } else {
        PruneLeavesOthers(l, pruned, cutoff, sig);
      }
    case Marked(marked) => MarkAndCloseBalance(l, marked, sig);
    case Closed(closed) => MarkAndCloseBalance(l, closed, sig);
  }

  /**
   Over every run from an empty store: open alarms are consistent, and per signature
   raises = open count + counts pruned + counts closed.
   */
  lemma {:induction false} EveryRaiseIsAccountedFor(events: seq<Event>, sig: Signature)
    ensures var l0 := Ledger(map[], map[]); var l := Play(l0, events);
      AllConsistent(l)
      && Raises(events, sig) == OpenCount(l, sig) + TotalPruned(l0, events, sig) + TotalClosed(l0, events, sig)
  {
    if events != [] {
      var l0, n := Ledger(map[], map[]), |events| - 1;
      EveryRaiseIsAccountedFor(events[..n], sig);
      EventKeepsConsistent(Play(l0, events[..n]), events[n]);
      EventBalances(Play(l0, events[..n]), events[n], sig);
    }
  }

  // ---- The archive ----

  /** Every caller in the breakdown has raised the alarm at least once. */
  ghost predicate AllPositive(callers: map<Caller, int>) {
    forall c :: c in callers ==> callers[c] >= 1
  }

  lemma {:induction false} PositiveSum(m: map<Caller, int>, keys: set<Caller>)
    requires keys <= m.Keys && AllPositive(m)
    ensures SumOver(m, keys) >= 0 && (keys != {} ==> SumOver(m, keys) >= 1)
    decreases keys
  {
    if keys != {} {
      PositiveSum(m, keys - {Pick(keys)});
    }
  }

  /** The sum law of an archived record holds exactly when its breakdown is not empty. */
  ghost predicate ArchiveLaw(a: Alarm) {
    a.count == Sum(a.callers) <==> a.callers != map[]
  }

  ghost predicate WellKept(l: Ledger) {
    && AllConsistent(l)
    && (forall sig :: sig in l.open ==> AllPositive(l.open[sig].callers))
    && (forall sig :: sig in l.archive ==> ArchiveLaw(l.archive[sig]))
  }

  lemma ConsistentIsArchivable(a: Alarm)
    requires Consistent(a)
    ensures ArchiveLaw(a)
  {
  }

  lemma EmptiedIsArchivable(a: Alarm, cutoff: Time)
    requires Consistent(a) && AllPositive(a.callers) && Pruned(a, cutoff).callers == map[]
    ensures ArchiveLaw(Pruned(a, cutoff))
  {
    PositiveSum(a.callers, a.callers.Keys);
    var c :| c in a.callers;
    assert a.callers.Keys != {};
    assert Sum(map[]) == 0;
  }

  lemma BumpKeepsPositive(a: Alarm, caller: Caller, message: string, now: Time)
    requires AllPositive(a.callers)
    ensures AllPositive(Bumped(a, caller, message, now).callers)
  {
  }

  lemma PruneKeepsWellKept(l: Ledger, sig: Signature, cutoff: Time)
    requires WellKept(l)
    ensures WellKept(PruneOne(l, sig, cutoff))
  {
    EventKeepsConsistent(l, PrunedAt(sig, cutoff));
    if sig != "" && sig in l.open {
      var p := Pruned(l.open[sig], cutoff);
      assert AllPositive(p.callers);
      if p.callers == map[] {
        EmptiedIsArchivable(l.open[sig], cutoff);
      }
    }
  }

  lemma RaiseKeepsWellKept(l: Ledger, sig: Signature, caller: Caller, message: string, now: Time)
    requires WellKept(l)
    ensures WellKept(Raise(l, sig, caller, message, now).0)
  {
    hide Consistent, ArchiveLaw, Sum;
    EventKeepsConsistent(l, Raised(sig, caller, message, now));
    if sig in l.open {
      BumpKeepsPositive(l.open[sig], caller, message, now);
    }
  }

  lemma MarkKeepsWellKept(l: Ledger, sig: Signature)
    requires WellKept(l)
    ensures WellKept(MarkNotified(l, sig))
  {
    EventKeepsConsistent(l, Marked(sig));
  }

  lemma CloseKeepsWellKept(l: Ledger, sig: Signature)
    requires WellKept(l)
    ensures WellKept(Close(l, sig))
  {
    EventKeepsConsistent(l, Closed(sig));
    if sig in l.open {
      ConsistentIsArchivable(l.open[sig]);
    }
  }

  lemma EventKeepsWellKept(l: Ledger, e: Event)
    requires WellKept(l)
    ensures WellKept(Apply(l, e))
  {
    match e
    case Raised(sig, caller, message, at) => RaiseKeepsWellKept(l, sig, caller, message, at);
    case Marked(sig) => MarkKeepsWellKept(l, sig);
    case Closed(sig) => CloseKeepsWellKept(l, sig);
    case PrunedAt(sig, cutoff) => PruneKeepsWellKept(l, sig, cutoff);
  }

  /** Over every run from an empty store, an archived count is the sum of its callers exactly when any caller is left in it. */
  lemma {:induction false} ArchivedCountsAddUpIff(events: seq<Event>, sig: Signature)
    ensures var l := Play(Ledger(map[], map[]), events);
      WellKept(l) && (sig in l.archive ==> (l.archive[sig].count == Sum(l.archive[sig].callers) <==> l.archive[sig].callers != map[]))
  {
    if events != [] {
      var n := |events| - 1;
      ArchivedCountsAddUpIff(events[..n], sig);
      EventKeepsWellKept(Play(Ledger(map[], map[]), events[..n]), events[n]);
    }
  }

  /** The exception: an alarm aged out by pruning is archived under its old count, with an empty breakdown. */
  lemma AgedOutKeepsOldCount(l: Ledger, sig: Signature, cutoff: Time)
    requires AllConsistent(l) && sig != "" && sig in l.open && Stale(l.open[sig], cutoff) == l.open[sig].callers.Keys
    ensures var m := PruneOne(l, sig, cutoff);
      sig !in m.open && sig in m.archive && m.archive[sig].count == l.open[sig].count && m.archive[sig].callers == map[]
  {
    assert Pruned(l.open[sig], cutoff).callers == map[];
  }

  // ---- The prune sweep ----

  function PruneAll(l: Ledger, sigs: seq<Signature>, cutoff: Time): Ledger {
    if sigs == [] then l
    else PruneOne(PruneAll(l, sigs[..|sigs| - 1], cutoff), sigs[|sigs| - 1], cutoff)
  }

  /** Callers the sweep drops, over all listed alarms. */
  function CallersPruned(l: Ledger, sigs: seq<Signature>, cutoff: Time): nat {
    if sigs == [] then 0
    else
      var n := |sigs| - 1;
      CallersPruned(l, sigs[..n], cutoff) + PrunedCallers(PruneAll(l, sigs[..n], cutoff), sigs[n], cutoff)
  }

  function PrunedCallers(l: Ledger, sig: Signature, cutoff: Time): nat {
    if sig != "" && sig in l.open then |Stale(l.open[sig], cutoff)| else 0
  }

  ghost predicate NoStale(l: Ledger, sig: Signature, cutoff: Time) {
    sig != "" && sig in l.open ==> forall c :: c in l.open[sig].lastSeen ==> l.open[sig].lastSeen[c] >= cutoff
  }

  lemma PruneClearsStale(l: Ledger, sig: Signature, cutoff: Time, other: Signature)
    requires sig == other || NoStale(l, other, cutoff)
    ensures NoStale(PruneOne(l, sig, cutoff), other, cutoff)
  {
    var m := PruneOne(l, sig, cutoff);
    if other != "" && other in m.open {
      forall c | c in m.open[other].lastSeen ensures m.open[other].lastSeen[c] >= cutoff {
        if sig == other {
          assert c in l.open[sig].lastSeen;
          assert c in Stale(l.open[sig], cutoff) <==> l.open[sig].lastSeen[c] < cutoff;
        }
      }
    }
  }

  lemma {:induction false} SweepClearsStale(l: Ledger, sigs: seq<Signature>, cutoff: Time)
    requires AllConsistent(l)
    ensures AllConsistent(PruneAll(l, sigs, cutoff))
    ensures PruneAll(l, sigs, cutoff).open.Keys <= l.open.Keys
    ensures forall sig :: sig in sigs ==> NoStale(PruneAll(l, sigs, cutoff), sig, cutoff)
  {
    if sigs != [] {
      var n := |sigs| - 1;
      SweepClearsStale(l, sigs[..n], cutoff);
      var m := PruneAll(l, sigs[..n], cutoff);
      EventKeepsConsistent(m, PrunedAt(sigs[n], cutoff));
      assert sigs == sigs[..n] + [sigs[n]];
      forall sig | sig in sigs ensures NoStale(PruneOne(m, sigs[n], cutoff), sig, cutoff) {
        PruneClearsStale(m, sigs[n], cutoff, sig);
      }
    }
  }

  lemma {:induction false} SweepOfCleanIsNoOp(l: Ledger, sigs: seq<Signature>, cutoff: Time)
    requires AllConsistent(l) && forall sig :: sig in sigs ==> NoStale(l, sig, cutoff)
    ensures PruneAll(l, sigs, cutoff) == l
  {
    if sigs != [] {
      var n := |sigs| - 1;
      SweepOfCleanIsNoOp(l, sigs[..n], cutoff);
      var sig := sigs[n];
      if sig != "" && sig in l.open {
        assert NoStale(l, sig, cutoff);
        assert Stale(l.open[sig], cutoff) == {};
        assert l.open[sig].callers - {} == l.open[sig].callers;
      }
    }
  }

  /** After a sweep every surviving caller is at or after the cutoff, and a second sweep at the same time does nothing. */
  lemma SweepIsIdempotent(l: Ledger, sigs: seq<Signature>, again: seq<Signature>, cutoff: Time)
    requires AllConsistent(l)
    requires forall sig :: sig in l.open ==> sig in sigs
    ensures var m := PruneAll(l, sigs, cutoff);
      (forall sig, c :: sig != "" && sig in m.open && c in m.open[sig].lastSeen ==> m.open[sig].lastSeen[c] >= cutoff)
      && PruneAll(m, again, cutoff) == m
  {
    var m := PruneAll(l, sigs, cutoff);
    SweepClearsStale(l, sigs, cutoff);
    forall sig | sig in m.open ensures NoStale(m, sig, cutoff) {
      assert sig in sigs;
    }
    SweepOfCleanIsNoOp(m, again, cutoff);
  }

  // ---- The sweep, record by record ----

  ghost predicate SameRecord(l: Ledger, m: Ledger, s: Signature) {
    && (s in m.open <==> s in l.open) && (s in l.open && s in m.open ==> m.open[s] == l.open[s])
    && (s in m.archive <==> s in l.archive) && (s in l.archive && s in m.archive ==> m.archive[s] == l.archive[s])
  }

  /** `b` is `a` without the callers in `quiet`; only the count may differ besides. */
  ghost predicate Without(a: Alarm, b: Alarm, quiet: set<Caller>) {
    b == a.(callers := a.callers - quiet, lastSeen := a.lastSeen - quiet, count := b.count)
  }

  /**
   A listed alarm after the sweep: archived under its old count if all its callers were last seen before the cutoff, else
   still open without the callers that were, counted anew if there were any.
   */
  ghost predicate SweptOut(l: Ledger, m: Ledger, s: Signature, cutoff: Time)
    requires s in l.open
  {
    var a := l.open[s];
    var quiet := set c | c in a.lastSeen && a.lastSeen[c] < cutoff;
    if forall c :: c in a.callers ==> c in quiet then
      s !in m.open && s in m.archive && Without(a, m.archive[s], quiet) && m.archive[s].count == a.count
    else
      && s in m.open && Without(a, m.open[s], quiet)
      && m.open[s].count == (if quiet == {} then a.count else Sum(m.open[s].callers))
      && (s in m.archive <==> s in l.archive) && (s in l.archive && s in m.archive ==> m.archive[s] == l.archive[s])
  }

  lemma OneSweptOut(l: Ledger, s: Signature, cutoff: Time)
    requires s != "" && s in l.open
    ensures SweptOut(l, PruneOne(l, s, cutoff), s, cutoff)
  {
    var a := l.open[s];
    var quiet := Stale(a, cutoff);
    assert a.callers - quiet == map[] <==> forall c :: c in a.callers ==> c in quiet by {
      if c :| c in a.callers && c !in quiet {
        assert c in a.callers - quiet;
      }
    }
    if quiet == {} {
      assert a.callers - quiet == a.callers && a.lastSeen - quiet == a.lastSeen;
    }
  }

  lemma SweptOutStays(l: Ledger, m: Ledger, s: Signature, cutoff: Time)
    requires s in l.open && SweptOut(l, m, s, cutoff)
    ensures PruneOne(m, s, cutoff) == m
  {
    if s in m.open {
      var b := m.open[s];
      assert Stale(b, cutoff) == {};
      var c :| c in l.open[s].callers && !(c in l.open[s].lastSeen && l.open[s].lastSeen[c] < cutoff);
      assert c in b.callers && c in Pruned(b, cutoff).callers;
    }
  }

  lemma OthersKept(l: Ledger, pruned: Signature, cutoff: Time, s: Signature)
    requires pruned != s || s == "" || s !in l.open
    ensures SameRecord(l, PruneOne(l, pruned, cutoff), s)
  {
  }

  lemma SweptOutKept(l: Ledger, m: Ledger, n: Ledger, s: Signature, cutoff: Time)
    requires s in l.open && SweptOut(l, m, s, cutoff) && SameRecord(m, n, s)
    ensures SweptOut(l, n, s, cutoff)
  {
  }

  lemma SweptLater(l: Ledger, m: Ledger, n: Ledger, s: Signature, cutoff: Time)
    requires s in l.open && SameRecord(l, m, s) && s in m.open && SweptOut(m, n, s, cutoff)
    ensures SweptOut(l, n, s, cutoff)
  {
  }

  /** The whole sweep, in any order and with any repetitions of the listing. */
  lemma {:induction false} SweepInWords(l: Ledger, sigs: seq<Signature>, cutoff: Time)
    ensures forall s :: s in l.open && s in sigs && s != "" ==> SweptOut(l, PruneAll(l, sigs, cutoff), s, cutoff)
    ensures forall s :: s !in l.open || s !in sigs || s == "" ==> SameRecord(l, PruneAll(l, sigs, cutoff), s)
  {
    if sigs != [] {
      var n := |sigs| - 1;
      var m, last := PruneAll(l, sigs[..n], cutoff), sigs[n];
      SweepInWords(l, sigs[..n], cutoff);
      assert sigs == sigs[..n] + [last];
      var e := PruneOne(m, last, cutoff);
      forall s | s in l.open && s in sigs && s != "" ensures SweptOut(l, e, s, cutoff) {
        SweepOneMore(l, m, last, s, cutoff, s in sigs[..n]);
      }
      forall s | s !in l.open || s !in sigs || s == "" ensures SameRecord(l, e, s) {
        OthersKept(m, last, cutoff, s);
      }
    }
  }

  lemma SweepOneMore(l: Ledger, m: Ledger, last: Signature, s: Signature, cutoff: Time, done: bool)
    requires s in l.open && s != "" && (done || s == last)
    requires if done then SweptOut(l, m, s, cutoff) else SameRecord(l, m, s)
    ensures SweptOut(l, PruneOne(m, last, cutoff), s, cutoff)
  {
    if done && s == last {
      SweptOutStays(l, m, s, cutoff);
    } else if done {
      OthersKept(m, last, cutoff, s);
      SweptOutKept(l, m, PruneOne(m, last, cutoff), s, cutoff);
    } else {
      OneSweptOut(m, s, cutoff);
      SweptLater(l, m, PruneOne(m, last, cutoff), s, cutoff);
    }
  }

  // ---- Nothing ever raised is lost ----

  lemma EventKeepsRecords(l: Ledger, e: Event, sig: Signature)
    ensures sig in Apply(l, e).open || sig in Apply(l, e).archive <==> sig in l.open || sig in l.archive || Gained(e, sig) == 1
  {
  }

  lemma {:induction false} RaisesAreCounted(events: seq<Event>, sig: Signature)
    ensures Raises(events, sig) >= 0
    ensures var l := Play(Ledger(map[], map[]), events); sig in l.open || sig in l.archive <==> Raises(events, sig) > 0
  {
    if events != [] {
      var n := |events| - 1;
      RaisesAreCounted(events[..n], sig);
      EventKeepsRecords(Play(Ledger(map[], map[]), events[..n]), events[n], sig);
    }
  }

  /**
   Over every run from an empty store: a signature is on file, open or archived, exactly when it was ever raised, so a
   raise is `new` exactly the first time, and `reopened` exactly when the signature was raised before and is not open.
   */
  lemma RaiseStatusIff(events: seq<Event>, sig: Signature, caller: Caller, message: string, now: Time)
    ensures
      var l := Play(Ledger(map[], map[]), events);
      var status := Raise(l, sig, caller, message, now).1;
      && (sig in l.open || sig in l.archive <==> Raises(events, sig) > 0)
      && (status == New <==> Raises(events, sig) == 0)
      && (status == Incremented <==> sig in l.open)
      && (status == Reopened <==> Raises(events, sig) > 0 && sig !in l.open)
  {
    RaisesAreCounted(events, sig);
  }

  // ---- The store's functions as they update their files ----

  class AlarmStore {
    var open: map<Signature, Alarm>
    var archive: map<Signature, Alarm>

    ghost function State(): Ledger
      reads this
    {
      Ledger(open, archive)
    }

    method RaiseAlarm(sig: Signature, caller: Caller, message: string, now: Time) returns (status: RaiseStatus, count: int)
      modifies this
      ensures (State(), status) == Raise(old(State()), sig, caller, message, now)
      ensures sig in open && count == open[sig].count
      ensures status == if sig in old(open) then Incremented else if sig in old(archive) then Reopened else New
      ensures sig !in old(open) ==> open[sig] == Alarm(1, map[caller := 1], map[caller := now], now, now, message, false)
      ensures sig in old(open) ==>
        var was, a := old(open)[sig], open[sig];
        && a.count == was.count + 1 && a.callers.Keys == was.callers.Keys + {caller}
        && a.callers[caller] == (if caller in was.callers then was.callers[caller] + 1 else 1)
        && (forall c :: c in was.callers && c != caller ==> a.callers[c] == was.callers[c])
        && a.lastSeen == was.lastSeen[caller := now] && a.lastSeenAt == now && a.message == message
        && a.firstSeenAt == was.firstSeenAt && a.notified == was.notified
      ensures archive == old(archive) && open - {sig} == old(open) - {sig}
    {
      if sig in open {
        status := Incremented;
        var rec := open[sig];
        rec := rec.(count := rec.count + 1);
        var soFar := if caller in rec.callers then rec.callers[caller] else 0;
        rec := rec.(callers := rec.callers[caller := soFar + 1]);
        rec := rec.(lastSeen := rec.lastSeen[caller := now]);
        rec := rec.(lastSeenAt := now, message := message);
        open := open[sig := rec];
      } else {
        status := if sig in archive then Reopened else New;
        open := open[sig := Alarm(1, map[caller := 1], map[caller := now], now, now, message, false)];
      }
      count := open[sig].count;
    }

    method MarkAlarm(sig: Signature) returns (ok: bool)
      modifies this
      ensures State() == MarkNotified(old(State()), sig) && (ok <==> sig in old(open))
      ensures ok ==> sig in open && open[sig] == old(open)[sig].(notified := true) && open - {sig} == old(open) - {sig}
      ensures archive == old(archive) && (!ok ==> open == old(open))
    {
      ok := sig in open;
      if ok {
        open := open[sig := open[sig].(notified := true)];
      }
    }

    method CloseAlarm(sig: Signature) returns (ok: bool)
      modifies this
      ensures State() == Close(old(State()), sig) && (ok <==> sig in old(open))
      ensures ok ==> sig !in open && sig in archive && archive[sig] == old(open)[sig]
      ensures ok ==> open == old(open) - {sig} && archive - {sig} == old(archive) - {sig}
      ensures !ok ==> open == old(open) && archive == old(archive)
    {
      ok := sig in open;
      if ok {
        archive := archive[sig := open[sig]];
        open := open - {sig};
      }
    }

    /** One iteration of the sweep. */
    method PruneListed(sig: Signature, cutoff: Time) returns (callersPruned: nat, agedOut: bool)
      modifies this
      ensures State() == PruneOne(old(State()), sig, cutoff)
      ensures callersPruned == PrunedCallers(old(State()), sig, cutoff)
      ensures |open| == |old(open)| - if agedOut then 1 else 0
    {
      callersPruned, agedOut := 0, false;
      if sig == "" || sig !in open {
        return;
      }
      var cur := open[sig];
      var stale := set c | c in cur.lastSeen && cur.lastSeen[c] < cutoff;
      assert stale == Stale(cur, cutoff);
      cur := cur.(callers := cur.callers - stale, lastSeen := cur.lastSeen - stale);
      callersPruned := |stale|;
      if cur.callers == map[] {
        archive := archive[sig := cur];
        assert (open - {sig}).Keys == open.Keys - {sig};
        open := open - {sig};
        agedOut := true;
      } else if stale != {} {
        cur := cur.(count := Sum(cur.callers));
        assert open[sig := cur].Keys == open.Keys;
        open := open[sig := cur];
      }
    }

    /** Self-clearing: each listed alarm loses its quiet callers, and ages out when none is left. */
    method PruneStale(sigs: seq<Signature>, now: Time, quiet: Time) returns (callersPruned: nat, agedOut: nat)
      modifies this
      ensures State() == PruneAll(old(State()), sigs, now - quiet)
      ensures callersPruned == CallersPruned(old(State()), sigs, now - quiet)
      ensures agedOut == |old(open)| - |open|
      ensures forall s :: s in old(open) && s in sigs && s != "" ==> SweptOut(old(State()), State(), s, now - quiet)
      ensures forall s :: s !in old(open) || s !in sigs || s == "" ==> SameRecord(old(State()), State(), s)
    {
      hide PruneOne, PrunedCallers;
      var cutoff := now - quiet;
      callersPruned, agedOut := 0, 0;
      ghost var l := State();
      var i := 0;
      while i < |sigs|
        invariant 0 <= i <= |sigs|
        invariant State() == PruneAll(l, sigs[..i], cutoff)
        invariant callersPruned == CallersPruned(l, sigs[..i], cutoff)
        invariant agedOut == |l.open| - |open|
      {
        assert sigs[..i + 1][..i] == sigs[..i];
        var dropped, gone := PruneListed(sigs[i], cutoff);
        callersPruned := callersPruned + dropped;
        if gone {
          agedOut := agedOut + 1;
        }
        i := i + 1;
      }
      assert sigs[..i] == sigs;
      SweepInWords(l, sigs, cutoff);
    }
  }
}
