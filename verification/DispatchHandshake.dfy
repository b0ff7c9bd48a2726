/**
 The dispatch handshake: an ack, then a background loop that probes the
 application until it accepts the work, the time is up, or it is cancelled.
 The loop, `cancel` and the clock interleave freely.
 */
module DispatchHandshake {
  datatype Message = Ack | Started | TimedOut

  /** Seconds between probes, and seconds from the loop's start to giving up. */
  datatype Timing = Timing(interval: real, timeoutAt: real)

  /** What the loop does, in order. */
  datatype Entry = Sent(message: Message) | Probed(accepted: bool) | Measured(elapsed: real)

  /** Where the loop's thread stands. */
  datatype Phase = Idle | Launched | Top | Entering | Waiting | Probing | Accepted | Failed | Expired | Stopping | Exited

  datatype State = State(
    phase: Phase,
    stop: bool,
    clock: real,
    startedAt: real,
    since: real,
    log: seq<Entry>,
    sent: seq<Message>,
    cancelledAt: int)

  const NEVER: int := -1

  const Initial: State := State(Idle, false, 0.0, 0.0, 0.0, [], [], NEVER)

  datatype Label =
    | Tick(span: real)
    | Cancel
    | Start
    | Launch
    | Check
    | Enter
    | WakeTimeout
    | WakeStopped
    | Probe(accepted: bool)
    | SendStarted
    | ReadClock
    | SendTimeout
    | Finish

  predicate Enabled(s: State, l: Label, t: Timing) {
    match l
    case Tick(span) => span >= 0.0
    case Cancel => true
    case Start => s.phase.Idle?
    case Launch => s.phase.Launched?
    case Check => s.phase.Top?
    case Enter => s.phase.Entering?
    // A wait can time out although the flag is set a moment later, so the flag is not consulted here.
    case WakeTimeout => s.phase.Waiting? && s.clock - s.since >= t.interval
    case WakeStopped => s.phase.Waiting? && s.stop
    case Probe(_) => s.phase.Probing?
    case SendStarted => s.phase.Accepted?
    case ReadClock => s.phase.Failed?
    case SendTimeout => s.phase.Expired?
    case Finish => s.phase.Stopping?
  }

  function Say(s: State, phase: Phase, m: Message): State {
    s.(phase := phase, log := s.log + [Sent(m)], sent := s.sent + [m])
  }

  function Next(s: State, l: Label, t: Timing): State {
    match l
    case Tick(span) => s.(clock := s.clock + span)
    case Cancel => s.(stop := true, cancelledAt := if s.cancelledAt == NEVER then |s.sent| else s.cancelledAt)
    case Start => Say(s, Launched, Ack)
    case Launch => s.(phase := Top, startedAt := s.clock)
    case Check => s.(phase := if s.stop then Exited else Entering)
    case Enter => if s.stop then s.(phase := Exited) else s.(phase := Waiting, since := s.clock)
    case WakeTimeout => s.(phase := Probing)
    case WakeStopped => s.(phase := Exited)
    case Probe(accepted) => s.(phase := if accepted then Accepted else Failed, log := s.log + [Probed(accepted)])
    case SendStarted => Say(s, Stopping, Started)
    case ReadClock =>
      var elapsed := s.clock - s.startedAt;
      s.(phase := if elapsed >= t.timeoutAt then Expired else Top, log := s.log + [Measured(elapsed)])
    case SendTimeout => Say(s, Stopping, TimedOut)
    case Finish => s.(phase := Exited, stop := true)
  }

  function After(t: Timing, labels: seq<Label>): State {
    if labels == [] then Initial else Next(After(t, labels[..|labels| - 1]), labels[|labels| - 1], t)
  }

  predicate Legal(t: Timing, labels: seq<Label>) {
    labels == [] ||
    (Legal(t, labels[..|labels| - 1]) && Enabled(After(t, labels[..|labels| - 1]), labels[|labels| - 1], t))
  }

  predicate Run(t: Timing, labels: seq<Label>, s: State) {
    Legal(t, labels) && s == After(t, labels)
  }

  function Messages(log: seq<Entry>): seq<Message> {
    if log == [] then []
    else
      var n := |log| - 1;
      Messages(log[..n]) + if log[n].Sent? then [log[n].message] else []
  }

  function Probes(log: seq<Entry>): nat {
    if log == [] then 0
    else
      var n := |log| - 1;
      Probes(log[..n]) + if log[n].Probed? then 1 else 0
  }

  // ---- The shape of every log ----

  /** Refused probes, each followed by a clock reading short of the timeout. */
  function Rounds(elapsed: seq<real>): seq<Entry> {
    if elapsed == [] then []
    else
      var n := |elapsed| - 1;
      Rounds(elapsed[..n]) + [Probed(false), Measured(elapsed[n])]
  }

  /** What the round in progress has logged so far. */
  ghost predicate Tail(tail: seq<Entry>, s: State, t: Timing) {
    match s.phase
    case Accepted => tail == [Probed(true)]
    case Failed => tail == [Probed(false)]
    case Expired => |tail| == 2 && tail[0] == Probed(false) && tail[1].Measured? && tail[1].elapsed >= t.timeoutAt
    case Stopping => Final(tail, t)
    case Exited => tail == [] || Final(tail, t)
    case _ => tail == []
  }

  ghost predicate Final(tail: seq<Entry>, t: Timing) {
    || tail == [Probed(true), Sent(Started)]
    || (|tail| == 3 && tail[0] == Probed(false) && tail[1].Measured? && tail[1].elapsed >= t.timeoutAt
        && tail[2] == Sent(TimedOut))
  }

  /** The least time that `k` rounds take. */
  ghost function Pace(k: nat, t: Timing): real {
    if k == 0 then 0.0 else Pace(k - 1, t) + t.interval
  }

  lemma {:induction false} PaceIs(k: nat, t: Timing)
    ensures Pace(k, t) == k as real * t.interval
  {
    if k > 0 {
      PaceIs(k - 1, t);
      Distribute(k - 1, t.interval);
    }
  }

  ghost predicate Spaced(elapsed: seq<real>, t: Timing) {
    forall k :: 0 <= k < |elapsed| ==> Pace(k + 1, t) <= elapsed[k] < t.timeoutAt
  }

  ghost predicate Parts(s: State, t: Timing, elapsed: seq<real>, tail: seq<Entry>) {
    && s.log == [Sent(Ack)] + Rounds(elapsed) + tail
    && Spaced(elapsed, t)
    && Tail(tail, s, t)
    && Paced(s, t, |elapsed|)
  }

  /** The clock has advanced by at least one interval per finished round. */
  ghost predicate Paced(s: State, t: Timing, rounds: nat) {
    && s.startedAt <= s.clock
    && (s.phase.Launched? ==> rounds == 0)
    && (s.phase.Top? || s.phase.Entering? ==> Pace(rounds, t) <= s.clock - s.startedAt)
    && (s.phase.Waiting? ==> s.since <= s.clock && Pace(rounds, t) <= s.since - s.startedAt)
    && (s.phase.Probing? || s.phase.Failed? ==> Pace(rounds + 1, t) <= s.clock - s.startedAt)
  }

  ghost predicate Shaped(s: State, t: Timing) {
    && (s.phase.Idle? ==> s.log == [])
    && s.startedAt <= s.clock
    && (!s.phase.Idle? ==> exists elapsed, tail :: Parts(s, t, elapsed, tail))
  }

  lemma RoundsOneMore(elapsed: seq<real>, e: real)
    ensures Rounds(elapsed + [e]) == Rounds(elapsed) + [Probed(false), Measured(e)]
  {
    assert (elapsed + [e])[..|elapsed|] == elapsed;
  }

  lemma Distribute(n: nat, x: real)
    ensures (n + 1) as real * x == n as real * x + x
  {
  }

  lemma ReadClockKeepsShape(s: State, t: Timing, elapsed: seq<real>, tail: seq<Entry>)
    requires s.phase.Failed? && Parts(s, t, elapsed, tail)
    ensures Shaped(Next(s, ReadClock, t), t)
  {
    var m := Next(s, ReadClock, t);
    var e := s.clock - s.startedAt;
    if e >= t.timeoutAt {
      assert m.log == [Sent(Ack)] + Rounds(elapsed) + (tail + [Measured(e)]);
      assert Parts(m, t, elapsed, tail + [Measured(e)]);
    } else {
      RoundsOneMore(elapsed, e);
      assert m.log == [Sent(Ack)] + Rounds(elapsed + [e]) + [];
      assert Parts(m, t, elapsed + [e], []);
    }
  }

  lemma AppendKeepsShape(s: State, l: Label, t: Timing, elapsed: seq<real>, tail: seq<Entry>)
    requires Parts(s, t, elapsed, tail) && Enabled(s, l, t) && (l.Probe? || l.SendStarted? || l.SendTimeout?)
    ensures Shaped(Next(s, l, t), t)
  {
    var m := Next(s, l, t);
    var e := if l.Probe? then Probed(l.accepted) else if l.SendStarted? then Sent(Started) else Sent(TimedOut);
    assert m.log == [Sent(Ack)] + Rounds(elapsed) + (tail + [e]);
    assert Parts(m, t, elapsed, tail + [e]);
  }

  lemma QuietKeepsShape(s: State, l: Label, t: Timing, elapsed: seq<real>, tail: seq<Entry>)
    requires Parts(s, t, elapsed, tail) && Enabled(s, l, t) && !s.phase.Idle?
    requires !(l.Probe? || l.SendStarted? || l.SendTimeout? || l.ReadClock?)
    ensures Shaped(Next(s, l, t), t)
  {
    assert Parts(Next(s, l, t), t, elapsed, tail);
  }

  lemma StepKeepsShape(s: State, l: Label, t: Timing)
    requires Shaped(s, t) && Enabled(s, l, t)
    ensures Shaped(Next(s, l, t), t)
  {
    if s.phase.Idle? {
      if l.Start? {
        assert Rounds([]) == [];
        assert Next(s, l, t).log == [Sent(Ack)] + Rounds([]) + [];
        assert Parts(Next(s, l, t), t, [], []);
      }
    } else {
      var elapsed, tail :| Parts(s, t, elapsed, tail);
      match l
      case Probe(accepted) => AppendKeepsShape(s, l, t, elapsed, tail);
      case SendStarted => AppendKeepsShape(s, l, t, elapsed, tail);
      case SendTimeout => AppendKeepsShape(s, l, t, elapsed, tail);
      case ReadClock => ReadClockKeepsShape(s, t, elapsed, tail);
      case _ => QuietKeepsShape(s, l, t, elapsed, tail);
    }
  }

  /**
   In every interleaving the log is an ack, then refused probes each measured short of the timeout, then at most one
   ending: an accepted probe and `started`, or a refused probe measured at or past the timeout and `timeout`.
   */
  lemma {:induction false} EveryRunIsShaped(t: Timing, labels: seq<Label>, s: State)
    requires Run(t, labels, s)
    ensures Shaped(s, t)
  {
    if labels != [] {
      var n := |labels| - 1;
      var prev := After(t, labels[..n]);
      EveryRunIsShaped(t, labels[..n], prev);
      StepKeepsShape(prev, labels[n], t);
    }
  }

  // ---- Messages ----

  lemma PrefixOfConcat(a: seq<Entry>, b: seq<Entry>)
    requires b != []
    ensures (a + b)[..|a + b| - 1] == a + b[..|b| - 1] && (a + b)[|a + b| - 1] == b[|b| - 1]
  {
  }

  lemma {:induction false} MessagesConcat(a: seq<Entry>, b: seq<Entry>)
    ensures Messages(a + b) == Messages(a) + Messages(b)
  {
    if b == [] {
      assert a + b == a;
    } else {
      PrefixOfConcat(a, b);
      MessagesConcat(a, b[..|b| - 1]);
    }
  }

  lemma {:induction false} ProbesConcat(a: seq<Entry>, b: seq<Entry>)
    ensures Probes(a + b) == Probes(a) + Probes(b)
  {
    if b == [] {
      assert a + b == a;
    } else {
      PrefixOfConcat(a, b);
      ProbesConcat(a, b[..|b| - 1]);
    }
  }

  lemma {:induction false} RoundsAreSilent(elapsed: seq<real>)
    ensures Messages(Rounds(elapsed)) == [] && Probes(Rounds(elapsed)) == |elapsed|
  {
    if elapsed != [] {
      var n := |elapsed| - 1;
      var round := [Probed(false), Measured(elapsed[n])];
      RoundsAreSilent(elapsed[..n]);
      MessagesConcat(Rounds(elapsed[..n]), round);
      ProbesConcat(Rounds(elapsed[..n]), round);
      ShortLogs(round);
    }
  }

  lemma ShortLogs(log: seq<Entry>)
    requires |log| <= 3
    ensures |log| == 0 ==> Messages(log) == [] && Probes(log) == 0
    ensures |log| == 1 ==> Messages(log) == One(log[0]) && Probes(log) == Tally(log[0])
    ensures |log| == 2 ==> Messages(log) == One(log[0]) + One(log[1]) && Probes(log) == Tally(log[0]) + Tally(log[1])
    ensures |log| == 3 ==> Messages(log) == One(log[0]) + One(log[1]) + One(log[2])
                           && Probes(log) == Tally(log[0]) + Tally(log[1]) + Tally(log[2])
  {
    if log != [] {
      ShortLogs(log[..|log| - 1]);
    }
  }

  lemma EntryOf1(log: seq<Entry>)
    requires |log| == 1
    ensures Messages(log) == One(log[0]) && Probes(log) == Tally(log[0])
  {
    ShortLogs(log);
  }

  lemma EntriesOf2(log: seq<Entry>)
    requires |log| == 2
    ensures Messages(log) == One(log[0]) + One(log[1]) && Probes(log) == Tally(log[0]) + Tally(log[1])
  {
    ShortLogs(log);
  }

  lemma EntriesOf3(log: seq<Entry>)
    requires |log| == 3
    ensures Messages(log) == One(log[0]) + One(log[1]) + One(log[2])
    ensures Probes(log) == Tally(log[0]) + Tally(log[1]) + Tally(log[2])
  {
    ShortLogs(log);
  }

  function One(e: Entry): seq<Message> { if e.Sent? then [e.message] else [] }

  function Tally(e: Entry): nat { if e.Probed? then 1 else 0 }

  /** What was sent is what the log says was sent. */
  lemma {:induction false} SentIsLogged(t: Timing, labels: seq<Label>, s: State)
    requires Run(t, labels, s)
    ensures s.sent == Messages(s.log)
  {
    if labels != [] {
      var prev := After(t, labels[..|labels| - 1]);
      SentIsLogged(t, labels[..|labels| - 1], prev);
      StepIsLogged(prev, labels[|labels| - 1], t);
    }
  }

  lemma StepIsLogged(s: State, l: Label, t: Timing)
    requires Enabled(s, l, t) && s.sent == Messages(s.log)
    ensures Next(s, l, t).sent == Messages(Next(s, l, t).log)
  {
    var m := Next(s, l, t);
    if |m.log| > |s.log| {
      assert m.log == s.log + [m.log[|s.log|]];
      MessagesConcat(s.log, [m.log[|s.log|]]);
      EntryOf1([m.log[|s.log|]]);
    }
  }

  lemma PartsMessages(s: State, t: Timing, elapsed: seq<real>, tail: seq<Entry>)
    requires Parts(s, t, elapsed, tail)
    ensures Messages(s.log) == [Ack] + Messages(tail) && Probes(s.log) == |elapsed| + Probes(tail)
  {
    ThreePieces([Sent(Ack)], Rounds(elapsed), tail);
    RoundsAreSilent(elapsed);
    EntryOf1([Sent(Ack)]);
  }

  lemma ThreePieces(a: seq<Entry>, b: seq<Entry>, c: seq<Entry>)
    ensures Messages(a + b + c) == Messages(a) + Messages(b) + Messages(c)
    ensures Probes(a + b + c) == Probes(a) + Probes(b) + Probes(c)
  {
    MessagesConcat(a, b);
    MessagesConcat(a + b, c);
    ProbesConcat(a, b);
    ProbesConcat(a + b, c);
  }

  /** What the ending of a log contributes, for each place the thread can be. */
  lemma TailMessages(s: State, t: Timing, tail: seq<Entry>)
    requires Tail(tail, s, t)
    ensures Probes(tail) <= 1
    ensures var sent := Messages(tail); sent == [] || ((sent == [Started] || sent == [TimedOut]) && Final(tail, t))
    ensures s.phase.Stopping? ==> Messages(tail) != []
    ensures Messages(tail) == [Started] ==> tail == [Probed(true), Sent(Started)]
    ensures Messages(tail) == [TimedOut] ==>
      |tail| == 3 && tail[0] == Probed(false) && tail[1].Measured? && tail[1].elapsed >= t.timeoutAt && tail[2] == Sent(TimedOut)
    ensures Messages(tail) != [] ==> s.phase.Stopping? || s.phase.Exited?
  {
    if |tail| == 1 {
      EntryOf1(tail);
    } else if |tail| == 2 {
      EntriesOf2(tail);
    } else if |tail| == 3 {
      EntriesOf3(tail);
    }
  }

  /** Everything sent: one ack, then at most one of `started` and `timeout`, then nothing. */
  lemma SentInOrder(t: Timing, labels: seq<Label>, s: State)
    requires Run(t, labels, s)
    ensures s.sent == [] || s.sent == [Ack] || s.sent == [Ack, Started] || s.sent == [Ack, TimedOut]
    ensures s.sent == [] <==> s.phase.Idle?
    ensures s.phase.Stopping? ==> |s.sent| == 2
    ensures |s.sent| == 2 ==> s.phase.Stopping? || s.phase.Exited?
  {
    EveryRunIsShaped(t, labels, s);
    SentIsLogged(t, labels, s);
    if !s.phase.Idle? {
      var elapsed, tail :| Parts(s, t, elapsed, tail);
      PartsMessages(s, t, elapsed, tail);
      TailMessages(s, t, tail);
    }
  }

  /** `started` directly follows an accepted probe; `timeout` a refused one measured at or past the timeout. */
  ghost predicate Earned(log: seq<Entry>, t: Timing) {
    var n := |log|;
    || (n >= 2 && log[n - 1] == Sent(Started) && log[n - 2] == Probed(true))
    || (n >= 3 && log[n - 1] == Sent(TimedOut) && log[n - 3] == Probed(false)
        && log[n - 2].Measured? && log[n - 2].elapsed >= t.timeoutAt)
  }

  lemma EndingsAreEarned(t: Timing, labels: seq<Label>, s: State)
    requires Run(t, labels, s) && |s.sent| == 2
    ensures Earned(s.log, t) && s.sent[1] == s.log[|s.log| - 1].message
    ensures forall k :: 0 <= k < |s.log| - 2 ==> s.log[k] != Probed(true)
  {
    EveryRunIsShaped(t, labels, s);
    SentInOrder(t, labels, s);
    SentIsLogged(t, labels, s);
    var elapsed, tail :| Parts(s, t, elapsed, tail);
    PartsMessages(s, t, elapsed, tail);
    TailMessages(s, t, tail);
    RoundsRefuse(elapsed);
    EndOfLog([Sent(Ack)] + Rounds(elapsed), tail, t);
  }

  lemma EndOfLog(start: seq<Entry>, tail: seq<Entry>, t: Timing)
    requires Final(tail, t) && Probed(true) !in start
    ensures Earned(start + tail, t)
    ensures (start + tail)[|start + tail| - 1] == tail[|tail| - 1]
    ensures forall k :: 0 <= k < |start + tail| - 2 ==> (start + tail)[k] != Probed(true)
  {
    var log := start + tail;
    forall k | 0 <= k < |log| - 2 ensures log[k] != Probed(true) {
      if k < |start| {
        assert log[k] == start[k] && start[k] in start;
      }
    }
  }

  lemma {:induction false} RoundsRefuse(elapsed: seq<real>)
    ensures Probed(true) !in Rounds(elapsed)
  {
    if elapsed != [] {
      RoundsRefuse(elapsed[..|elapsed| - 1]);
    }
  }

  // ---- Cancelling ----

  /** After the first cancel at most one message is sent, and once it is sent the loop can only leave. */
  ghost predicate Quieted(s: State) {
    var sent := |s.sent|;
    s.cancelledAt == NEVER
    || (s.stop && 0 <= s.cancelledAt <= sent <= s.cancelledAt + 1
        && (sent == s.cancelledAt + 1 ==> s.phase.Launched? || s.phase.Top? || s.phase.Stopping? || s.phase.Exited?))
  }

  lemma StepKeepsQuieted(s: State, l: Label, t: Timing)
    requires Quieted(s) && Enabled(s, l, t)
    ensures Quieted(Next(s, l, t))
  {
  }

  lemma {:induction false} AtMostOneMessageAfterCancel(t: Timing, labels: seq<Label>, s: State)
    requires Run(t, labels, s)
    ensures Quieted(s)
  {
    if labels != [] {
      var n := |labels| - 1;
      var prev := After(t, labels[..n]);
      AtMostOneMessageAfterCancel(t, labels[..n], prev);
      StepKeepsQuieted(prev, labels[n], t);
    }
  }

  // ---- How many probes ----

  function Ceiling(x: real): int { -((-x).Floor) }

  lemma ProbesOfParts(s: State, t: Timing, elapsed: seq<real>, tail: seq<Entry>)
    requires Parts(s, t, elapsed, tail)
    ensures Probes(s.log) <= |elapsed| + 1 && Spaced(elapsed, t)
  {
    PartsMessages(s, t, elapsed, tail);
    TailMessages(s, t, tail);
  }

  lemma FewRounds(t: Timing, elapsed: seq<real>)
    requires Spaced(elapsed, t) && t.interval > 0.0
    ensures |elapsed| == 0 || |elapsed| + 1 <= Ceiling(t.timeoutAt / t.interval)
  {
    if elapsed != [] {
      LastRound(t, elapsed);
      BelowQuotient(|elapsed|, t.interval, t.timeoutAt);
    }
  }

  ghost predicate ProbesWithin(s: State, t: Timing)
    requires t.interval > 0.0
  {
    Probes(s.log) <= 1 || Probes(s.log) <= Ceiling(t.timeoutAt / t.interval)
  }

  lemma ShapedWithin(s: State, t: Timing)
    requires Shaped(s, t) && t.interval > 0.0
    ensures ProbesWithin(s, t)
  {
    if !s.phase.Idle? {
      var elapsed, tail :| Parts(s, t, elapsed, tail);
      ProbesOfParts(s, t, elapsed, tail);
      FewRounds(t, elapsed);
    }
  }

  /** With a positive interval the loop probes at most ceil(timeout / interval) times, but always may probe once. */
  lemma ProbesAreBounded(t: Timing, labels: seq<Label>, s: State)
    requires Run(t, labels, s) && t.interval > 0.0
    ensures ProbesWithin(s, t)
  {
    EveryRunIsShaped(t, labels, s);
    ShapedWithin(s, t);
  }

  lemma LastRound(t: Timing, elapsed: seq<real>)
    requires Spaced(elapsed, t) && elapsed != []
    ensures |elapsed| as real * t.interval < t.timeoutAt
  {
    var n := |elapsed|;
    assert Pace(n - 1 + 1, t) <= elapsed[n - 1];
    PaceIs(n, t);
  }

  lemma BelowQuotient(n: nat, x: real, y: real)
    requires x > 0.0 && n as real * x < y
    ensures n + 1 <= Ceiling(y / x)
  {
    var q := y / x;
    assert q * x == y;
    Cancelled(n as real, q, x);
  }

  lemma Cancelled(a: real, b: real, x: real)
    requires x > 0.0 && a * x < b * x
    ensures a < b
  {
    assert (b - a) * x > 0.0;
  }

  /** Whatever the timeout, the loop can wait and probe once before it first looks at the clock. */
  lemma FirstProbe(t: Timing) returns (labels: seq<Label>, s: State)
    requires t.interval > 0.0
    ensures Run(t, labels, s) && s.log == [Sent(Ack), Probed(false)]
  {
    labels, s := [], Initial;
    labels, s := Extend(t, labels, s, Start);
    labels, s := Extend(t, labels, s, Launch);
    labels, s := Extend(t, labels, s, Check);
    labels, s := Extend(t, labels, s, Enter);
    labels, s := Extend(t, labels, s, Tick(t.interval));
    labels, s := Extend(t, labels, s, WakeTimeout);
    labels, s := Extend(t, labels, s, Probe(false));
  }

  lemma NoTimeNoQuotient(t: Timing)
    requires t.interval > 0.0 && t.timeoutAt <= 0.0
    ensures Ceiling(t.timeoutAt / t.interval) <= 0
  {
    assert t.timeoutAt / t.interval <= 0.0;
  }

  /** So with a timeout of zero or less the quotient bound fails. */
  lemma QuotientBoundFailsWithoutTime(t: Timing) returns (labels: seq<Label>, s: State)
    requires t.interval > 0.0 && t.timeoutAt <= 0.0
    ensures Run(t, labels, s) && Probes(s.log) == 1 > Ceiling(t.timeoutAt / t.interval)
  {
    labels, s := FirstProbe(t);
    EntriesOf2(s.log);
    NoTimeNoQuotient(t);
  }

  lemma Extend(t: Timing, labels: seq<Label>, s: State, l: Label) returns (more: seq<Label>, m: State)
    requires Run(t, labels, s) && Enabled(s, l, t)
    ensures more == labels + [l] && m == Next(s, l, t) && Run(t, more, m)
  {
    more, m := labels + [l], Next(s, l, t);
    assert more[..|more| - 1] == labels;
  }

  /** The plain quotient bound holds over every run exactly when the timeout is positive. */
  lemma QuotientBoundIff(t: Timing)
    requires t.interval > 0.0
    ensures (forall labels, s :: Run(t, labels, s) ==> Probes(s.log) <= Ceiling(t.timeoutAt / t.interval)) <==> t.timeoutAt > 0.0
  {
    if t.timeoutAt > 0.0 {
      BelowQuotient(0, t.interval, t.timeoutAt);
      forall labels, s | Run(t, labels, s) ensures Probes(s.log) <= Ceiling(t.timeoutAt / t.interval) {
        ProbesAreBounded(t, labels, s);
      }
    } else {
      var labels, s := QuotientBoundFailsWithoutTime(t);
      assert Run(t, labels, s);
    }
  }

  // ---- The handshake object ----

  /**
   What the surroundings do to one round of the loop: a cancel seen before the round, a cancel seen by the wait,
   when the wait ends, what the application answers, and when the clock is read.
   */
  datatype Round = Round(stopSeen: bool, signaled: bool, wokeAt: real, accepted: bool, readAt: real)

  function RoundStart(env: nat -> Round, k: nat, start: real): real {
    if k == 0 then start else env(k - 1).readAt
  }

  ghost predicate Timely(env: nat -> Round, start: real, t: Timing) {
    forall k: nat {:trigger RoundStart(env, k, start)} ::
      RoundStart(env, k, start) <= env(k).wokeAt <= env(k).readAt && RoundStart(env, k, start) + t.interval <= env(k).wokeAt
  }

  /** A round after which the loop goes on. */
  predicate Quiet(r: Round, start: real, t: Timing) {
    !r.stopSeen && !r.signaled && !r.accepted && r.readAt - start < t.timeoutAt
  }

  /** The first `n` rounds all let the loop go on. */
  predicate AllQuiet(env: nat -> Round, n: nat, start: real, t: Timing) {
    n == 0 || (AllQuiet(env, n - 1, start, t) && Quiet(env(n - 1), start, t))
  }

  /** The message that ends the loop, if any, given the first round that is not quiet. */
  function Ending(r: Round): seq<Message> {
    if r.stopSeen || r.signaled then [] else if r.accepted then [Started] else [TimedOut]
  }

  /** With a positive interval, enough rounds use up any timeout. */
  lemma EnoughRounds(t: Timing) returns (n: nat)
    requires t.interval > 0.0
    ensures t.timeoutAt <= Pace(n, t)
  {
    n := if t.timeoutAt > 0.0 then Ceiling(t.timeoutAt / t.interval) else 0;
    PaceIs(n, t);
    if t.timeoutAt > 0.0 {
      AboveQuotient(n, t.interval, t.timeoutAt);
    }
  }

  lemma AboveQuotient(n: nat, x: real, y: real)
    requires x > 0.0 && y > 0.0 && n == Ceiling(y / x)
    ensures y <= n as real * x
  {
    var q := y / x;
    assert q * x == y;
    assert n as real >= q;
    assert (n as real - q) * x >= 0.0;
  }

  lemma {:induction false} RoundsTakeTime(env: nat -> Round, k: nat, start: real, t: Timing)
    requires Timely(env, start, t)
    ensures Pace(k, t) <= RoundStart(env, k, start) - start
  {
    if k > 0 {
      RoundsTakeTime(env, k - 1, start, t);
      assert RoundStart(env, k - 1, start) + t.interval <= env(k - 1).readAt;
    }
  }

  /** With a positive interval the surroundings always bring the loop to an end. */
  lemma SomeRoundEnds(env: nat -> Round, start: real, t: Timing) returns (n: nat)
    requires t.interval > 0.0 && Timely(env, start, t)
    ensures !Quiet(env(n), start, t)
  {
    var enough := EnoughRounds(t);
    n := if enough == 0 then 0 else enough - 1;
    RoundsTakeTime(env, n + 1, start, t);
    assert Pace(n + 1, t) == Pace(n, t) + t.interval;
    assert Pace(0, t) == 0.0;
  }

  predicate Silent(l: Label) {
    !(l.Cancel? || l.Start? || l.SendStarted? || l.SendTimeout? || l.Finish?)
  }

  class Handshake {
    const timing: Timing
    var stop: bool
    var sent: seq<Message>
    ghost var labels: seq<Label>
    ghost var state: State

    /** The object's history so far is a run of the protocol above. */
    ghost predicate Valid()
      reads this
    {
      Run(timing, labels, state) && sent == state.sent && stop == state.stop
    }

    constructor (t: Timing)
      ensures Valid() && timing == t && state == Initial && sent == [] && !stop
    {
      timing, stop, sent := t, false, [];
      labels, state := [], Initial;
    }

    ghost method Follow(l: Label)
      requires Run(timing, labels, state) && Enabled(state, l, timing)
      modifies `labels, `state
      ensures Run(timing, labels, state) && state == Next(old(state), l, timing)
    {
      labels, state := Extend(timing, labels, state, l);
    }

    /** A step that sends nothing and leaves the stop flag alone. */
    ghost method Pass(l: Label)
      requires Valid() && Enabled(state, l, timing) && Silent(l)
      modifies `labels, `state
      ensures Valid() && state == Next(old(state), l, timing)
    {
      Follow(l);
    }

    method Send(m: Message, ghost l: Label)
      requires Valid() && Enabled(state, l, timing)
      requires Next(state, l, timing).sent == state.sent + [m] && Next(state, l, timing).stop == stop
      modifies this
      ensures Valid() && sent == old(sent) + [m] && stop == old(stop) && state == Next(old(state), l, timing)
    {
      Follow(l);
      sent := sent + [m];
    }

    method Start()
      requires Valid() && state.phase.Idle?
      modifies this
      ensures Valid() && sent == old(sent) + [Ack] && stop == old(stop) && state.phase.Launched?
    {
      Send(Ack, Label.Start);
    }

    /** Idempotent, and sends nothing. */
    method Cancel()
      requires Valid()
      modifies this
      ensures Valid() && stop && sent == old(sent)
      ensures state == Next(old(state), Label.Cancel, timing)
    {
      Follow(Label.Cancel);
      stop := true;
    }

    /** Another thread's cancel, if the surroundings have one here. */
    method Meanwhile(cancelled: bool)
      requires Valid()
      modifies this
      ensures Valid() && sent == old(sent) && (stop <==> old(stop) || cancelled)
      ensures state.phase == old(state.phase) && state.clock == old(state.clock)
      ensures state.since == old(state.since) && state.startedAt == old(state.startedAt)
    {
      if cancelled {
        Cancel();
      }
    }

    /** Top of the loop to the end of the wait. */
    method AwaitProbe(r: Round) returns (proceed: bool)
      requires Valid() && state.phase.Top? && !stop && state.clock <= r.wokeAt && state.clock + timing.interval <= r.wokeAt
      modifies this
      ensures Valid() && sent == old(sent) && state.startedAt == old(state.startedAt)
      ensures proceed <==> !r.signaled
      ensures proceed ==> state.phase.Probing? && !stop && state.clock == r.wokeAt
      ensures !proceed ==> state.phase.Exited? && stop
    {
      Pass(Check);
      Pass(Enter);
      Meanwhile(r.signaled);
      if stop {
        Pass(WakeStopped);
        return false;
      }
      Pass(Tick(r.wokeAt - state.clock));
      Pass(WakeTimeout);
      return true;
    }

    method Finish()
      requires Valid() && state.phase.Stopping?
      modifies this
      ensures Valid() && stop && sent == old(sent) && state == Next(old(state), Label.Finish, timing)
    {
      Follow(Label.Finish);
      stop := true;
    }

    /** The probe, and `started` when it is accepted. */
    method ProbeOnce(r: Round)
      requires Valid() && state.phase.Probing? && !stop
      modifies this
      ensures Valid() && stop == r.accepted
      ensures sent == old(sent) + if r.accepted then [Started] else []
      ensures if r.accepted then state.phase.Exited? else state.phase.Failed?
      ensures state.clock == old(state.clock) && state.startedAt == old(state.startedAt)
    {
      Pass(Probe(r.accepted));
      if r.accepted {
        Send(Started, SendStarted);
        Finish();
      }
    }

    /** The clock reading after a refused probe, and `timeout` when it is late enough. */
    method MeasureOnce(r: Round, startedAt: real)
      requires Valid() && state.phase.Failed? && !stop && state.clock <= r.readAt && startedAt == state.startedAt
      modifies this
      ensures Valid() && (stop <==> r.readAt - startedAt >= timing.timeoutAt)
      ensures sent == old(sent) + if stop then [TimedOut] else []
      ensures if stop then state.phase.Exited? else state.phase.Top?
      ensures state.clock == r.readAt && state.startedAt == startedAt
    {
      Pass(Tick(r.readAt - state.clock));
      Pass(ReadClock);
      if r.readAt - startedAt >= timing.timeoutAt {
        Send(TimedOut, SendTimeout);
        Finish();
      }
    }

    /** One turn of the loop. */
    method Turn(r: Round, startedAt: real) returns (over: bool)
      requires Valid() && state.phase.Top? && !stop && startedAt == state.startedAt
      requires state.clock <= r.wokeAt <= r.readAt && state.clock + timing.interval <= r.wokeAt
      modifies this
      ensures Valid() && over == stop
      ensures over <==> r.signaled || r.accepted || r.readAt - startedAt >= timing.timeoutAt
      ensures sent == old(sent) + if !over || r.signaled then [] else if r.accepted then [Started] else [TimedOut]
      ensures if over then state.phase.Exited? else state.phase.Top?
      ensures !over ==> state.clock == r.readAt && state.startedAt == startedAt
    {
      var proceed := AwaitProbe(r);
      if !proceed {
        return true;
      }
      ProbeOnce(r);
      if stop {
        return true;
      }
      MeasureOnce(r, startedAt);
      return stop;
    }

    /** One whole round, then another thread's cancel if there is one. */
    method Round(startedAt: real, env: nat -> Round, k: nat) returns (over: bool)
      requires Valid() && state.phase.Top? && !stop && Timely(env, startedAt, timing)
      requires state.clock == RoundStart(env, k, startedAt) && state.startedAt == startedAt && !env(k).stopSeen
      modifies this
      ensures Valid() && (over ==> stop && state.phase.Exited?)
      ensures over <==> !Quiet(env(k), startedAt, timing)
      ensures sent == old(sent) + if over then Ending(env(k)) else []
      ensures !over ==> state.phase.Top? && state.clock == RoundStart(env, k + 1, startedAt) && state.startedAt == startedAt
      ensures !over ==> (stop <==> env(k + 1).stopSeen)
    {
      assert RoundStart(env, k, startedAt) + timing.interval <= env(k).wokeAt <= env(k).readAt;
      over := Turn(env(k), startedAt);
      if !over {
        Meanwhile(env(k + 1).stopSeen);
      }
    }

    /** The rounds, from the top of the loop until it is left; `limit` is a round at which it must be. */
    method Rounds(startedAt: real, env: nat -> Round, ghost limit: nat) returns (ghost last: nat)
      requires Valid() && state.phase.Top? && startedAt == state.clock == state.startedAt
      requires Timely(env, startedAt, timing) && !stop && !env(0).stopSeen && !Quiet(env(limit), startedAt, timing)
      modifies this
      ensures Valid() && stop && state.phase.Exited?
      ensures sent == old(sent) + Ending(env(last))
      ensures AllQuiet(env, last, startedAt, timing) && !Quiet(env(last), startedAt, timing)
    {
      var k: nat := 0;
      while !stop
        invariant Valid() && state.phase.Top? && sent == old(sent)
        invariant state.clock == RoundStart(env, k, startedAt) && state.startedAt == startedAt
        invariant stop <==> env(k).stopSeen
        invariant AllQuiet(env, k, startedAt, timing) && k <= limit
        decreases limit - k
      {
        var over := Round(startedAt, env, k);
        if over {
          return k;
        }
        k := k + 1;
      }
      Pass(Check);
      return k;
    }

    /**
     The loop, in any surroundings that keep time and at some round end it (`SomeRoundEnds` says when they must): what it
     sends is decided by the first round that is not quiet.
     */
    method ProdLoop(startedAt: real, env: nat -> Round, ghost limit: nat) returns (ghost last: nat)
      requires Valid() && state.phase.Launched? && startedAt == state.clock
      requires Timely(env, startedAt, timing) && !Quiet(env(limit), startedAt, timing)
      modifies this
      ensures Valid() && stop && state.phase.Exited?
      ensures old(stop) ==> sent == old(sent)
      ensures !old(stop) ==> sent == old(sent) + Ending(env(last))
      ensures !old(stop) ==> AllQuiet(env, last, startedAt, timing) && !Quiet(env(last), startedAt, timing)
    {
      Pass(Launch);
      Meanwhile(env(0).stopSeen);
      if !stop {
        last := Rounds(startedAt, env, limit);
      } else {
        Pass(Check);
        last := 0;
      }
    }
  }
}
