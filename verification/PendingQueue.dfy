/**
 The QUIET queue: one text line per notification, appended as messages come in
 and parsed back when the agent reaches a break.
 */
module PendingQueue {
  import opened Tickets
  import opened TextLines

  datatype Entry = Entry(ts: string, sender: string, summary: string)

  const SEP: string := " | "

  function Line(e: Entry): string {
    e.ts + SEP + (e.sender + SEP + e.summary)
  }

  function Format(e: Entry): string {
    Line(e) + "\n"
  }

  predicate SepAt(s: string, i: nat) {
    i + 3 <= |s| && s[i] == ' ' && s[i + 1] == '|' && s[i + 2] == ' '
  }

  /** The text before the first separator and the text after it. */
  function Cut(s: string): Option<(string, string)> {
    if |s| < 3 then None
    else if SepAt(s, 0) then Some(("", s[3..]))
    else
      var r := Cut(s[1..]);
      if r.None? then None else Some(([s[0]] + r.value.0, r.value.1))
  }

  /** `line.split(" | ", 2)`, kept only when it has three parts. */
  function ParseLine(line: string): Option<Entry> {
    var a := Cut(line);
    if a.None? then None
    else
      var b := Cut(a.value.1);
      if b.None? then None else Some(Entry(a.value.0, b.value.0, b.value.1))
  }

  function ParseLines(lines: seq<string>): seq<Entry> {
    if lines == [] then []
    else
      var n := |lines| - 1;
      var e := ParseLine(lines[n]);
      ParseLines(lines[..n]) + (if e.None? then [] else [e.value])
  }

  function ParseFile(text: string): seq<Entry> {
    ParseLines(SplitLines(Universal(text)))
  }

  datatype Level = Silent | Quiet | Loud

  class Dispatcher {
    var overrides: map<string, Level>
    var defaultLevel: Level
    /** The pending file: absent, or its text. */
    var pending: Option<string>

    /** Override first, then the busy state, then the configured default. */
    method Filter(sender: string, busy: Option<bool>) returns (level: Level)
      ensures sender in overrides ==> level == overrides[sender]
      ensures sender !in overrides ==> level == if busy == Some(true) then Silent else defaultLevel
    {
      if sender in overrides {
        return overrides[sender];
      }
      if busy.Some? && busy.value {
        return Silent;
      }
      return defaultLevel;
    }

    method QueuePending(e: Entry)
      modifies this`pending
      ensures pending == Some((if old(pending).None? then "" else old(pending).value) + Format(e))
      ensures pending == Some((if old(pending).None? then "" else old(pending).value)
                              + (e.ts + " | " + (e.sender + " | " + e.summary) + "\n"))
    {
      var text := if pending.None? then "" else pending.value;
      pending := Some(text + Format(e));
    }

    /** A LOUD message that cannot reach its session is queued, never dropped. */
    method Deliver(e: Entry, busy: Option<bool>, sessionReached: bool) returns (effective: Level)
      modifies this`pending
      ensures var level := if e.sender in overrides then overrides[e.sender]
                           else if busy == Some(true) then Silent else defaultLevel;
        effective == if level == Loud && !sessionReached then Quiet else level
      ensures effective == Quiet ==> pending == Some((if old(pending).None? then "" else old(pending).value) + Format(e))
      ensures effective != Quiet ==> pending == old(pending)
    {
      effective := Filter(e.sender, busy);
      if effective == Loud {
        if sessionReached {
          return Loud;
        }
        effective := Quiet;
      }
      if effective == Quiet {
        QueuePending(e);
      }
    }

    /** Reads every well-formed line, in order, and removes the file. */
    method DrainPending() returns (entries: seq<Entry>)
      modifies this`pending
      ensures pending.None?
      ensures entries == if old(pending).None? then [] else ParseFile(old(pending).value)
    {
      if pending.None? {
        return [];
      }
      var lines := SplitLines(Universal(pending.value));
      entries := [];
      var i := 0;
      while i < |lines|
        invariant 0 <= i <= |lines|
        invariant entries == ParseLines(lines[..i])
        modifies {}
      {
        assert lines[..i + 1][..i] == lines[..i];
        var e := ParseLine(lines[i]);
        if e.Some? {
          entries := entries + [e.value];
        }
        i := i + 1;
      }
      assert lines[..i] == lines;
      pending := None;
    }
  }

  // ---- One line ----

  /** The separator cannot be found early: it is not inside the field, nor begun by its last two characters. */
  ghost predicate Clean(field: string) {
    (forall i: nat :: !SepAt(field, i)) && !HalfSep(field)
  }

  predicate HalfSep(s: string) {
    |s| >= 2 && s[|s| - 2] == ' ' && s[|s| - 1] == '|'
  }

  lemma {:induction false} CutAtField(field: string, rest: string)
    ensures Clean(field) <==> Cut(field + SEP + rest) == Some((field, rest))
  {
    var s := field + SEP + rest;
    if field == "" {
      assert s[3..] == rest;
    } else {
      var t := field[1..];
      assert s[1..] == t + SEP + rest;
      CutAtField(t, rest);
      assert forall i: nat :: SepAt(t, i) <==> SepAt(field, i + 1);
      assert SepAt(s, 0) <==> SepAt(field, 0) || (|field| == 2 && HalfSep(field)) by {
        assert forall i: nat :: i < |field| ==> s[i] == field[i];
        assert s[|field|] == ' ' && s[|field| + 1] == '|';
      }
      assert Clean(field) ==> Clean(t);
      assert Clean(t) && !SepAt(s, 0) ==> Clean(field) by {
        forall i: nat | SepAt(field, i) ensures i == 0 || SepAt(t, i - 1) {
        }
      }
      assert field == [field[0]] + t;
    }
  }

  /** A formatted line parses back to its entry exactly when neither leading field can hide a separator. */
  lemma LineRoundTripIff(e: Entry)
    ensures ParseLine(Line(e)) == Some(e) <==> Clean(e.ts) && Clean(e.sender)
  {
    var tail := e.sender + SEP + e.summary;
    CutAtField(e.ts, tail);
    CutAtField(e.sender, e.summary);
    var a := Cut(Line(e));
    if a.Some? && a.value.0 == e.ts {
      CutIsSplit(Line(e));
      assert Line(e)[|e.ts| + 3..] == tail == a.value.1;
      var b := Cut(tail);
      if b.Some? && b.value.0 == e.sender {
        CutIsSplit(tail);
        assert tail[|e.sender| + 3..] == e.summary == b.value.1;
      }
    }
  }

  /** Cutting loses nothing but the separator. */
  lemma {:induction false} CutIsSplit(s: string)
    ensures Cut(s).Some? ==> s == Cut(s).value.0 + SEP + Cut(s).value.1
  {
    if |s| >= 3 {
      if SepAt(s, 0) {
        assert s == SEP + s[3..];
      } else {
        CutIsSplit(s[1..]);
        assert s == [s[0]] + s[1..];
      }
    }
  }

  lemma {:induction false} CutIffSeparated(s: string)
    ensures Cut(s).Some? <==> exists a, b :: s == a + SEP + b
  {
    if Cut(s).Some? {
      CutIsSplit(s);
    }
    if a, b :| s == a + SEP + b {
      SeparatedIsCut(a, b);
    }
  }

  lemma {:induction false} SeparatedIsCut(a: string, b: string)
    ensures Cut(a + SEP + b).Some?
    ensures Cut(a + SEP + b).value.0 <= a
  {
    var s := a + SEP + b;
    if a != "" {
      assert s[1..] == a[1..] + SEP + b;
      SeparatedIsCut(a[1..], b);
      assert a == [a[0]] + a[1..];
    }
  }

  /** What follows the first separator still holds every later one. */
  lemma RestOfCut(a: string, b: string)
    ensures Cut(a + SEP + b).Some?
    ensures var rest := Cut(a + SEP + b).value.1; |rest| >= |b| && rest[|rest| - |b|..] == b
  {
    var s := a + SEP + b;
    SeparatedIsCut(a, b);
    CutIsSplit(s);
    var rest := Cut(s).value.1;
    assert rest[|rest| - |b|..] == s[|s| - |b|..] == b;
  }

  /** A line is kept exactly when it has two separators in it. */
  lemma ParsesIff(line: string)
    ensures ParseLine(line).Some? <==> exists a, b, c :: line == a + SEP + (b + SEP + c)
  {
    if ParseLine(line).Some? {
      CutIsSplit(line);
      CutIsSplit(Cut(line).value.1);
    }
    if a, b, c :| line == a + SEP + (b + SEP + c) {
      SeparatedIsCut(a, b + SEP + c);
      RestOfCut(a, b + SEP + c);
      var rest := Cut(line).value.1;
      assert rest == (rest[..|rest| - |b + SEP + c|] + b) + SEP + c;
      CutIffSeparated(rest);
    }
  }

  /** Lines are read one by one: one that is not kept does not affect the others. */
  lemma {:induction false} LinesParseApart(a: seq<string>, b: seq<string>)
    ensures ParseLines(a + b) == ParseLines(a) + ParseLines(b)
  {
    if b == [] {
      assert a + b == a;
    } else {
      var n := |b| - 1;
      assert (a + b)[..|a| + n] == a + b[..n];
      LinesParseApart(a, b[..n]);
    }
  }

  lemma BadLineIsSkipped(a: seq<string>, bad: string, b: seq<string>)
    requires ParseLine(bad).None?
    ensures ParseLines(a + [bad] + b) == ParseLines(a + b)
  {
    LinesParseApart(a + [bad], b);
    LinesParseApart(a, [bad]);
    LinesParseApart(a, b);
    assert [bad][..0] == [] && ParseLines([bad]) == [];
  }

  // ---- Whole files and whole runs ----

  ghost predicate Queueable(e: Entry) {
    NoBreak(e.ts) && NoBreak(e.sender) && NoBreak(e.summary) && Clean(e.ts) && Clean(e.sender)
  }

  ghost function Formatted(es: seq<Entry>): seq<string> {
    seq(|es|, k requires 0 <= k < |es| => Format(es[k]))
  }

  ghost function FileOf(es: seq<Entry>): string {
    Concat(Formatted(es))
  }

  lemma FormatIsFullLine(e: Entry)
    requires Queueable(e)
    ensures FullLine(Format(e)) && Chomp(Format(e)) == Line(e)
    ensures '\r' !in Format(e)
  {
    var line := Line(e);
    assert NoBreak(SEP);
    assert NoBreak(line) by {
      assert forall c :: c in line ==> c in e.ts || c in SEP || c in e.sender || c in e.summary;
      forall k | 0 <= k < |line| ensures !IsBreak(line[k]) {
        assert line[k] in line;
      }
    }
    assert Format(e)[..|line|] == line;
  }

  lemma {:induction false} NoReturnInConcat(lines: seq<string>)
    requires forall l :: l in lines ==> '\r' !in l
    ensures '\r' !in Concat(lines)
  {
    if lines != [] {
      NoReturnInConcat(lines[1..]);
    }
  }

  /** Queue then drain gives every entry back, once, in order, exactly when every entry can be queued. */
  lemma DrainUndoesQueueIff(es: seq<Entry>)
    ensures ParseFile(FileOf(es)) == es <==> forall e :: e in es ==> Queueable(e)
  {
    if forall e :: e in es ==> Queueable(e) {
      DrainUndoesQueue(es);
    }
    DrainedAreQueueable(FileOf(es));
  }

  lemma DrainUndoesQueue(es: seq<Entry>)
    requires forall e :: e in es ==> Queueable(e)
    ensures ParseFile(FileOf(es)) == es
  {
    FileSplits(es);
    ParseAll(SplitLines(FileOf(es)), es);
  }

  /** Whatever is in the file, what is read from it could have been queued. */
  lemma DrainedAreQueueable(text: string)
    ensures forall e :: e in ParseFile(text) ==> Queueable(e)
  {
    var lines := SplitKeep(Universal(text));
    ConcatOfSplit(Universal(text));
    forall k | 0 <= k < |lines| ensures NoBreak(SplitLines(Universal(text))[k]) {
      ChompedHasNoBreak(lines[k]);
    }
    ParsedAreQueueable(SplitLines(Universal(text)));
  }

  lemma ChompedHasNoBreak(line: string)
    requires LineLike(line)
    ensures NoBreak(Chomp(line))
  {
    assert forall k :: 0 <= k < |line| - 1 ==> line[k] == line[..|line| - 1][k];
  }

  lemma {:induction false} ParsedAreQueueable(lines: seq<string>)
    requires forall k :: 0 <= k < |lines| ==> NoBreak(lines[k])
    ensures forall e :: e in ParseLines(lines) ==> Queueable(e)
  {
    if lines != [] {
      ParsedAreQueueable(lines[..|lines| - 1]);
      ParsedIsQueueable(lines[|lines| - 1]);
    }
  }

  /** A cut field is clean, and a part of an unbroken line has no break. */
  lemma CutIsClean(s: string)
    requires Cut(s).Some? && NoBreak(s)
    ensures var (field, rest) := Cut(s).value; Clean(field) && NoBreak(field) && NoBreak(rest) && s == field + SEP + rest
  {
    var (field, rest) := Cut(s).value;
    CutIsSplit(s);
    CutAtField(field, rest);
    assert forall k :: 0 <= k < |field| ==> field[k] == s[k];
    assert forall k :: 0 <= k < |rest| ==> rest[k] == s[|field| + 3 + k];
  }

  lemma ParsedIsQueueable(line: string)
    requires NoBreak(line)
    ensures ParseLine(line).Some? ==> Queueable(ParseLine(line).value)
  {
    if ParseLine(line).Some? {
      CutIsClean(line);
      CutIsClean(Cut(line).value.1);
    }
  }

  lemma FileSplits(es: seq<Entry>)
    requires forall e :: e in es ==> Queueable(e)
    ensures Universal(FileOf(es)) == FileOf(es) && SplitKeep(FileOf(es)) == Formatted(es)
    ensures var lines := SplitLines(FileOf(es)); |lines| == |es| && forall k :: 0 <= k < |es| ==> lines[k] == Line(es[k])
  {
    var lines := Formatted(es);
    forall k | 0 <= k < |lines| ensures FullLine(lines[k]) && '\r' !in lines[k] && Chomp(lines[k]) == Line(es[k]) {
      assert es[k] in es;
      FormatIsFullLine(es[k]);
    }
    NoReturnInConcat(lines);
    UniversalNoReturn(FileOf(es));
    SplitOfConcat(lines);
  }

  lemma {:induction false} ParseAll(lines: seq<string>, es: seq<Entry>)
    requires |lines| == |es|
    requires forall k :: 0 <= k < |es| ==> Queueable(es[k]) && lines[k] == Line(es[k])
    ensures ParseLines(lines) == es
  {
    if es != [] {
      var n := |es| - 1;
      ParseAll(lines[..n], es[..n]);
      LineRoundTripIff(es[n]);
      assert es == es[..n] + [es[n]];
    }
  }

  datatype Event = Queued(e: Entry) | Drained

  datatype Mailbox = Mailbox(pending: Option<string>, taken: seq<Entry>)

  ghost function Play(m: Mailbox, events: seq<Event>): Mailbox {
    if events == [] then m
    else
      var n := |events| - 1;
      var s := Play(m, events[..n]);
      match events[n]
      case Queued(e) => s.(pending := Some((if s.pending.None? then "" else s.pending.value) + Format(e)))
      case Drained => Mailbox(None, s.taken + if s.pending.None? then [] else ParseFile(s.pending.value))
  }

  ghost function QueuedIn(events: seq<Event>): seq<Entry> {
    if events == [] then []
    else
      var n := |events| - 1;
      QueuedIn(events[..n]) + (if events[n].Queued? then [events[n].e] else [])
  }

  /** Over any run, what was drained plus what the file still holds is everything queued, in order. */
  lemma {:induction false} NothingLostOrRepeated(events: seq<Event>)
    requires forall e :: e in QueuedIn(events) ==> Queueable(e)
    ensures var s := Play(Mailbox(None, []), events);
      exists left: seq<Entry> :: s.taken + left == QueuedIn(events)
        && (s.pending.None? ==> left == []) && (s.pending.Some? ==> s.pending.value == FileOf(left))
        && (s.pending.Some? ==> ParseFile(s.pending.value) == left)
  {
    var s := Play(Mailbox(None, []), events);
    var left := Leftover(events);
    DrainUndoesQueue(left);
    assert s.taken + left == QueuedIn(events);
  }

  lemma {:induction false} Leftover(events: seq<Event>) returns (left: seq<Entry>)
    requires forall e :: e in QueuedIn(events) ==> Queueable(e)
    ensures var s := Play(Mailbox(None, []), events);
      s.taken + left == QueuedIn(events)
      && (s.pending.None? ==> left == []) && (s.pending.Some? ==> s.pending.value == FileOf(left))
    ensures forall e :: e in left ==> Queueable(e)
  {
    hide Queueable, Format;
    if events == [] {
      left := [];
    } else {
      var n := |events| - 1;
      var before := QueuedIn(events[..n]);
      assert forall e :: e in before ==> e in QueuedIn(events);
      left := Leftover(events[..n]);
      match events[n]
      case Queued(e) =>
        assert e in QueuedIn(events);
        assert Formatted(left + [e]) == Formatted(left) + [Format(e)];
        ConcatAppend(Formatted(left), [Format(e)]);
        assert Concat([Format(e)][1..]) == "";
        assert FileOf([]) == "";
        left := left + [e];
      case Drained =>
        DrainUndoesQueue(left);
        left := [];
    }
  }
}
