/**
 The emission store's names: a stamp derived from a hash when only the day is
 known, and file names that can be taken apart again.
 */
module MemoryEmit {
  import opened Tickets
  import opened TextLines

  // ---- Decimal text ----

  predicate AllDigits(s: string) {
    forall i :: 0 <= i < |s| ==> IsDigit(s[i])
  }

  function Digit(n: nat): (c: char)
    requires n < 10
    ensures IsDigit(c) && c as int - '0' as int == n
  {
    (n + '0' as int) as char
  }

  /** `n` in decimal, with zeros in front up to `width` characters; longer numbers are printed in full. */
  function Pad(n: nat, width: nat): string
    decreases n + width
  {
    (if n < 10 && width <= 1 then "" else Pad(n / 10, if width == 0 then 0 else width - 1)) + [Digit(n % 10)]
  }

  function Number(s: string): nat
    requires AllDigits(s)
  {
    if s == "" then 0 else Number(s[..|s| - 1]) * 10 + (s[|s| - 1] as int - '0' as int)
  }

  function Pow10(w: nat): nat {
    if w == 0 then 1 else 10 * Pow10(w - 1)
  }

  lemma {:induction false} PadIsFixedWidth(n: nat, width: nat)
    requires width > 0 && n < Pow10(width)
    ensures |Pad(n, width)| == width && AllDigits(Pad(n, width)) && Number(Pad(n, width)) == n
  {
    if width > 1 {
      PadIsFixedWidth(n / 10, width - 1);
      assert Pad(n, width)[..width - 1] == Pad(n / 10, width - 1);
    } else {
      assert Pow10(1) == 10 * Pow10(0);
      assert Pad(n, width) == [Digit(n)];
      assert Pad(n, width)[..0] == "";
    }
  }

  // ---- Clock text ----

  const MICROS: nat := 1_000_000
  const SLOTS: nat := 86_400_000_000

  /** hhmmssuuuuuu for a microsecond of the day. */
  function ClockText(hour: nat, minute: nat, sec: nat, micros: nat): string {
    Pad(hour, 2) + Pad(minute, 2) + Pad(sec, 2) + Pad(micros, 6)
  }

  /** The microsecond of the day that a clock text names, if it is a clock time. */
  function ReadClock(t: string): Option<nat> {
    if |t| != 12 || !AllDigits(t) then None
    else
      var hour, minute, sec, micros := Number(t[..2]), Number(t[2..4]), Number(t[4..6]), Number(t[6..]);
      if hour < 24 && minute < 60 && sec < 60 then Some(((hour * 60 + minute) * 60 + sec) * MICROS + micros) else None
  }

  lemma ReadPrinted(hour: nat, minute: nat, sec: nat, micros: nat)
    requires hour < 24 && minute < 60 && sec < 60 && micros < MICROS
    ensures |ClockText(hour, minute, sec, micros)| == 12 && AllDigits(ClockText(hour, minute, sec, micros))
    ensures ReadClock(ClockText(hour, minute, sec, micros)) == Some(((hour * 60 + minute) * 60 + sec) * MICROS + micros)
  {
    assert Pow10(2) == 100 && Pow10(6) == MICROS by {
      assert Pow10(3) == 1000;
      assert Pow10(5) == 100 * Pow10(3);
    }
    PadIsFixedWidth(hour, 2);
    PadIsFixedWidth(minute, 2);
    PadIsFixedWidth(sec, 2);
    PadIsFixedWidth(micros, 6);
    var t := ClockText(hour, minute, sec, micros);
    assert t[..2] == Pad(hour, 2) && t[2..4] == Pad(minute, 2) && t[4..6] == Pad(sec, 2) && t[6..] == Pad(micros, 6);
  }

  lemma DivMod(h: nat, m: nat)
    requires m > 0
    ensures h == h / m * m + h % m && 0 <= h % m < m
  {
  }

  lemma Times(k: int, m: int)
    requires k >= 1 && m > 0
    ensures k * m >= m
  {
  }

  lemma Apart(q: int, r: int, q': int, r': int, m: int)
    requires m > 0 && q * m + r == q' * m + r' && 0 <= r < m && 0 <= r' < m
    ensures q <= q'
  {
    assert (q - q') * m == q * m - q' * m;
    if q > q' {
      Times(q - q', m);
    }
  }

  /** Two ways to write a number with a remainder below `m` are the same way. */
  lemma Residue(q: int, r: int, q': int, r': int, m: int)
    requires m > 0 && q * m + r == q' * m + r' && 0 <= r < m && 0 <= r' < m
    ensures r == r'
  {
    Apart(q, r, q', r', m);
    Apart(q', r', q, r, m);
  }

  /** Peeling a mixed-radix digit off the low end leaves the same residues above it. */
  lemma Peel(h: nat, low: nat, high: nat)
    requires low > 0 && high > 0
    ensures low * high > 0 && h % (low * high) == (h / low % high) * low + h % low
  {
    var q := h / low;
    var t, u := q / high, q % high;
    DivMod(h, low);
    DivMod(q, high);
    Rearrange(h, low, high, t, u, h % low);
    assert low * high > 0;
    DivMod(h, low * high);
    Residue(h / (low * high), h % (low * high), t, u * low + h % low, low * high);
  }

  lemma Distribute(a: int, b: int, c: int)
    ensures (a + b) * c == a * c + b * c
  {
  }

  lemma Associate(a: int, b: int, c: int)
    ensures a * b * c == a * (c * b)
  {
  }

  lemma Rearrange(h: int, low: int, high: int, t: int, u: int, r: int)
    requires h == (t * high + u) * low + r && 0 <= u < high && 0 <= r < low
    ensures h == t * (low * high) + (u * low + r) && 0 <= u * low + r < low * high
  {
    Distribute(t * high, u, low);
    Associate(t, high, low);
    Times(high - u, low);
    Distribute(high - u, u, low);
    assert high * low == low * high;
    Times(u + 1, low);
    Distribute(u, 1, low);
  }

  lemma DaySplit(h: nat)
    ensures var a := h / MICROS; var b := a / 60; var c := b / 60;
      ((c % 24 * 60 + b % 60) * 60 + a % 60) * MICROS + h % MICROS == h % SLOTS
  {
    var a := h / MICROS;
    var b := a / 60;
    Peel(h, MICROS, 86400);
    Peel(a, 60, 1440);
    Peel(b, 60, 24);
  }

  /** The date and stamp patterns on ASCII digits; the stamp pattern's `$` lets one trailing newline through. */
  predicate IsDate(s: string) {
    |s| == 8 && AllDigits(s)
  }

  predicate IsStamp(s: string) {
    || IsBareStamp(s)
    || (|s| == 22 && s[21] == '\n' && IsBareStamp(s[..21]))
  }

  predicate IsBareStamp(s: string) {
    |s| == 21 && AllDigits(s[..8]) && s[8] == '.' && AllDigits(s[9..])
  }

  /** `_emitted_at_from_stamp`, given the calendar: the day and the microsecond of the day. */
  function EmittedAt(stamp: string, calendar: string -> bool): Option<(string, nat)>
    requires IsStamp(stamp)
  {
    var clock := ReadClock(stamp[9..]);
    if clock.Some? && calendar(stamp[..8]) then Some((stamp[..8], clock.value)) else None
  }

  /**
   The derived stamp is always well formed and decodes, on any calendar that knows the day, to the hash modulo the
   microseconds of a day.
   */
  method StampForDayOnly(hash: nat, date: string) returns (stamp: Option<string>)
    ensures stamp.Some? <==> IsDate(date)
    ensures stamp.Some? ==> IsBareStamp(stamp.value) && stamp.value[..8] == date
    ensures stamp.Some? ==> ReadClock(stamp.value[9..]) == Some(hash % SLOTS)
    ensures stamp.Some? ==> stamp.value == DayStamp(date, hash)
  {
    if !IsDate(date) {
      return None;
    }
    var h := hash;
    var micros := h % 1_000_000;
    h := h / 1_000_000;
    var sec := h % 60;
    h := h / 60;
    var minute := h % 60;
    h := h / 60;
    var hour := h % 24;
    DaySplit(hash);
    ReadPrinted(hour, minute, sec, micros);
    var s := date + "." + ClockText(hour, minute, sec, micros);
    assert s[..8] == date && s[9..] == ClockText(hour, minute, sec, micros);
    return Some(s);
  }

  function DayStamp(date: string, hash: nat): string {
    var a := hash / MICROS;
    var b := a / 60;
    date + "." + ClockText(b / 60 % 24, b % 60, a % 60, hash % MICROS)
  }

  lemma DayStampReads(date: string, h: nat)
    requires IsDate(date)
    ensures IsBareStamp(DayStamp(date, h)) && DayStamp(date, h)[..8] == date
    ensures ReadClock(DayStamp(date, h)[9..]) == Some(h % SLOTS)
  {
    var a := h / MICROS;
    var b := a / 60;
    var clock := ClockText(b / 60 % 24, b % 60, a % 60, h % MICROS);
    DaySplit(h);
    ReadPrinted(b / 60 % 24, b % 60, a % 60, h % MICROS);
    assert DayStamp(date, h)[9..] == clock && DayStamp(date, h)[..8] == date;
  }

  /** On one date two records share a stamp exactly when their hashes agree modulo a day of microseconds. */
  lemma StampsCollideIff(date: string, h1: nat, h2: nat)
    requires IsDate(date)
    ensures DayStamp(date, h1) == DayStamp(date, h2) <==> h1 % SLOTS == h2 % SLOTS
  {
    DayStampReads(date, h1);
    DayStampReads(date, h2);
    if h1 % SLOTS == h2 % SLOTS {
      SameResidueSameParts(h1, h2);
    }
  }

  lemma SameResidueSameParts(h1: nat, h2: nat)
    requires h1 % SLOTS == h2 % SLOTS
    ensures h1 % MICROS == h2 % MICROS && h1 / MICROS % 60 == h2 / MICROS % 60
    ensures h1 / MICROS / 60 % 60 == h2 / MICROS / 60 % 60 && h1 / MICROS / 60 / 60 % 24 == h2 / MICROS / 60 / 60 % 24
  {
    DaySplit(h1);
    DaySplit(h2);
  }

  lemma DerivedStampDecodes(date: string, h: nat, calendar: string -> bool)
    requires IsDate(date) && calendar(date)
    ensures IsStamp(DayStamp(date, h)) && EmittedAt(DayStamp(date, h), calendar) == Some((date, h % SLOTS))
  {
    DayStampReads(date, h);
  }

  // ---- Dotted names ----

  function SplitDots(s: string): (parts: seq<string>)
    ensures |parts| >= 1
  {
    if s == "" then [""]
    else
      var rest := SplitDots(s[1..]);
      if s[0] == '.' then [""] + rest else Widen(s[0], rest)
  }

  function Widen(c: char, parts: seq<string>): (r: seq<string>)
    requires |parts| >= 1
    ensures |r| == |parts|
  {
    [[c] + parts[0]] + parts[1..]
  }

  lemma WidenConcat(c: char, xs: seq<string>, ys: seq<string>)
    requires |xs| >= 1
    ensures Widen(c, xs + ys) == Widen(c, xs) + ys
  {
    assert (xs + ys)[1..] == xs[1..] + ys;
  }

  lemma SplitStep(c: char, s: string)
    ensures SplitDots([c] + s) == if c == '.' then [""] + SplitDots(s) else Widen(c, SplitDots(s))
  {
    assert ([c] + s)[1..] == s;
  }

  function JoinDots(parts: seq<string>): string {
    if parts == [] then "" else if |parts| == 1 then parts[0] else parts[0] + "." + JoinDots(parts[1..])
  }

  predicate DotFree(s: string) {
    '.' !in s
  }

  lemma {:induction false} JoinUndoesSplit(s: string)
    ensures JoinDots(SplitDots(s)) == s
  {
    if s != "" {
      JoinUndoesSplit(s[1..]);
      var rest := SplitDots(s[1..]);
      if s[0] == '.' {
        assert ([""] + rest)[1..] == rest;
        assert s == "." + s[1..];
      } else {
        assert Widen(s[0], rest)[1..] == rest[1..];
        assert s == [s[0]] + s[1..];
      }
    }
  }

  lemma Regroup(c: char, a: string, b: string)
    ensures [c] + a + "." + b == [c] + (a + "." + b)
  {
  }

  lemma SplitAtDotStep(c: char, a: string, b: string, whole: string, longer: string)
    requires SplitDots(whole) == SplitDots(a) + SplitDots(b) && longer == [c] + whole
    ensures SplitDots(longer) == SplitDots([c] + a) + SplitDots(b)
  {
    SplitStep(c, whole);
    SplitStep(c, a);
    WidenConcat(c, SplitDots(a), SplitDots(b));
    Regroup3([""], SplitDots(a), SplitDots(b));
  }

  lemma Regroup3<T>(x: seq<T>, y: seq<T>, z: seq<T>)
    ensures x + (y + z) == x + y + z
  {
  }

  lemma {:induction false} SplitAtDot(a: string, b: string)
    ensures SplitDots(a + "." + b) == SplitDots(a) + SplitDots(b)
  {
    if a == "" {
      assert a + "." + b == ['.'] + b;
      SplitStep('.', b);
    } else {
      var rest := a[1..];
      SplitAtDot(rest, b);
      assert a == [a[0]] + rest;
      Regroup(a[0], rest, b);
      SplitAtDotStep(a[0], rest, b, rest + "." + b, a + "." + b);
    }
  }

  lemma {:induction false} JoinAtDot(xs: seq<string>, ys: seq<string>)
    requires xs != [] && ys != []
    ensures JoinDots(xs + ys) == JoinDots(xs) + "." + JoinDots(ys)
  {
    assert (xs + ys)[1..] == xs[1..] + ys;
    if |xs| > 1 {
      JoinAtDot(xs[1..], ys);
    } else {
      assert xs[1..] + ys == ys;
    }
  }

  lemma {:induction false} SplitDotFree(s: string)
    requires DotFree(s)
    ensures SplitDots(s) == [s]
  {
    if s != "" {
      assert s == [s[0]] + s[1..];
      SplitDotFree(s[1..]);
    }
  }

  lemma {:induction false} DotSplits(s: string)
    requires !DotFree(s)
    ensures |SplitDots(s)| > 1
  {
    if s[0] != '.' {
      assert s == [s[0]] + s[1..];
      DotSplits(s[1..]);
    }
  }

  /** Splitting a joined list gives the list back exactly when no piece has a dot in it. */
  lemma {:induction false} SplitUndoesJoinIff(parts: seq<string>)
    requires parts != []
    ensures |SplitDots(JoinDots(parts))| >= |parts|
    ensures |SplitDots(JoinDots(parts))| == |parts| <==> SplitDots(JoinDots(parts)) == parts
    ensures SplitDots(JoinDots(parts)) == parts <==> forall p :: p in parts ==> DotFree(p)
  {
    var head, rest := parts[0], parts[1..];
    assert parts == [head] + rest;
    if DotFree(head) {
      SplitDotFree(head);
    } else {
      DotSplits(head);
    }
    if rest != [] {
      SplitUndoesJoinIff(rest);
      SplitAtDot(head, JoinDots(rest));
    }
  }

  // ---- File names ----

  const JSON: string := ".json"

  function NonEmpty(namespace: seq<string>): seq<string> {
    if namespace == [] then []
    else (if namespace[0] == "" then [] else [namespace[0]]) + NonEmpty(namespace[1..])
  }

  /** The dotted name of an emission, or nothing when its stamp is refused. */
  function Stem(emitter: string, namespace: seq<string>, stamp: string): Option<string> {
    if IsStamp(stamp) then Some(JoinDots([emitter] + NonEmpty(namespace) + [stamp])) else None
  }

  lemma {:induction false} NonEmptyOf(a: seq<string>, b: seq<string>)
    ensures NonEmpty(a + b) == NonEmpty(a) + NonEmpty(b)
  {
    if a == [] {
      assert a + b == b;
    } else {
      assert (a + b)[1..] == a[1..] + b;
      NonEmptyOf(a[1..], b);
    }
  }

  lemma {:induction false} NonEmptyOfSolid(namespace: seq<string>)
    requires "" !in namespace
    ensures NonEmpty(namespace) == namespace
  {
    if namespace != [] {
      NonEmptyOfSolid(namespace[1..]);
    }
  }

  /** Empty namespace segments are skipped wherever they are; without any, the name is emitter, segments and stamp, dotted. */
  lemma NameOfSegments(emitter: string, a: seq<string>, b: seq<string>, stamp: string)
    ensures Stem(emitter, a + [""] + b, stamp) == Stem(emitter, a + b, stamp)
    ensures IsStamp(stamp) && "" !in a ==> Stem(emitter, a, stamp) == Some(JoinDots([emitter] + a + [stamp]))
  {
    BlankIsSkipped(a, b);
    if "" !in a {
      NonEmptyOfSolid(a);
    }
    hide NonEmpty, JoinDots, IsStamp;
  }

  lemma BlankIsSkipped(a: seq<string>, b: seq<string>)
    ensures NonEmpty(a + [""] + b) == NonEmpty(a + b)
  {
    NonEmptyOf(a + [""], b);
    NonEmptyOf(a, [""]);
    NonEmptyOf(a, b);
    assert NonEmpty([""]) == [];
  }

  datatype Parsed = Parsed(emitterNs: seq<string>, stamp: string)

  function Base(fname: string): string {
    if |fname| >= 5 && fname[|fname| - 5..] == JSON then fname[..|fname| - 5] else fname
  }

  function ParseFilename(fname: string): Option<Parsed> {
    var segs := SplitDots(Base(fname));
    if |segs| < 3 then None
    else
      var stamp := segs[|segs| - 2] + "." + segs[|segs| - 1];
      if IsStamp(stamp) then Some(Parsed(segs[..|segs| - 2], stamp)) else None
  }

  lemma DigitsAreDotFree(s: string)
    requires AllDigits(s)
    ensures DotFree(s)
  {
  }

  lemma BaseOfJson(stem: string)
    ensures Base(stem + JSON) == stem
  {
  }

  lemma ParseOf(fname: string, xs: seq<string>, d: string, t: string)
    requires xs != [] && SplitDots(Base(fname)) == xs + [d, t] && IsStamp(d + "." + t)
    ensures ParseFilename(fname) == Some(Parsed(xs, d + "." + t))
  {
    var segs := xs + [d, t];
    assert segs[..|segs| - 2] == xs;
  }

  lemma StampSplits(stamp: string)
    requires IsStamp(stamp)
    ensures SplitDots(stamp) == [stamp[..8], stamp[9..]]
  {
    var d, t := stamp[..8], stamp[9..];
    assert stamp == d + "." + t;
    if |stamp| == 22 {
      var digits := stamp[..21][9..];
      assert stamp[..21][..8] == d && t == digits + "\n";
      DigitsAreDotFree(digits);
    } else {
      DigitsAreDotFree(t);
    }
    DigitsAreDotFree(d);
    SplitDotFree(d);
    SplitDotFree(t);
    SplitAtDot(d, t);
  }

  /** Parsing an emitted name gives back its stamp, and the dotted emitter and namespace as one list of segments. */
  lemma ParseUndoesStem(emitter: string, namespace: seq<string>, stamp: string)
    requires IsStamp(stamp)
    ensures var prefix := [emitter] + NonEmpty(namespace);
      ParseFilename(Stem(emitter, namespace, stamp).value + JSON) == Some(Parsed(SplitDots(JoinDots(prefix)), stamp))
      && JoinDots(SplitDots(JoinDots(prefix))) == JoinDots(prefix)
  {
    var prefix := [emitter] + NonEmpty(namespace);
    var stem := Stem(emitter, namespace, stamp).value;
    JoinAtDot(prefix, [stamp]);
    SplitAtDot(JoinDots(prefix), stamp);
    StampSplits(stamp);
    BaseOfJson(stem);
    assert stamp == stamp[..8] + "." + stamp[9..];
    ParseOf(stem + JSON, SplitDots(JoinDots(prefix)), stamp[..8], stamp[9..]);
    JoinUndoesSplit(JoinDots(prefix));
  }

  /** The segments are the emitter and namespace as given exactly when none of them has a dot in it. */
  lemma PiecesRecoveredIff(emitter: string, namespace: seq<string>, stamp: string)
    requires IsStamp(stamp)
    ensures var prefix := [emitter] + NonEmpty(namespace);
      ParseFilename(Stem(emitter, namespace, stamp).value + JSON) == Some(Parsed(prefix, stamp))
      <==> (forall p :: p in prefix ==> DotFree(p))
  {
    ParseUndoesStem(emitter, namespace, stamp);
    SplitUndoesJoinIff([emitter] + NonEmpty(namespace));
  }

  /** Whatever name parses is rebuilt from its parts. */
  lemma ParsedNameRebuilds(fname: string)
    requires ParseFilename(fname).Some?
    ensures var p := ParseFilename(fname).value;
      p.emitterNs != [] && IsStamp(p.stamp) && JoinDots(p.emitterNs + [p.stamp]) == Base(fname)
  {
    var segs := SplitDots(Base(fname));
    var n := |segs|;
    var p := ParseFilename(fname).value;
    JoinUndoesSplit(Base(fname));
    assert segs == segs[..n - 2] + [segs[n - 2], segs[n - 1]];
    JoinAtDot(segs[..n - 2], [segs[n - 2], segs[n - 1]]);
    assert [segs[n - 2], segs[n - 1]][1..] == [segs[n - 1]];
    JoinAtDot(segs[..n - 2], [p.stamp]);
  }

  /** Two emissions get the same name exactly when their dotted prefixes and their stamps agree. */
  lemma NamesCollideIff(e1: string, ns1: seq<string>, s1: string, e2: string, ns2: seq<string>, s2: string)
    requires IsStamp(s1) && IsStamp(s2)
    ensures Stem(e1, ns1, s1) == Stem(e2, ns2, s2)
       <==> s1 == s2 && JoinDots([e1] + NonEmpty(ns1)) == JoinDots([e2] + NonEmpty(ns2))
  {
    ParseUndoesStem(e1, ns1, s1);
    ParseUndoesStem(e2, ns2, s2);
    JoinAtDot([e1] + NonEmpty(ns1), [s1]);
    JoinAtDot([e2] + NonEmpty(ns2), [s2]);
  }
}
