/**
 The build packet: a ticket compiled, with a scored shortlist of files, into a
 record that must not depend on the order the shortlist arrived in.
 */
module BuildPacket {
  import opened Tickets
  import opened Lexical
  import opened TextLines
  import opened Sorting

  // ---- The shortlist ----

  /** The dictionaries of the shortlist; a missing key reads as its default. */
  datatype Symbol = Symbol(symbol: Option<string>, kind: Option<string>, signature: Option<string>, score: Option<real>)

  datatype File = File(path: Option<string>, score: Option<real>, symbols: Option<seq<Symbol>>)

  function Or<T>(o: Option<T>, d: T): T {
    if o.Some? then o.value else d
  }

  /** Highest score first, then by name. */
  predicate Ranks(score1: real, name1: string, score2: real, name2: string) {
    score1 > score2 || (score1 == score2 && LexLe(name1, name2))
  }

  predicate SymbolLe(a: Symbol, b: Symbol) {
    Ranks(Or(a.score, 0.0), Or(a.symbol, ""), Or(b.score, 0.0), Or(b.symbol, ""))
  }

  predicate FileLe(a: File, b: File) {
    Ranks(Or(a.score, 0.0), Or(a.path, ""), Or(b.score, 0.0), Or(b.path, ""))
  }

  function Symbols(f: File): seq<Symbol> {
    Or(f.symbols, [])
  }

  function NormFile(f: File): File {
    File(Some(Or(f.path, "")), Some(Or(f.score, 0.0)), Some(SortBy(Symbols(f), SymbolLe)))
  }

  function NormFiles(files: seq<File>): seq<File> {
    seq(|files|, i requires 0 <= i < |files| => NormFile(files[i]))
  }

  function Normalize(files: seq<File>): seq<File> {
    NormFiles(SortBy(files, FileLe))
  }

  method NormalizeShortlist(files: seq<File>) returns (norm: seq<File>)
    ensures norm == Normalize(files)
    ensures exists src :: multiset(src) == multiset(files) && Restates(src, norm)
    ensures forall i, j :: 0 <= i < j < |norm| ==>
      var a, b := norm[i], norm[j];
      && a.path.Some? && a.score.Some? && b.path.Some? && b.score.Some?
      && (a.score.value > b.score.value || (a.score.value == b.score.value && LexLe(a.path.value, b.path.value)))
  {
    SortedFiles(files);
    norm := [];
    var sorted := SortBy(files, FileLe);
    var i := 0;
    while i < |sorted|
      invariant 0 <= i <= |sorted|
      invariant norm == NormFiles(sorted)[..i]
    {
      var syms := SortBy(Or(sorted[i].symbols, []), SymbolLe);
      norm := norm + [File(Some(Or(sorted[i].path, "")), Some(Or(sorted[i].score, 0.0)), Some(syms))];
      i := i + 1;
    }
  }

  /** Each file of `norm` says what its source says, defaults spelled out, with the symbols by falling score and then by name. */
  ghost predicate Restates(src: seq<File>, norm: seq<File>) {
    |norm| == |src| && forall i :: 0 <= i < |src| ==> RestatesFile(src[i], norm[i])
  }

  ghost predicate RestatesFile(f: File, n: File) {
    && n.path == Some(if f.path.Some? then f.path.value else "")
    && n.score == Some(if f.score.Some? then f.score.value else 0.0)
    && n.symbols.Some? && multiset(n.symbols.value) == multiset(if f.symbols.Some? then f.symbols.value else [])
    && forall i, j :: 0 <= i < j < |n.symbols.value| ==> SymbolsInOrder(n.symbols.value[i], n.symbols.value[j])
  }

  ghost predicate SymbolsInOrder(a: Symbol, b: Symbol) {
    var s, t := if a.score.Some? then a.score.value else 0.0, if b.score.Some? then b.score.value else 0.0;
    s > t || (s == t && LexLe(if a.symbol.Some? then a.symbol.value else "", if b.symbol.Some? then b.symbol.value else ""))
  }

  lemma NormFileRestates(f: File)
    ensures RestatesFile(f, NormFile(f))
  {
    OrdersAreTotal();
    var syms := SortBy(Symbols(f), SymbolLe);
    SortSorts(Symbols(f), SymbolLe);
    SortPermutes(Symbols(f), SymbolLe);
    forall i, j | 0 <= i < j < |syms| ensures SymbolsInOrder(syms[i], syms[j]) {
      assert SymbolLe(syms[i], syms[j]);
    }
  }

  lemma SortedFiles(files: seq<File>)
    ensures var src, norm := SortBy(files, FileLe), Normalize(files);
      && multiset(src) == multiset(files) && Restates(src, norm)
      && forall i, j :: 0 <= i < j < |norm| ==>
           var a, b := norm[i], norm[j];
           && a.path.Some? && a.score.Some? && b.path.Some? && b.score.Some?
           && (a.score.value > b.score.value || (a.score.value == b.score.value && LexLe(a.path.value, b.path.value)))
  {
    OrdersAreTotal();
    var src, norm := SortBy(files, FileLe), Normalize(files);
    SortSorts(files, FileLe);
    SortPermutes(files, FileLe);
    forall i | 0 <= i < |src| ensures RestatesFile(src[i], norm[i]) {
      NormFileRestates(src[i]);
    }
    forall i, j | 0 <= i < j < |norm| ensures FileLe(src[i], src[j]) {
    }
  }

  lemma RanksIsTotal(s1: real, n1: string, s2: real, n2: string, s3: real, n3: string)
    ensures Ranks(s1, n1, s2, n2) || Ranks(s2, n2, s1, n1)
    ensures Ranks(s1, n1, s2, n2) && Ranks(s2, n2, s1, n1) <==> s1 == s2 && n1 == n2
    ensures Ranks(s1, n1, s2, n2) && Ranks(s2, n2, s3, n3) ==> Ranks(s1, n1, s3, n3)
  {
    LexTotal(n1, n2);
    LexTotal(n1, n1);
    if LexLe(n1, n2) && LexLe(n2, n3) {
      LexTransitive(n1, n2, n3);
    }
  }

  lemma OrdersAreTotal()
    ensures TotalPreorder(SymbolLe) && TotalPreorder(FileLe)
  {
    forall a: Symbol, b: Symbol, c: Symbol
      ensures SymbolLe(a, b) || SymbolLe(b, a)
      ensures SymbolLe(a, b) && SymbolLe(b, c) ==> SymbolLe(a, c)
    {
      RanksIsTotal(Or(a.score, 0.0), Or(a.symbol, ""), Or(b.score, 0.0), Or(b.symbol, ""), Or(c.score, 0.0), Or(c.symbol, ""));
    }
    forall a: File, b: File, c: File
      ensures FileLe(a, b) || FileLe(b, a)
      ensures FileLe(a, b) && FileLe(b, c) ==> FileLe(a, c)
    {
      RanksIsTotal(Or(a.score, 0.0), Or(a.path, ""), Or(b.score, 0.0), Or(b.path, ""), Or(c.score, 0.0), Or(c.path, ""));
    }
  }

  lemma TiedFiles(a: File, b: File)
    ensures Tied(a, b, FileLe) <==> Or(a.score, 0.0) == Or(b.score, 0.0) && Or(a.path, "") == Or(b.path, "")
  {
    RanksIsTotal(Or(a.score, 0.0), Or(a.path, ""), Or(b.score, 0.0), Or(b.path, ""), 0.0, "");
  }

  lemma TiedSymbols(a: Symbol, b: Symbol)
    ensures Tied(a, b, SymbolLe) <==> Or(a.score, 0.0) == Or(b.score, 0.0) && Or(a.symbol, "") == Or(b.symbol, "")
  {
    RanksIsTotal(Or(a.score, 0.0), Or(a.symbol, ""), Or(b.score, 0.0), Or(b.symbol, ""), 0.0, "");
  }

  // ---- Normalising twice is normalising once ----

  lemma NormFileIsIdempotent(f: File)
    ensures NormFile(NormFile(f)) == NormFile(f)
  {
    OrdersAreTotal();
    SortSorts(Symbols(f), SymbolLe);
    SortOfSorted(SortBy(Symbols(f), SymbolLe), SymbolLe);
  }

  lemma NormalizeIsIdempotent(files: seq<File>)
    ensures Normalize(Normalize(files)) == Normalize(files)
  {
    OrdersAreTotal();
    var sorted, norm := SortBy(files, FileLe), Normalize(files);
    SortSorts(files, FileLe);
    forall i, j | 0 <= i < j < |norm| ensures FileLe(norm[i], norm[j]) {
      assert FileLe(sorted[i], sorted[j]);
    }
    SortOfSorted(norm, FileLe);
    forall i | 0 <= i < |norm| ensures NormFile(norm[i]) == norm[i] {
      NormFileIsIdempotent(sorted[i]);
    }
  }

  // ---- Normalising first, sorting second ----

  lemma {:induction false} InsertCommutes(f: File, files: seq<File>)
    ensures Insert(NormFile(f), NormFiles(files), FileLe) == NormFiles(Insert(f, files, FileLe))
  {
    if files != [] && !FileLe(f, files[0]) {
      InsertCommutes(f, files[1..]);
      assert NormFiles(files)[1..] == NormFiles(files[1..]);
    }
  }

  lemma {:induction false} SortCommutes(files: seq<File>)
    ensures Normalize(files) == SortBy(NormFiles(files), FileLe)
  {
    if files != [] {
      SortCommutes(files[1..]);
      assert NormFiles(files)[1..] == NormFiles(files[1..]);
      InsertCommutes(files[0], SortBy(files[1..], FileLe));
    }
  }

  // ---- The order of the shortlist ----

  ghost predicate FilesForgotten(files: seq<File>) {
    forall others :: multiset(others) == multiset(files) ==> Normalize(others) == Normalize(files)
  }

  /** Files with the same score and path carry the same content. */
  ghost predicate FilesAgree(files: seq<File>) {
    forall a, b :: a in files && b in files && Tied(a, b, FileLe) ==> NormFile(a) == NormFile(b)
  }

  lemma AgreeingFilesForgotten(files: seq<File>, others: seq<File>)
    requires FilesAgree(files) && multiset(others) == multiset(files)
    ensures Normalize(others) == Normalize(files)
  {
    hide NormFile, SortBy;
    OrdersAreTotal();
    ReorderedSortsAreTied(files, others, FileLe);
    SortPermutes(files, FileLe);
    SortPermutes(others, FileLe);
    var a, b := SortBy(files, FileLe), SortBy(others, FileLe);
    forall i | 0 <= i < |a| ensures NormFile(a[i]) == NormFile(b[i]) {
      assert a[i] in multiset(files) && b[i] in multiset(files);
      assert Tied(a[i], b[i], FileLe);
    }
  }

  lemma SwappedFilesShow(files: seq<File>, i: nat, j: nat)
    requires i < j < |files| && Tied(files[i], files[j], FileLe) && NormFile(files[i]) != NormFile(files[j])
    ensures multiset(Swap(files, i, j)) == multiset(files) && Normalize(Swap(files, i, j)) != Normalize(files)
  {
    OrdersAreTotal();
    var norm := NormFiles(files);
    SwapShows(norm, i, j, FileLe);
    SortCommutes(files);
    SortCommutes(Swap(files, i, j));
    assert NormFiles(Swap(files, i, j)) == Swap(norm, i, j);
  }

  /** Every reordering of the shortlist normalises alike exactly when files tied on score and path have the same content. */
  lemma FileOrderForgottenIff(files: seq<File>)
    ensures FilesForgotten(files) <==> FilesAgree(files)
  {
    if FilesAgree(files) {
      forall others | multiset(others) == multiset(files) ensures Normalize(others) == Normalize(files) {
        AgreeingFilesForgotten(files, others);
      }
    }
    if FilesForgotten(files) {
      forall a, b | a in files && b in files && Tied(a, b, FileLe) ensures NormFile(a) == NormFile(b) {
        var i :| 0 <= i < |files| && files[i] == a;
        var j :| 0 <= j < |files| && files[j] == b;
        if NormFile(a) != NormFile(b) {
          assert i != j;
          SwappedFilesShow(files, if i < j then i else j, if i < j then j else i);
        }
      }
    }
  }

  // ---- The order of a file's symbols ----

  ghost predicate SameButOrder(f: File, g: File) {
    f.path == g.path && f.score == g.score && multiset(Symbols(f)) == multiset(Symbols(g))
  }

  /** Every reordering of a file's symbols normalises alike exactly when symbols tied on score and name are equal. */
  lemma SymbolOrderForgottenIff(f: File)
    ensures (forall g :: SameButOrder(f, g) ==> NormFile(g) == NormFile(f)) <==> TiesAreEqual(Symbols(f), SymbolLe)
  {
    OrdersAreTotal();
    OrderForgottenIff(Symbols(f), SymbolLe);
    if forall g :: SameButOrder(f, g) ==> NormFile(g) == NormFile(f) {
      forall ys | multiset(ys) == multiset(Symbols(f)) ensures SortBy(ys, SymbolLe) == SortBy(Symbols(f), SymbolLe) {
        var g := f.(symbols := Some(ys));
        assert SameButOrder(f, g) && NormFile(g) == NormFile(f);
      }
    }
  }

  // ---- The packet ----

  /** The parts of a packet that are read off the ticket alone. */
  datatype TicketFacts = TicketFacts(
    id: string, intent: string, constraints: seq<string>, success: string, obligation: string, affected: seq<string>)

  datatype Measurement = Measurement(baseline: nat, helperFirst: nat, reduction: int, improved: bool)

  datatype Verdict = Verdict(passed: bool, missing: seq<FieldName>)

  datatype Packet = Packet(facts: TicketFacts, shortlist: seq<File>, measurement: Measurement, gate: Verdict)

  type Bodies = map<string, string>

  /** ceil(chars / 4). */
  function Tokens(text: string): nat {
    (|text| + 3) / 4
  }

  function Lines(parts: seq<string>): string {
    if parts == [] then "" else if |parts| == 1 then parts[0] else Lines(parts[..|parts| - 1]) + "\n" + parts[|parts| - 1]
  }

  function PathOf(f: File): string {
    Or(f.path, "")
  }

  function Measured(files: seq<File>, bodies: Bodies): (r: seq<File>)
    ensures forall f :: f in r ==> f in files && PathOf(f) in bodies
  {
    if files == [] then []
    else
      var n := |files| - 1;
      Measured(files[..n], bodies) + if PathOf(files[n]) in bodies then [files[n]] else []
  }

  function BodyLines(files: seq<File>, bodies: Bodies): seq<string> {
    seq(|files|, i requires 0 <= i < |files| => if PathOf(files[i]) in bodies then bodies[PathOf(files[i])] else "")
  }

  function SignatureLines(symbols: seq<Symbol>): seq<string> {
    seq(|symbols|, i requires 0 <= i < |symbols| => "  " + Or(symbols[i].signature, ""))
  }

  /** A file's lines of the helper-first surface: its path, then one line per symbol. */
  function FileLines(f: File): seq<string> {
    [PathOf(f)] + SignatureLines(Symbols(f))
  }

  function HelperLines(files: seq<File>): seq<string> {
    if files == [] then [] else HelperLines(files[..|files| - 1]) + FileLines(files[|files| - 1])
  }

  method RenderHelperFirst(files: seq<File>) returns (text: string)
    ensures text == Lines(HelperLines(files))
  {
    var lines := [];
    var i := 0;
    while i < |files|
      invariant 0 <= i <= |files| && lines == HelperLines(files[..i])
    {
      ghost var before := lines;
      lines := lines + [PathOf(files[i])];
      var syms := Symbols(files[i]);
      var j := 0;
      while j < |syms|
        invariant 0 <= j <= |syms| && lines == before + ([PathOf(files[i])] + SignatureLines(syms)[..j])
      {
        lines := lines + ["  " + Or(syms[j].signature, "")];
        j := j + 1;
      }
      assert lines == before + FileLines(files[i]);
      assert files[..i + 1][..i] == files[..i];
      i := i + 1;
    }
    assert files[..i] == files;
    return Lines(lines);
  }

  /** Both costs over the same files: the shortlisted ones whose bodies can be read. */
  function Measure(files: seq<File>, bodies: Bodies): Measurement {
    var measured := Measured(files, bodies);
    var baseline := Tokens(Lines(BodyLines(measured, bodies)));
    var helperFirst := Tokens(Lines(HelperLines(measured)));
    Measurement(baseline, helperFirst, baseline - helperFirst, baseline > helperFirst)
  }

  // ---- The sufficiency gate ----

  datatype FieldName = Intent | HardConstraints | SuccessDefinition | ContextShortlist

  datatype Field = Words(text: string) | Listed(size: nat)

  const REQUIRED: seq<FieldName> := [Intent, HardConstraints, SuccessDefinition, ContextShortlist]

  function Word(n: FieldName): string {
    match n
    case Intent => "intent"
    case HardConstraints => "hard_constraints"
    case SuccessDefinition => "success_definition"
    case ContextShortlist => "context_shortlist"
  }

  predicate ByWord(a: FieldName, b: FieldName) {
    LexLe(Word(a), Word(b))
  }

  predicate Present(f: Field) {
    match f
    case Words(text) => text != ""
    case Listed(size) => size > 0
  }

  function FieldOf(t: TicketFacts, shortlist: seq<File>, name: FieldName): Field {
    match name
    case Intent => Words(t.intent)
    case HardConstraints => Listed(|t.constraints|)
    case SuccessDefinition => Words(t.success)
    case ContextShortlist => Listed(|shortlist|)
  }

  predicate Lacks(t: TicketFacts, shortlist: seq<File>, name: FieldName) {
    !Present(FieldOf(t, shortlist, name))
  }

  function MissingOf(names: seq<FieldName>, t: TicketFacts, shortlist: seq<File>): (r: seq<FieldName>)
    ensures forall n :: n in r <==> n in names && Lacks(t, shortlist, n)
  {
    if names == [] then []
    else (if Lacks(t, shortlist, names[0]) then [names[0]] else []) + MissingOf(names[1..], t, shortlist)
  }

  function Gate(t: TicketFacts, shortlist: seq<File>): Verdict {
    var missing := SortBy(MissingOf(REQUIRED, t, shortlist), ByWord);
    Verdict(missing == [], missing)
  }

  function Build(t: TicketFacts, shortlist: seq<File>, bodies: Bodies): Packet {
    var norm := Normalize(shortlist);
    Packet(t, norm, Measure(norm, bodies), Gate(t, norm))
  }

  lemma ByWordIsTotal()
    ensures TotalPreorder(ByWord)
  {
    forall a, b ensures ByWord(a, b) || ByWord(b, a) {
      LexTotal(Word(a), Word(b));
    }
    forall a, b, c | ByWord(a, b) && ByWord(b, c) ensures ByWord(a, c) {
      LexTransitive(Word(a), Word(b), Word(c));
    }
  }

  lemma AllAreRequired(n: FieldName)
    ensures n in REQUIRED
  {
    assert REQUIRED[0] == Intent && REQUIRED[1] == HardConstraints;
    assert REQUIRED[2] == SuccessDefinition && REQUIRED[3] == ContextShortlist;
  }

  /** The gate names exactly the required fields that carry nothing, in the order of their words. */
  lemma GateNamesTheMissing(t: TicketFacts, shortlist: seq<File>)
    ensures var v := Gate(t, shortlist);
      Sorted(v.missing, ByWord) && (forall n :: n in v.missing <==> Lacks(t, shortlist, n))
      && (Intent in v.missing <==> t.intent == "") && (HardConstraints in v.missing <==> t.constraints == [])
      && (SuccessDefinition in v.missing <==> t.success == "") && (ContextShortlist in v.missing <==> shortlist == [])
  {
    var found := MissingOf(REQUIRED, t, shortlist);
    var v := Gate(t, shortlist);
    ByWordIsTotal();
    SortSorts(found, ByWord);
    SortPermutes(found, ByWord);
    forall n ensures n in v.missing <==> Lacks(t, shortlist, n) {
      AllAreRequired(n);
      assert n in v.missing <==> n in multiset(found);
    }
  }

  lemma GatePassesIff(t: TicketFacts, shortlist: seq<File>)
    ensures Gate(t, shortlist).passed <==> t.intent != "" && t.constraints != [] && t.success != "" && shortlist != []
  {
    var missing := Gate(t, shortlist).missing;
    GateNamesTheMissing(t, shortlist);
    assert missing != [] ==> missing[0] in missing;
    assert Intent in missing <==> t.intent == "";
    assert HardConstraints in missing <==> t.constraints == [];
    assert SuccessDefinition in missing <==> t.success == "";
    assert ContextShortlist in missing <==> shortlist == [];
  }

  // ---- The packet does not depend on arrival order ----

  /** `others` is `files` with its files, and the symbols inside each file, in any other order. */
  ghost predicate Reordered(files: seq<File>, mid: seq<File>, others: seq<File>) {
    && multiset(mid) == multiset(files)
    && |mid| == |others|
    && forall i :: 0 <= i < |mid| ==> SameButOrder(mid[i], others[i])
  }

  ghost predicate Unambiguous(files: seq<File>) {
    FilesAgree(files) && forall f :: f in files ==> TiesAreEqual(Symbols(f), SymbolLe)
  }

  /**
   A shortlist without ambiguous ties gives one packet, the same measurement and gate verdict included, however its
   files and their symbols are ordered.
   */
  lemma PacketIgnoresOrder(t: TicketFacts, files: seq<File>, mid: seq<File>, others: seq<File>, bodies: Bodies)
    requires Unambiguous(files) && Reordered(files, mid, others)
    ensures Build(t, others, bodies) == Build(t, files, bodies)
  {
    AgreeingFilesForgotten(files, mid);
    forall i | 0 <= i < |mid| ensures NormFile(mid[i]) == NormFile(others[i]) {
      assert mid[i] in multiset(files);
      SymbolOrderForgottenIff(mid[i]);
      assert SameButOrder(mid[i], others[i]);
    }
    assert NormFiles(mid) == NormFiles(others);
    SortCommutes(mid);
    SortCommutes(others);
  }

  /** Distinct paths, and distinct names within a file, are enough. */
  lemma DistinctNamesAreUnambiguous(files: seq<File>)
    requires forall a, b :: a in files && b in files && PathOf(a) == PathOf(b) ==> a == b
    requires forall f, a, b :: f in files && a in Symbols(f) && b in Symbols(f) && Or(a.symbol, "") == Or(b.symbol, "") ==> a == b
    ensures Unambiguous(files)
  {
    forall a, b | a in files && b in files && Tied(a, b, FileLe) ensures NormFile(a) == NormFile(b) {
      TiedFiles(a, b);
    }
    forall f, a, b | f in files && a in Symbols(f) && b in Symbols(f) && Tied(a, b, SymbolLe) ensures a == b {
      TiedSymbols(a, b);
    }
  }

  /** Compiling from an already normalised shortlist gives the same packet. */
  lemma PacketOfNormalized(t: TicketFacts, files: seq<File>, bodies: Bodies)
    ensures Build(t, Normalize(files), bodies) == Build(t, files, bodies)
  {
    NormalizeIsIdempotent(files);
  }

  // ---- When helper-first pays ----

  lemma {:induction false} LinesConcat(a: seq<string>, b: seq<string>)
    requires b != []
    ensures Lines(a + b) == if a == [] then Lines(b) else Lines(a) + "\n" + Lines(b)
  {
    if a == [] {
      assert a + b == b;
    } else if |b| == 1 {
      LinesSnoc(a, b[0], a + b);
    } else {
      hide Lines;
      var n := |b| - 1;
      assert a + b == (a + b[..n]) + [b[n]];
      LinesSnoc(a + b[..n], b[n], a + b);
      LinesConcat(a, b[..n]);
      LinesSnoc(b[..n], b[n], b);
      Regroup(Lines(a), Lines(b[..n]), b[n]);
    }
  }

  lemma Regroup(x: string, y: string, z: string)
    ensures (x + "\n" + y) + "\n" + z == x + "\n" + (y + "\n" + z)
  {
  }

  lemma LinesSnoc(a: seq<string>, line: string, all: seq<string>)
    requires a != [] && all == a + [line]
    ensures Lines(all) == Lines(a) + "\n" + line
  {
    assert all[..|all| - 1] == a;
  }

  /** A file's part of the helper-first surface, as one text. */
  function Block(f: File): string {
    Lines(FileLines(f))
  }

  function Blocks(files: seq<File>): seq<string> {
    seq(|files|, i requires 0 <= i < |files| => Block(files[i]))
  }

  lemma BlockStep(lines: seq<string>, blocks: seq<string>, more: seq<string>)
    requires Lines(lines) == Lines(blocks) && (lines == [] <==> blocks == []) && more != []
    ensures Lines(lines + more) == Lines(blocks + [Lines(more)])
  {
    LinesConcat(lines, more);
    LinesConcat(blocks, [Lines(more)]);
  }

  lemma {:induction false} HelperIsBlocks(files: seq<File>)
    ensures Lines(HelperLines(files)) == Lines(Blocks(files))
    ensures HelperLines(files) == [] <==> files == []
  {
    if files != [] {
      var n := |files| - 1;
      HelperIsBlocks(files[..n]);
      BlockStep(HelperLines(files[..n]), Blocks(files[..n]), FileLines(files[n]));
      assert Blocks(files) == Blocks(files[..n]) + [Block(files[n])];
    }
  }

  lemma {:induction false} LongerLines(a: seq<string>, b: seq<string>)
    requires |a| == |b| && forall i :: 0 <= i < |a| ==> |a[i]| <= |b[i]|
    ensures |Lines(a)| <= |Lines(b)|
  {
    if |a| > 1 {
      LongerLines(a[..|a| - 1], b[..|b| - 1]);
    }
  }

  /** If every measured body is at least as long as its path and signature lines, helper-first never costs more. */
  lemma LongBodiesNeverCostMore(files: seq<File>, bodies: Bodies)
    requires forall f :: f in files && PathOf(f) in bodies ==> |Block(f)| <= |bodies[PathOf(f)]|
    ensures Measure(files, bodies).reduction >= 0
  {
    var measured := Measured(files, bodies);
    HelperIsBlocks(measured);
    forall i | 0 <= i < |measured| ensures |Blocks(measured)[i]| <= |BodyLines(measured, bodies)[i]| {
      assert measured[i] in measured;
    }
    LongerLines(Blocks(measured), BodyLines(measured, bodies));
  }

  function TotalLength(parts: seq<string>): nat {
    if parts == [] then 0 else TotalLength(parts[..|parts| - 1]) + |parts[|parts| - 1]|
  }

  lemma {:induction false} LinesLength(parts: seq<string>)
    ensures |Lines(parts)| == TotalLength(parts) + Breaks(|parts|)
  {
    if |parts| > 1 {
      LinesLength(parts[..|parts| - 1]);
    } else if |parts| == 1 {
      assert TotalLength(parts[..0]) == 0;
    }
  }

  /** Line breaks between `n` parts. */
  function Breaks(n: nat): nat {
    if n == 0 then 0 else n - 1
  }

  /** What the bodies of the first `n` files cost, in characters. */
  function BodyChars(files: seq<File>, bodies: Bodies, n: nat): nat
    requires n <= |files|
  {
    if n == 0 then 0
    else BodyChars(files, bodies, n - 1) + if PathOf(files[n - 1]) in bodies then |bodies[PathOf(files[n - 1])]| else 0
  }

  /** What the signature lines of the first `n` symbols cost: indent, signature and line break. */
  function SignatureChars(symbols: seq<Symbol>, n: nat): nat
    requires n <= |symbols|
  {
    if n == 0 then 0 else SignatureChars(symbols, n - 1) + 3 + |Or(symbols[n - 1].signature, "")|
  }

  function FileChars(f: File): nat {
    |PathOf(f)| + SignatureChars(Symbols(f), |Symbols(f)|)
  }

  function HelperChars(files: seq<File>, n: nat): nat
    requires n <= |files|
  {
    if n == 0 then 0 else HelperChars(files, n - 1) + FileChars(files[n - 1])
  }

  lemma {:induction false} BodyLinesLength(files: seq<File>, bodies: Bodies, n: nat)
    requires n <= |files|
    ensures TotalLength(BodyLines(files, bodies)[..n]) == BodyChars(files, bodies, n)
  {
    if n > 0 {
      BodyLinesLength(files, bodies, n - 1);
      assert BodyLines(files, bodies)[..n][..n - 1] == BodyLines(files, bodies)[..n - 1];
    }
  }

  lemma {:induction false} SignatureLinesLength(symbols: seq<Symbol>, n: nat)
    requires n <= |symbols|
    ensures TotalLength(SignatureLines(symbols)[..n]) + n == SignatureChars(symbols, n)
  {
    if n > 0 {
      SignatureLinesLength(symbols, n - 1);
      assert SignatureLines(symbols)[..n][..n - 1] == SignatureLines(symbols)[..n - 1];
    }
  }

  lemma BlockLength(f: File)
    ensures |Block(f)| == FileChars(f)
  {
    var sigs := SignatureLines(Symbols(f));
    SignatureLinesLength(Symbols(f), |sigs|);
    assert sigs[..|sigs|] == sigs;
    LinesLength(sigs);
    assert [PathOf(f)] + [] == [PathOf(f)];
    if sigs == [] {
      assert FileLines(f) == [PathOf(f)];
    } else {
      LinesConcat([PathOf(f)], sigs);
    }
  }

  lemma {:induction false} BlocksLength(files: seq<File>, n: nat)
    requires n <= |files|
    ensures TotalLength(Blocks(files)[..n]) == HelperChars(files, n)
  {
    if n > 0 {
      BlocksLength(files, n - 1);
      BlockLength(files[n - 1]);
      assert Blocks(files)[..n][..n - 1] == Blocks(files)[..n - 1];
    }
  }

  /** What the first `n` files that can be read cost as paths and signature lines. */
  function LeanChars(files: seq<File>, bodies: Bodies, n: nat): nat
    requires n <= |files|
  {
    if n == 0 then 0 else LeanChars(files, bodies, n - 1) + if PathOf(files[n - 1]) in bodies then FileChars(files[n - 1]) else 0
  }

  function CountReadable(files: seq<File>, bodies: Bodies, n: nat): nat
    requires n <= |files|
  {
    if n == 0 then 0 else CountReadable(files, bodies, n - 1) + if PathOf(files[n - 1]) in bodies then 1 else 0
  }

  lemma {:induction false} SumsOfPrefix(files: seq<File>, bodies: Bodies, m: nat, n: nat)
    requires n <= m <= |files|
    ensures BodyChars(files[..m], bodies, n) == BodyChars(files, bodies, n)
    ensures HelperChars(files[..m], n) == HelperChars(files, n)
    ensures LeanChars(files[..m], bodies, n) == LeanChars(files, bodies, n)
    ensures CountReadable(files[..m], bodies, n) == CountReadable(files, bodies, n)
  {
    if n > 0 {
      SumsOfPrefix(files, bodies, m, n - 1);
    }
  }

  /** Leaving out the files that cannot be read changes neither sum. */
  lemma {:induction false} MeasuredSums(files: seq<File>, bodies: Bodies)
    ensures var fs := Measured(files, bodies);
      && |fs| == CountReadable(files, bodies, |files|)
      && BodyChars(fs, bodies, |fs|) == BodyChars(files, bodies, |files|)
      && HelperChars(fs, |fs|) == LeanChars(files, bodies, |files|)
  {
    if files != [] {
      var n := |files| - 1;
      MeasuredSums(files[..n], bodies);
      SumsOfPrefix(files, bodies, n, n);
      var fs, before := Measured(files, bodies), Measured(files[..n], bodies);
      if PathOf(files[n]) in bodies {
        assert fs[..|before|] == before && fs[|before|] == files[n];
        SumsOfPrefix(fs, bodies, |before|, |before|);
      } else {
        assert fs == before;
      }
    }
  }

  /**
   Both costs in characters, over the files that can be read: the lengths of the bodies, and of the paths and signature
   lines, plus the breaks between files.
   */
  lemma MeasureInChars(files: seq<File>, bodies: Bodies)
    ensures var n := |files|; var breaks := Breaks(CountReadable(files, bodies, n));
      && Measure(files, bodies).baseline == (BodyChars(files, bodies, n) + breaks + 3) / 4
      && Measure(files, bodies).helperFirst == (LeanChars(files, bodies, n) + breaks + 3) / 4
  {
    var fs := Measured(files, bodies);
    var n := |fs|;
    MeasuredSums(files, bodies);
    LinesLength(BodyLines(fs, bodies));
    BodyLinesLength(fs, bodies, n);
    assert BodyLines(fs, bodies)[..n] == BodyLines(fs, bodies);
    HelperIsBlocks(fs);
    LinesLength(Blocks(fs));
    BlocksLength(fs, n);
    assert Blocks(fs)[..n] == Blocks(fs);
  }

  /**
   For every shortlist: helper-first is an improvement exactly when the readable bodies, together, need more quarters of
   characters than the paths and signature lines do. A surplus of four characters is always enough, and some surplus is needed.
   */
  lemma ImprovedIff(files: seq<File>, bodies: Bodies)
    ensures var n := |files|; var breaks := Breaks(CountReadable(files, bodies, n));
      var full, lean := BodyChars(files, bodies, n), LeanChars(files, bodies, n);
      && (Measure(files, bodies).improved <==> (full + breaks + 3) / 4 > (lean + breaks + 3) / 4)
      && (full >= lean + 4 ==> Measure(files, bodies).improved)
      && (Measure(files, bodies).improved ==> full > lean)
  {
    MeasureInChars(files, bodies);
  }

  /** For one file: the body against its path and signature lines. */
  lemma OneFileImprovesIff(f: File, bodies: Bodies)
    requires PathOf(f) in bodies
    ensures Measure([f], bodies).improved <==> (|bodies[PathOf(f)]| + 3) / 4 > (FileChars(f) + 3) / 4
  {
    ImprovedIff([f], bodies);
    SumsOfOne(f, bodies);
    hide Measure, FileChars;
  }

  lemma SumsOfOne(f: File, bodies: Bodies)
    requires PathOf(f) in bodies
    ensures BodyChars([f], bodies, 1) == |bodies[PathOf(f)]|
    ensures LeanChars([f], bodies, 1) == FileChars(f)
    ensures CountReadable([f], bodies, 1) == 1
  {
    assert BodyChars([f], bodies, 0) == LeanChars([f], bodies, 0) == CountReadable([f], bodies, 0) == 0;
    hide FileChars;
  }

  /** A body that holds its signature and more besides need not be an improvement: the path and the indent can cost as much. */
  lemma ContainedSignatureMayNotPay(path: string, sig: string, rest: string)
    requires |rest| <= |path| + 3
    ensures var f := File(Some(path), None, Some([Symbol(None, None, Some(sig), None)]));
      Contains(sig + rest, sig) && !Measure([f], map[path := sig + rest]).improved
  {
    var symbol := Symbol(None, None, Some(sig), None);
    var f := File(Some(path), None, Some([symbol]));
    OneFileImprovesIff(f, map[path := sig + rest]);
    assert SignatureChars([symbol], 1) == SignatureChars([symbol], 0) + 3 + |sig|;
    assert OccursAt(sig + rest, sig, 0);
  }
}
