/**
 Appending a closed ticket to the Done section of the day's Markdown slate:
 one pass over the lines, with an insertion that later runs must recognise.
 */
module SlateEditor {
  import opened TextLines

  function Trimmed(line: string): string {
    StripLeft(line, IsSpace)
  }

  predicate StartsWith(s: string, prefix: string) {
    prefix <= s
  }

  predicate IsDoneHeader(line: string) {
    StartsWith(line, "## Done")
  }

  predicate IsHeader(line: string) {
    StartsWith(line, "## ")
  }

  /** A list item that names the ticket. */
  predicate Mentions(line: string, tid: string) {
    Contains(line, tid) && StartsWith(Trimmed(line), "-")
  }

  datatype Kind = DoneHeader | OtherHeader | Mention | Plain

  function KindOf(line: string, tid: string): Kind {
    if IsDoneHeader(line) then DoneHeader
    else if IsHeader(line) then OtherHeader
    else if Mentions(line, tid) then Mention
    else Plain
  }

  /** The kinds are the editor's three tests: a header is never a list item, so the order they are made in does not matter. */
  lemma KindsAreTests(line: string, tid: string)
    ensures KindOf(line, tid).Mention? <==> Mentions(line, tid)
    ensures KindOf(line, tid).DoneHeader? <==> IsDoneHeader(line)
    ensures KindOf(line, tid).OtherHeader? <==> IsHeader(line) && !IsDoneHeader(line)
  {
    if IsHeader(line) {
      assert line[0] == '#';
      assert StripLeft(line, IsSpace) == line;
    }
    if IsDoneHeader(line) {
      assert line[..3] == "## Done"[..3] == "## ";
    }
  }

  function Classifier(tid: string): string -> Kind {
    line => KindOf(line, tid)
  }

  /** The bullet for a closed ticket; only the first 120 characters of the result's first line are kept. */
  function Bullet(tid: string, title: string, result: string): string {
    "- " + tid + BulletTail(title, result)
  }

  function BulletTail(title: string, result: string): string {
    var line := UpToNewline(result);
    var short := if |line| <= 120 then line else line[..120];
    " \U{2014} " + title + (if short == "" then "" else " (" + short + ")")
  }

  function UpToNewline(s: string): string {
    if s == "" || s[0] == '\n' then "" else [s[0]] + UpToNewline(s[1..])
  }

  lemma {:induction false} FirstLineOnly(line: string, more: string)
    requires '\n' !in line
    ensures UpToNewline(line) == line && UpToNewline(line + "\n" + more) == line
  {
    if line == "" {
      assert line + "\n" + more == ['\n'] + more;
    } else {
      assert (line + "\n" + more)[1..] == line[1..] + "\n" + more;
      FirstLineOnly(line[1..], more);
    }
  }

  /** The bullet's text: of the result its first line, in parentheses, cut at 120 characters, and none when it is empty. */
  lemma BulletInWords(tid: string, title: string, line: string, more: string)
    requires '\n' !in line
    ensures Bullet(tid, title, line + "\n" + more) == Bullet(tid, title, line)
    ensures line == "" ==> Bullet(tid, title, line) == "- " + tid + (" \U{2014} " + title)
    ensures 0 < |line| <= 120 ==> Bullet(tid, title, line) == "- " + tid + (" \U{2014} " + title + (" (" + line + ")"))
    ensures |line| > 120 ==> Bullet(tid, title, line) == Bullet(tid, title, line[..120])
  {
    FirstLineOnly(line, more);
    if |line| > 120 {
      FirstLineOnly(line[..120], "");
    }
  }

  // ---- Where the bullet goes ----

  function FirstDone(lines: seq<string>, i: nat, kind: string -> Kind): (d: nat)
    requires i <= |lines|
    ensures i <= d <= |lines|
    ensures forall j :: i <= j < d ==> !kind(lines[j]).DoneHeader?
    ensures d < |lines| ==> kind(lines[d]).DoneHeader?
    decreases |lines| - i
  {
    if i == |lines| || kind(lines[i]).DoneHeader? then i else FirstDone(lines, i + 1, kind)
  }

  /** The line that ends the search inside the Done section: the ticket's own item, or the next section. */
  predicate Stops(k: Kind) {
    k.Mention? || k.OtherHeader?
  }

  function FirstStop(lines: seq<string>, i: nat, kind: string -> Kind): (k: nat)
    requires i <= |lines|
    ensures i <= k <= |lines|
    ensures forall j :: i <= j < k ==> !Stops(kind(lines[j]))
    ensures k < |lines| ==> Stops(kind(lines[k]))
    decreases |lines| - i
  {
    if i == |lines| || Stops(kind(lines[i])) then i else FirstStop(lines, i + 1, kind)
  }

  datatype Slot = NoSection | Already | Before(k: nat)

  function SlotOf(lines: seq<string>, kind: string -> Kind): (s: Slot)
    ensures s.Before? ==> 0 < s.k <= |lines|
  {
    var d := FirstDone(lines, 0, kind);
    if d == |lines| then NoSection
    else
      var k := FirstStop(lines, d + 1, kind);
      if k < |lines| && kind(lines[k]).Mention? then Already else Before(k)
  }

  predicate EndsInNewline(s: string) {
    s != "" && s[|s| - 1] == '\n'
  }

  function Insert(lines: seq<string>, k: nat, bullet: string): seq<string>
    requires 0 < k <= |lines|
  {
    if k < |lines| then lines[..k] + [bullet + "\n"] + lines[k..]
    else lines + (if EndsInNewline(lines[|lines| - 1]) then [] else ["\n"]) + [bullet + "\n"]
  }

  /** The file after one run. */
  function Edit(file: string, tid: string, bullet: string): string {
    var lines := SplitKeep(Universal(file));
    match SlotOf(lines, Classifier(tid))
    case NoSection => file
    case Already => Concat(lines)
    case Before(k) => Concat(Insert(lines, k, bullet))
  }

  /** What the pass has copied out of its first `i` lines. */
  function Copied(lines: seq<string>, i: nat, slot: Slot, bullet: string): seq<string>
    requires i <= |lines|
  {
    if slot.Before? && slot.k < i then lines[..slot.k] + [bullet + "\n"] + lines[slot.k..i] else lines[..i]
  }

  lemma CopiedStep(lines: seq<string>, i: nat, slot: Slot, bullet: string)
    requires i < |lines|
    ensures Copied(lines, i + 1, slot, bullet) ==
      Copied(lines, i, slot, bullet) + if slot == Before(i) then [bullet + "\n", lines[i]] else [lines[i]]
  {
    if slot.Before? && slot.k <= i {
      assert lines[slot.k..i + 1] == lines[slot.k..i] + [lines[i]];
    }
  }

  lemma SlipIn(out: seq<string>, line: string, b: string)
    ensures var o := out + [line]; o[..|o| - 1] + [b] + o[|o| - 1..] == out + [b, line]
  {
  }

  /** The single pass over the lines: copies them, slipping the bullet in where it belongs. */
  method InsertBullet(lines: seq<string>, kind: string -> Kind, bullet: string) returns (out: seq<string>, appended: bool)
    ensures appended <==> !SlotOf(lines, kind).NoSection?
    ensures out == if SlotOf(lines, kind).Before? then Insert(lines, SlotOf(lines, kind).k, bullet) else lines
  {
    ghost var d, slot := FirstDone(lines, 0, kind), SlotOf(lines, kind);
    ghost var stop := if d < |lines| then FirstStop(lines, d + 1, kind) else d;
    out := [];
    appended := false;
    var inDone := false;
    var i := 0;
    while i < |lines|
      invariant 0 <= i <= |lines|
      invariant out == Copied(lines, i, slot, bullet)
      invariant i <= stop || slot.Already? ==> (inDone <==> d < i)
      invariant appended <==> stop < i && d < |lines|
    {
      var line := lines[i];
      CopiedStep(lines, i, slot, bullet);
      if inDone && kind(line).Mention? {
        appended := true;
        out := out + [line];
      } else {
        out := out + [line];
        if kind(line).DoneHeader? {
          inDone := true;
        } else if inDone && kind(line).OtherHeader? && !appended {
          SlipIn(Copied(lines, i, slot, bullet), line, bullet + "\n");
          out := out[..|out| - 1] + [bullet + "\n"] + out[|out| - 1..];
          appended := true;
          inDone := false;
        }
      }
      i := i + 1;
    }
    assert lines[..i] == lines && lines[i..] == [];
    if inDone && !appended {
      if out != [] && !EndsInNewline(out[|out| - 1]) {
        out := out + ["\n"];
      }
      out := out + [bullet + "\n"];
      appended := true;
    }
  }

  /** From the first Done header, at `d`, up to the next other header, at `e`, or the end of the file. */
  ghost predicate DoneSection(lines: seq<string>, kind: string -> Kind, d: int, e: int) {
    && 0 <= d < e <= |lines| && kind(lines[d]).DoneHeader? && (forall j :: 0 <= j < d ==> !kind(lines[j]).DoneHeader?)
    && (forall j :: d < j < e ==> !kind(lines[j]).OtherHeader?) && (e < |lines| ==> kind(lines[e]).OtherHeader?)
  }

  /** The bullet on a line of its own in front of line `e`; at the end of the file, after a line break if there is none. */
  ghost function WithBulletAt(lines: seq<string>, e: int, bullet: string): seq<string>
    requires 0 < e <= |lines|
  {
    var gap := if e == |lines| && (lines[e - 1] == "" || lines[e - 1][|lines[e - 1]| - 1] != '\n') then ["\n"] else [];
    lines[..e] + gap + [bullet + "\n"] + lines[e..]
  }

  /**
   Where the bullet goes: nowhere without a Done section or when an item of the section names the ticket already, else in
   front of the header that ends the section, or at the end of the file.
   */
  lemma SlotInWords(lines: seq<string>, kind: string -> Kind, bullet: string)
    ensures var slot := SlotOf(lines, kind);
      && (slot.NoSection? <==> forall j :: 0 <= j < |lines| ==> !kind(lines[j]).DoneHeader?)
      && (!slot.NoSection? ==> exists d, e :: DoneSection(lines, kind, d, e))
      && forall d, e :: DoneSection(lines, kind, d, e) ==>
           if exists m :: d < m < e && kind(lines[m]).Mention? then slot.Already?
           else slot.Before? && Insert(lines, slot.k, bullet) == WithBulletAt(lines, e, bullet)
  {
    var d := FirstDone(lines, 0, kind);
    if d < |lines| {
      var e := SectionEnd(lines, kind, d);
      assert DoneSection(lines, kind, d, e);
    }
    forall d', e | DoneSection(lines, kind, d', e) ensures
      var slot := SlotOf(lines, kind);
      if exists m :: d' < m < e && kind(lines[m]).Mention? then slot.Already?
      else slot.Before? && Insert(lines, slot.k, bullet) == WithBulletAt(lines, e, bullet)
    {
      assert d' == d;
      SlotOfSection(lines, kind, d, e, bullet);
    }
  }

  lemma SectionEnd(lines: seq<string>, kind: string -> Kind, d: nat) returns (e: nat)
    requires d < |lines| && kind(lines[d]).DoneHeader? && forall j :: 0 <= j < d ==> !kind(lines[j]).DoneHeader?
    ensures DoneSection(lines, kind, d, e)
  {
    e := d + 1;
    while e < |lines| && !kind(lines[e]).OtherHeader?
      invariant d < e <= |lines| && forall j :: d < j < e ==> !kind(lines[j]).OtherHeader?
    {
      e := e + 1;
    }
  }

  lemma SlotOfSection(lines: seq<string>, kind: string -> Kind, d: int, e: int, bullet: string)
    requires DoneSection(lines, kind, d, e) && d == FirstDone(lines, 0, kind)
    ensures var slot := SlotOf(lines, kind);
      if exists m :: d < m < e && kind(lines[m]).Mention? then slot.Already?
      else slot.Before? && Insert(lines, slot.k, bullet) == WithBulletAt(lines, e, bullet)
  {
    var k := FirstStop(lines, d + 1, kind);
    if m :| d < m < e && kind(lines[m]).Mention? {
      assert Stops(kind(lines[m])) && k <= m;
    } else {
      assert k == e;
      assert e == |lines| ==> lines[..e] == lines && lines[e..] == [];
    }
  }

  method AppendToSlate(file: string, tid: string, bullet: string) returns (file': string)
    ensures file' == Edit(file, tid, bullet)
  {
    var lines := SplitKeep(Universal(file));
    var out, appended := InsertBullet(lines, Classifier(tid), bullet);
    file' := if appended then Concat(out) else file;
  }

  // ---- Nothing is lost or reordered ----

  /** `e` is `u` with the bullet, on a line of its own, inserted at position `k`. */
  ghost predicate BulletInserted(u: string, k: nat, bullet: string, e: string) {
    k <= |u| && (e == u[..k] + bullet + "\n" + u[k..] || (k == |u| && e == u + "\n" + bullet + "\n"))
  }

  /** The text is kept in order; at most one bullet goes in, plus a final newline the text lacked. */
  lemma EditInsertsOneBullet(file: string, tid: string, bullet: string)
    ensures var e, u := Edit(file, tid, bullet), Universal(file);
      e == file || e == u || exists k :: BulletInserted(u, k, bullet, e)
  {
    var u := Universal(file);
    var lines := SplitKeep(u);
    ConcatOfSplit(u);
    var slot := SlotOf(lines, Classifier(tid));
    if slot.Before? {
      InsertKeepsText(lines, slot.k, bullet);
    }
  }

  lemma InsertKeepsText(lines: seq<string>, k: nat, bullet: string)
    requires 0 < k <= |lines|
    ensures exists i :: BulletInserted(Concat(lines), i, bullet, Concat(Insert(lines, k, bullet)))
  {
    ConcatCut(lines, k);
    ConcatInsert(lines, k, bullet);
    var pre, post := Concat(lines[..k]), Concat(lines[k..]);
    BulletBetween(pre, Gap(lines, k), bullet, post);
    assert BulletInserted(pre + post, |pre|, bullet, pre + Gap(lines, k) + (bullet + "\n") + post);
  }

  lemma BulletBetween(pre: string, gap: string, bullet: string, post: string)
    requires gap == "" || (gap == "\n" && post == "")
    ensures BulletInserted(pre + post, |pre|, bullet, pre + gap + (bullet + "\n") + post)
  {
    var u, e := pre + post, pre + gap + (bullet + "\n") + post;
    assert u[..|pre|] == pre && u[|pre|..] == post;
    if gap == "" {
      assert pre + gap == pre;
      assert e == pre + bullet + "\n" + post;
    } else {
      assert u == pre;
      assert e == pre + gap + bullet + "\n";
    }
  }

  lemma ConcatCut(lines: seq<string>, k: nat)
    requires k <= |lines|
    ensures Concat(lines) == Concat(lines[..k]) + Concat(lines[k..])
  {
    assert lines == lines[..k] + lines[k..];
    ConcatAppend(lines[..k], lines[k..]);
  }

  lemma ConcatThree(a: seq<string>, b: seq<string>, c: seq<string>)
    ensures Concat(a + b + c) == Concat(a) + Concat(b) + Concat(c)
  {
    ConcatAppend(a + b, c);
    ConcatAppend(a, b);
  }

  lemma ConcatOne(line: string)
    ensures Concat([line]) == line
  {
    assert Concat([line][1..]) == "";
  }

  lemma ConcatInsert(lines: seq<string>, k: nat, bullet: string)
    requires 0 < k <= |lines|
    ensures Concat(Insert(lines, k, bullet)) == Concat(lines[..k]) + Gap(lines, k) + (bullet + "\n") + Concat(lines[k..])
  {
    var b := bullet + "\n";
    assert Concat([]) == "";
    hide Concat;
    ConcatOne(b);
    ConcatOne("\n");
    if k < |lines| {
      ConcatThree(lines[..k], [b], lines[k..]);
    } else {
      assert lines[..k] == lines && lines[k..] == [];
      ConcatThree(lines, if EndsInNewline(lines[k - 1]) then [] else ["\n"], [b]);
    }
  }

  /** The newline added when the text does not end in one. */
  function Gap(lines: seq<string>, k: nat): string
    requires 0 < k <= |lines|
  {
    if k == |lines| && !EndsInNewline(lines[k - 1]) then "\n" else ""
  }

  // ---- A second run recognises the first ----

  /** The lines a second run reads after an insertion: the old ones, with the bullet's own lines in between. */
  ghost function Reread(lines: seq<string>, k: nat, bullet: string): seq<string>
    requires 0 < k <= |lines|
  {
    var mid := SplitKeep(Universal(bullet + "\n"));
    if k < |lines| then lines[..k] + mid + lines[k..]
    else
      var last := lines[|lines| - 1];
      if EndsInNewline(last) then lines + mid
      else if last != "" && IsBreak(last[|last| - 1]) then lines + ["\n"] + mid
      else lines[..|lines| - 1] + [last + "\n"] + mid
  }

  lemma RereadIsWhatIsRead(u: string, k: nat, bullet: string)
    requires '\r' !in u && 0 < k <= |SplitKeep(u)|
    ensures var lines := SplitKeep(u);
      SplitKeep(Universal(Concat(Insert(lines, k, bullet)))) == Reread(lines, k, bullet)
  {
    var lines := SplitKeep(u);
    ConcatOfSplit(u);
    ConcatOfReread(lines, k, bullet);
    UniversalOfInsert(u, k, bullet);
    RereadShape(lines, k, bullet);
    SplitOfConcat(Reread(lines, k, bullet));
  }

  lemma RereadShape(lines: seq<string>, k: nat, bullet: string)
    requires Shape(lines) && 0 < k <= |lines|
    ensures Shape(Reread(lines, k, bullet))
  {
    hide SplitKeep, Universal;
    BulletLinesAreFull(bullet);
    var mid := SplitKeep(Universal(bullet + "\n"));
    var n := |lines| - 1;
    var last := lines[n];
    if k < |lines| {
      ShapeJoin(lines[..k] + mid, lines[k..]);
    } else if last != "" && IsBreak(last[|last| - 1]) {
      ShapeJoin(lines, mid);
      ShapeJoin(lines + ["\n"], mid);
    } else {
      CompletedLine(last);
      ShapeJoin(lines[..n] + [last + "\n"], mid);
    }
  }

  lemma ShapeJoin(a: seq<string>, b: seq<string>)
    requires (forall j :: 0 <= j < |a| ==> FullLine(a[j])) && Shape(b)
    ensures Shape(a + b)
  {
  }

  lemma CompletedLine(line: string)
    requires LineLike(line) && !IsBreak(line[|line| - 1])
    ensures FullLine(line + "\n")
  {
    assert (line + "\n")[..|line|] == line;
    forall j | 0 <= j < |line| - 1 ensures !IsBreak(line[j]) {
      assert line[j] == line[..|line| - 1][j];
    }
  }

  lemma BulletLinesAreFull(bullet: string)
    ensures var mid := SplitKeep(Universal(bullet + "\n")); mid != [] && forall j :: 0 <= j < |mid| ==> FullLine(mid[j])
  {
    hide SplitKeep, Universal, Concat, LineLike, FullLine, Shape;
    var b := Universal(bullet + "\n");
    UniversalEnds(bullet);
    ConcatOfSplit(b);
    AllLinesFull(SplitKeep(b));
  }

  lemma AllLinesFull(lines: seq<string>)
    requires Shape(lines) && Concat(lines) != "" && IsBreak(Concat(lines)[|Concat(lines)| - 1])
    ensures lines != [] && forall j :: 0 <= j < |lines| ==> FullLine(lines[j])
  {
    LastLineEnds(lines);
    assert LineLike(lines[|lines| - 1]);
  }

  lemma {:induction false} LastLineEnds(lines: seq<string>)
    requires Shape(lines) && lines != []
    ensures var c, last := Concat(lines), lines[|lines| - 1]; c != "" && c[|c| - 1] == last[|last| - 1]
  {
    if |lines| > 1 {
      LastLineEnds(lines[1..]);
    }
  }

  lemma ConcatOfReread(lines: seq<string>, k: nat, bullet: string)
    requires Shape(lines) && 0 < k <= |lines|
    ensures Concat(Reread(lines, k, bullet))
         == Concat(lines[..k]) + Gap(lines, k) + Universal(bullet + "\n") + Concat(lines[k..])
  {
    var b := Universal(bullet + "\n");
    var mid := SplitKeep(b);
    ConcatOfSplit(b);
    if k < |lines| {
      ConcatThree(lines[..k], mid, lines[k..]);
      NoGap(Concat(lines[..k]), b, Concat(lines[k..]));
    } else {
      assert lines[..k] == lines && lines[k..] == [];
      ConcatOfRereadEnd(lines, mid);
      NoGap(Concat(lines), b, "");
    }
  }

  lemma NoGap(a: string, b: string, c: string)
    ensures a + "" + b + c == a + b + c && a + b + "" == a + b
  {
  }

  lemma ConcatOfRereadEnd(lines: seq<string>, mid: seq<string>)
    requires lines != []
    ensures var n := |lines| - 1; var last := lines[n];
      && Concat(lines + mid) == Concat(lines) + Concat(mid)
      && Concat(lines + ["\n"] + mid) == Concat(lines) + "\n" + Concat(mid)
      && Concat(lines[..n] + [last + "\n"] + mid) == Concat(lines) + "\n" + Concat(mid)
  {
    hide Concat;
    var n := |lines| - 1;
    var last := lines[n];
    ConcatAppend(lines, mid);
    ConcatThree(lines, ["\n"], mid);
    ConcatThree(lines[..n], [last + "\n"], mid);
    ConcatCut(lines, n);
    assert lines[n..] == [last];
    ConcatOne("\n");
    ConcatOne(last);
    ConcatOne(last + "\n");
  }

  lemma NoReturnInParts(a: string, b: string)
    requires '\r' !in a + b
    ensures '\r' !in a && '\r' !in b
  {
    assert forall c :: c in a || c in b ==> c in a + b;
  }

  lemma UniversalOfInsert(u: string, k: nat, bullet: string)
    requires '\r' !in u && 0 < k <= |SplitKeep(u)|
    ensures var lines := SplitKeep(u);
      Universal(Concat(Insert(lines, k, bullet)))
        == Concat(lines[..k]) + Gap(lines, k) + Universal(bullet + "\n") + Concat(lines[k..])
  {
    var lines := SplitKeep(u);
    ConcatOfSplit(u);
    ConcatInsert(lines, k, bullet);
    ConcatCut(lines, k);
    var pre, post, b := Concat(lines[..k]), Concat(lines[k..]), bullet + "\n";
    NoReturnInParts(pre, post);
    UniversalSandwich(pre + Gap(lines, k), b, post);
  }

  /** Newline translation works on the middle alone when the ends hold no carriage return. */
  lemma UniversalSandwich(a: string, b: string, c: string)
    requires '\r' !in a && '\r' !in c && b != "" && b[|b| - 1] == '\n'
    ensures Universal(a + b + c) == a + Universal(b) + c
  {
    UniversalAppend(a + b, c);
    UniversalAppend(a, b);
    UniversalNoReturn(a);
    UniversalNoReturn(c);
  }

  // ---- The bullet's first line mentions the ticket ----

  lemma FirstBulletLine(tid: string, rest: string)
    requires NoBreak(tid)
    ensures var mid := SplitKeep(Universal("- " + tid + rest + "\n"));
      mid != [] && Mentions(mid[0], tid) && !IsHeader(mid[0])
  {
    var head := "- " + tid;
    UniversalAfterHead(head, rest, "- " + tid + rest + "\n", tid);
    var u := Universal("- " + tid + rest + "\n");
    FirstLineHasHead(u, head);
    ItemMentions(SplitKeep(u)[0], tid);
  }

  lemma UniversalAfterHead(head: string, rest: string, line: string, tid: string)
    requires NoBreak(tid) && head == "- " + tid && line == head + rest + "\n"
    ensures NoBreak(head) && Universal(line) != "" && head <= Universal(line)
  {
    assert forall j :: 2 <= j < |head| ==> head[j] == tid[j - 2];
    assert line == head + (rest + "\n") + "";
    UniversalSandwich(head, rest + "\n", "");
    UniversalEnds(rest);
  }

  /** A line that starts as the bullet does is a list item that names the ticket. */
  lemma ItemMentions(line: string, tid: string)
    requires "- " + tid <= line
    ensures Mentions(line, tid) && !IsHeader(line)
  {
    var head := "- " + tid;
    assert line[2..2 + |tid|] == head[2..] == tid;
    assert OccursAt(line, tid, 2);
    assert line[0] == head[0] == '-';
    assert StripLeft(line, IsSpace) == line;
  }

  lemma FirstLineHasHead(u: string, head: string)
    requires head <= u && u != "" && NoBreak(head)
    ensures head <= SplitKeep(u)[0]
  {
    assert forall j :: 0 <= j < |head| ==> u[j] == head[j] && !IsBreak(u[j]);
    assert |head| <= FirstLine(u);
  }

  lemma NewlineKeepsKind(line: string, tid: string)
    requires NoBreak(tid)
    ensures KindOf(line + "\n", tid) == KindOf(line, tid)
  {
    var l := line + "\n";
    assert l[|line|] == '\n';
    TrimmedNewline(line);
    ContainsNewline(line, tid);
    assert IsDoneHeader(l) <==> IsDoneHeader(line) by {
      if IsDoneHeader(l) {
        assert "## Done"[6] == 'e';
      }
    }
    assert IsHeader(l) <==> IsHeader(line);
  }

  lemma ContainsNewline(line: string, tid: string)
    requires NoBreak(tid)
    ensures Contains(line + "\n", tid) <==> Contains(line, tid)
  {
    var l := line + "\n";
    if i :| 0 <= i <= |l| - |tid| && OccursAt(l, tid, i) {
      if tid == "" {
        assert OccursAt(line, tid, 0);
      } else {
        assert l[i + |tid| - 1] == l[i..i + |tid|][|tid| - 1] == tid[|tid| - 1];
        assert line[i..i + |tid|] == l[i..i + |tid|];
        assert OccursAt(line, tid, i);
      }
    }
    if i :| 0 <= i <= |line| - |tid| && OccursAt(line, tid, i) {
      assert line[i..i + |tid|] == l[i..i + |tid|];
      assert OccursAt(l, tid, i);
    }
  }

  lemma {:induction false} TrimmedNewline(line: string)
    ensures Trimmed(line + "\n") == if Trimmed(line) == "" then "" else Trimmed(line) + "\n"
  {
    if line != "" && IsSpace(line[0]) {
      assert (line + "\n")[1..] == line[1..] + "\n";
      TrimmedNewline(line[1..]);
    } else if line == "" {
      assert line + "\n" == "\n" && Trimmed("\n"[1..]) == "";
    }
  }

  /** After an insertion, a second scan finds the ticket already there. */
  lemma RereadFindsTicket(lines: seq<string>, kind: string -> Kind, bullet: string)
    requires SlotOf(lines, kind).Before?
    requires var mid := SplitKeep(Universal(bullet + "\n")); mid != [] && kind(mid[0]).Mention?
    requires kind("\n").Plain? && kind(lines[|lines| - 1] + "\n") == kind(lines[|lines| - 1])
    ensures SlotOf(Reread(lines, SlotOf(lines, kind).k, bullet), kind).Already?
  {
    var k := SlotOf(lines, kind).k;
    var again := Reread(lines, k, bullet);
    var last := lines[|lines| - 1];
    var at := if k == |lines| && !EndsInNewline(last) && last != "" && IsBreak(last[|last| - 1]) then k + 1 else k;
    assert forall j :: 0 <= j < k ==> kind(again[j]) == kind(lines[j]);
    assert forall j :: k <= j < at ==> kind(again[j]).Plain?;
    assert kind(again[at]).Mention?;
    SlotTaken(lines, again, kind, k, at);
  }

  /** The same kinds up to the slot, plain lines after it, then the ticket: the scan stops at the ticket. */
  lemma SlotTaken(lines: seq<string>, again: seq<string>, kind: string -> Kind, k: nat, at: nat)
    requires SlotOf(lines, kind) == Before(k) && k <= at < |again|
    requires forall j :: 0 <= j < k ==> kind(again[j]) == kind(lines[j])
    requires forall j :: k <= j < at ==> kind(again[j]).Plain?
    requires kind(again[at]).Mention?
    ensures SlotOf(again, kind).Already?
  {
    var d := FirstDone(lines, 0, kind);
    assert FirstDone(again, 0, kind) == d;
    assert FirstStop(again, d + 1, kind) == at;
  }

  ghost predicate InsertsInto(file: string, tid: string) {
    SlotOf(SplitKeep(Universal(file)), Classifier(tid)).Before?
  }

  lemma RereadIsTaken(lines: seq<string>, tid: string, rest: string)
    requires NoBreak(tid) && SlotOf(lines, Classifier(tid)).Before?
    ensures SlotOf(Reread(lines, SlotOf(lines, Classifier(tid)).k, "- " + tid + rest), Classifier(tid)).Already?
  {
    FirstBulletLine(tid, rest);
    NewlineKeepsKind(lines[|lines| - 1], tid);
    assert Trimmed("\n") == Trimmed("") == "";
    RereadFindsTicket(lines, Classifier(tid), "- " + tid + rest);
  }

  /** Two runs equal one run, as the file is read back: for every file and every id without line breaks. */
  lemma SecondRunRereads(file: string, tid: string, rest: string)
    requires NoBreak(tid)
    ensures var b := "- " + tid + rest; var once := Edit(file, tid, b);
      Edit(once, tid, b) == if InsertsInto(file, tid) then Universal(once) else once
  {
    var b, u := "- " + tid + rest, Universal(file);
    var lines, kind := SplitKeep(u), Classifier(tid);
    UniversalNoReturn(file);
    ConcatOfSplit(u);
    match SlotOf(lines, kind) {
      case NoSection =>
      case Already =>
        UniversalNoReturn(u);
      case Before(k) =>
        RereadIsWhatIsRead(u, k, b);
        RereadIsTaken(lines, tid, rest);
        ConcatOfSplit(Universal(Edit(file, tid, b)));
    }
  }

  /** The editor is idempotent exactly when it does not itself write a carriage return. */
  lemma IdempotentIff(file: string, tid: string, title: string, result: string)
    requires NoBreak(tid)
    ensures var b := Bullet(tid, title, result);
      (Edit(Edit(file, tid, b), tid, b) == Edit(file, tid, b))
        <==> !(InsertsInto(file, tid) && '\r' in BulletTail(title, result))
  {
    var rest, u := BulletTail(title, result), Universal(file);
    var b := "- " + tid + rest;
    var lines := SplitKeep(u);
    var once := Edit(file, tid, b);
    SecondRunRereads(file, tid, rest);
    UniversalNoReturn(once);
    UniversalNoReturn(file);
    if InsertsInto(file, tid) {
      var k := SlotOf(lines, Classifier(tid)).k;
      ConcatOfSplit(u);
      ConcatCut(lines, k);
      ConcatInsert(lines, k, b);
      assert once == Concat(lines[..k]) + Gap(lines, k) + (b + "\n") + Concat(lines[k..]);
      assert '\r' in b <==> '\r' in rest by {
        assert forall c :: c in b <==> c in "- " || c in tid || c in rest;
      }
    }
  }
}
