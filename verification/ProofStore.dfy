/**
 Proof-on-close, read side: a proof binds to a commit, and counts only while
 that commit is an ancestor of HEAD and the proved paths have not drifted.
 Git is a graph of commits, each with its parents and its tree.
 */
module ProofStore {
  import opened Tickets

  type Commit = string
  type Tree = map<string, nat>

  datatype Node = Node(parents: set<Commit>, tree: Tree)
  type Graph = map<Commit, Node>

  datatype Proof = Proof(id: string, tickets: seq<string>, commit: Commit, linkedCommits: seq<Commit>, implPaths: seq<string>)

  /** The recorded commit, else the first linked one, else none (the empty string). */
  function BoundCommit(p: Proof): Commit {
    if p.commit != "" then p.commit
    else if p.linkedCommits != [] then p.linkedCommits[0] else ""
  }

  // ---- Git's answers ----

  /** A walk from `b` through parents down to `a`. */
  ghost predicate Chain(g: Graph, a: Commit, b: Commit, walk: seq<Commit>) {
    && walk != [] && walk[0] == b && walk[|walk| - 1] == a
    && (forall i :: 0 <= i < |walk| ==> walk[i] in g)
    && (forall i :: 0 <= i < |walk| - 1 ==> walk[i + 1] in g[walk[i]].parents)
  }

  /** `merge-base --is-ancestor a b`. */
  ghost predicate IsAncestor(g: Graph, a: Commit, b: Commit) {
    exists walk :: Chain(g, a, b, walk)
  }

  /** A pathspec, read from the top of the tree: `./x` is `x`. */
  function FromTop(spec: string): string {
    if "./" <= spec then spec[2..] else spec
  }

  /** A pathspec names a file, or everything below a directory; the top directory holds everything. */
  predicate Covers(spec: string, path: string) {
    var s := FromTop(spec);
    spec == "." || spec == "./" || path == s || (s != "" && (s + "/" <= path || (s[|s| - 1] == '/' && s <= path)))
  }

  /** Proving the top directory binds a proof to the whole tree. */
  lemma TopCoversAll(spec: string, path: string)
    requires spec == "." || spec == "./"
    ensures Covers(spec, path)
  {
  }

  /** A plain path: not written from the top, not a directory with its slash. */
  predicate IsPlain(spec: string) {
    spec != "" && spec != "." && !("./" <= spec) && spec[|spec| - 1] != '/'
  }

  /** A plain path covers itself and what lies below it. */
  lemma PlainCovers(spec: string, path: string)
    requires IsPlain(spec)
    ensures Covers(spec, path) <==> path == spec || exists rest :: path == spec + "/" + rest
  {
    if spec + "/" <= path {
      assert path == spec + "/" + path[|spec| + 1..];
    }
  }

  /** So a longer name that merely begins alike is not covered. */
  lemma SiblingIsNotCovered(spec: string, c: char, rest: string)
    requires IsPlain(spec) && c != '/'
    ensures !Covers(spec, spec + [c] + rest)
  {
    assert (spec + [c] + rest)[|spec|] == c;
  }

  /** A final slash asks for the directory's contents; a leading `./` changes nothing. */
  lemma DirectoryCovers(spec: string, path: string)
    requires IsPlain(spec)
    ensures Covers(spec + "/", path) <==> exists rest :: path == spec + "/" + rest
    ensures Covers("./" + spec, path) <==> Covers(spec, path)
  {
    assert ("./" + spec)[2..] == spec;
    var t := spec + "/";
    assert t[0] == spec[0];
    if |spec| == 1 {
      assert spec == [spec[0]];
    } else {
      assert t[1] == spec[1] && t[..2] == spec[..2];
    }
    if spec + "/" <= path {
      assert path == spec + "/" + path[|spec| + 1..];
    }
  }

  ghost predicate SameAt(s: Tree, t: Tree, path: string) {
    (path in s <==> path in t) && (path in s && path in t ==> s[path] == t[path])
  }

  /** `diff --name-only a b -- specs`. */
  ghost function Changed(g: Graph, a: Commit, b: Commit, specs: seq<string>): set<string>
    requires a in g && b in g
  {
    set path | path in g[a].tree.Keys + g[b].tree.Keys
               && !SameAt(g[a].tree, g[b].tree, path) && (exists spec :: spec in specs && Covers(spec, path))
  }

  datatype Verdict =
    | Accepted
    | NoCommit
    | UnknownCommit
    | NotReachable
    | NoImplPaths
    | Drifted(paths: set<string>)

  /** `validate`, in the order the source asks git. */
  ghost function Validate(g: Graph, head: Commit, p: Proof): Verdict
    requires head in g
  {
    var commit := BoundCommit(p);
    if commit == "" then NoCommit
    else if !IsAncestor(g, commit, head) then (if commit in g then NotReachable else UnknownCommit)
    else if p.implPaths == [] then NoImplPaths
    else
      var walk :| Chain(g, commit, head, walk);
      assert walk[|walk| - 1] in g;
      var changed := Changed(g, commit, head, p.implPaths);
      if changed == {} then Accepted else Drifted(changed)
  }

  /** The commit a proof is bound to: the one it records, or the first of its linked ones when it records none. */
  ghost predicate Names(p: Proof, c: Commit) {
    c != "" && (c == p.commit || (p.commit == "" && p.linkedCommits != [] && c == p.linkedCommits[0]))
  }

  /** The two trees agree on every path the proof covers. */
  ghost predicate AgreeOn(s: Tree, t: Tree, specs: seq<string>) {
    forall spec, path :: spec in specs && Covers(spec, path) ==> SameAt(s, t, path)
  }

  /** What acceptance means. */
  lemma AcceptedIff(g: Graph, head: Commit, p: Proof)
    requires head in g
    ensures Validate(g, head, p).Accepted? <==>
      var c := BoundCommit(p);
      c != "" && c in g && IsAncestor(g, c, head) && p.implPaths != [] && AgreeOn(g[c].tree, g[head].tree, p.implPaths)
    ensures Validate(g, head, p).Accepted? <==>
      exists c :: c in g && Names(p, c) && IsAncestor(g, c, head) && p.implPaths != [] && AgreeOn(g[c].tree, g[head].tree, p.implPaths)
  {
    var c := BoundCommit(p);
    assert c != "" ==> Names(p, c);
    if c != "" && IsAncestor(g, c, head) {
      var walk :| Chain(g, c, head, walk);
      assert walk[|walk| - 1] in g;
      var changed := Changed(g, c, head, p.implPaths);
      if changed == {} {
        forall spec, path | spec in p.implPaths && Covers(spec, path) ensures SameAt(g[c].tree, g[head].tree, path) {
          assert path !in changed;
        }
      } else {
        var path :| path in changed;
        assert !SameAt(g[c].tree, g[head].tree, path);
      }
    }
  }

  // ---- History grows ----

  /** Commits are never rewritten: later graphs only add. */
  ghost predicate Grows(g: Graph, h: Graph) {
    forall c :: c in g ==> c in h && h[c] == g[c]
  }

  lemma ChainSurvives(g: Graph, h: Graph, a: Commit, b: Commit)
    requires Grows(g, h) && IsAncestor(g, a, b)
    ensures IsAncestor(h, a, b)
  {
    var walk :| Chain(g, a, b, walk);
    assert Chain(h, a, b, walk);
  }

  lemma AncestryIsTransitive(g: Graph, a: Commit, b: Commit, c: Commit)
    requires IsAncestor(g, a, b) && IsAncestor(g, b, c)
    ensures IsAncestor(g, a, c)
  {
    var low :| Chain(g, a, b, low);
    var high :| Chain(g, b, c, high);
    var walk := high + low[1..];
    forall i | 0 <= i < |walk| - 1 ensures walk[i + 1] in g[walk[i]].parents {
      if i == |high| - 1 {
        assert walk[i] == low[0];
      }
    }
    assert Chain(g, a, c, walk);
  }

  /**
   Once accepted, a proof is accepted at a later HEAD exactly when that HEAD's tree still agrees with the
   proof's commit on the proved paths; reachability is never lost.
   */
  lemma AcceptedProofBindsToPaths(g: Graph, head: Commit, h: Graph, head': Commit, p: Proof)
    requires head in g && Validate(g, head, p).Accepted?
    requires Grows(g, h) && IsAncestor(h, head, head') && head' in h
    ensures Validate(h, head', p).Accepted? <==> AgreeOn(g[BoundCommitOf(g, head, p)].tree, h[head'].tree, p.implPaths)
  {
    var c := BoundCommit(p);
    AcceptedIff(g, head, p);
    AcceptedIff(h, head', p);
    ChainSurvives(g, h, c, head);
    AncestryIsTransitive(h, c, head, head');
  }

  /** The commit of an accepted proof is in the graph. */
  ghost function BoundCommitOf(g: Graph, head: Commit, p: Proof): (c: Commit)
    requires head in g && Validate(g, head, p).Accepted?
    ensures c in g && c == BoundCommit(p)
  {
    AcceptedIff(g, head, p);
    BoundCommit(p)
  }

  /** A proof whose commit was left behind by the branch is refused, whatever the trees say. */
  lemma UnreachableIsRefused(g: Graph, head: Commit, p: Proof)
    requires head in g && BoundCommit(p) != "" && !IsAncestor(g, BoundCommit(p), head)
    ensures Validate(g, head, p) == if BoundCommit(p) in g then NotReachable else UnknownCommit
  {
  }

  // ---- Choosing a proof ----

  ghost function LinkedTo(proofs: seq<Proof>, tid: string): seq<Proof> {
    if proofs == [] then []
    else
      var n := |proofs| - 1;
      LinkedTo(proofs[..n], tid) + if tid in proofs[n].tickets then [proofs[n]] else []
  }

  lemma {:induction false} LinkedIff(proofs: seq<Proof>, tid: string, p: Proof)
    ensures p in LinkedTo(proofs, tid) <==> p in proofs && tid in p.tickets
  {
    if proofs != [] {
      var n := |proofs| - 1;
      assert proofs == proofs[..n] + [proofs[n]];
      LinkedIff(proofs[..n], tid, p);
    }
  }

  method FindForTicket(proofs: seq<Proof>, tid: string) returns (out: seq<Proof>)
    ensures out == LinkedTo(proofs, tid)
  {
    out := [];
    var i := 0;
    while i < |proofs|
      invariant 0 <= i <= |proofs|
      invariant out == LinkedTo(proofs[..i], tid)
    {
      assert proofs[..i + 1][..i] == proofs[..i];
      if tid in proofs[i].tickets {
        out := out + [proofs[i]];
      }
      i := i + 1;
    }
    assert proofs[..i] == proofs;
  }

  datatype Rejection = NoneEmitted | Rejected(proofId: string, why: Verdict)

  /** The first accepted proof linked to the ticket, with one rejection for each candidate before it. */
  method BestValidProof(proofs: seq<Proof>, tid: string, validate: Proof -> Verdict)
    returns (best: Option<Proof>, rejections: seq<Rejection>)
    ensures best.Some? <==> exists p :: p in proofs && tid in p.tickets && validate(p).Accepted?
    ensures best == FirstAccepted(LinkedTo(proofs, tid), validate)
    ensures best.Some? ==> exists k: nat :: FirstAt(proofs, tid, validate, k) && proofs[k] == best.value
    ensures LinkedTo(proofs, tid) == [] ==> rejections == [NoneEmitted]
    ensures LinkedTo(proofs, tid) != [] ==>
      var linked := LinkedTo(proofs, tid);
      && |rejections| <= |linked|
      && (forall k :: 0 <= k < |rejections| ==> !validate(linked[k]).Accepted?
                                                && rejections[k] == Rejected(linked[k].id, validate(linked[k])))
      && (best.None? ==> |rejections| == |linked|)
      && (best.Some? ==> |rejections| < |linked| && best.value == linked[|rejections|] && validate(best.value).Accepted?)
  {
    rejections := [];
    best := None;
    var linked := FindForTicket(proofs, tid);
    forall p ensures p in linked <==> p in proofs && tid in p.tickets {
      LinkedIff(proofs, tid, p);
    }
    FirstAcceptedIsFirst(proofs, tid, validate);
    if linked == [] {
      return None, [NoneEmitted];
    }
    var i := 0;
    while i < |linked|
      invariant 0 <= i <= |linked| && |rejections| == i
      invariant forall k :: 0 <= k < i ==> !validate(linked[k]).Accepted?
                                            && rejections[k] == Rejected(linked[k].id, validate(linked[k]))
      invariant FirstAccepted(linked, validate) == FirstAccepted(linked[i..], validate)
    {
      var verdict := validate(linked[i]);
      if verdict.Accepted? {
        assert linked[i] in linked;
        return Some(linked[i]), rejections;
      }
      rejections := rejections + [Rejected(linked[i].id, verdict)];
      i := i + 1;
    }
  }

  function FirstAccepted(linked: seq<Proof>, validate: Proof -> Verdict): Option<Proof> {
    if linked == [] then None
    else if validate(linked[0]).Accepted? then Some(linked[0])
    else FirstAccepted(linked[1..], validate)
  }

  /** The proof at `k` is the first on file that is linked to the ticket and accepted. */
  ghost predicate FirstAt(proofs: seq<Proof>, tid: string, validate: Proof -> Verdict, k: nat) {
    k < |proofs| && tid in proofs[k].tickets && validate(proofs[k]).Accepted?
    && forall j :: 0 <= j < k && tid in proofs[j].tickets ==> !validate(proofs[j]).Accepted?
  }

  lemma {:induction false} FirstOfTwo(a: seq<Proof>, b: seq<Proof>, validate: Proof -> Verdict)
    ensures FirstAccepted(a + b, validate) == if FirstAccepted(a, validate).Some? then FirstAccepted(a, validate) else FirstAccepted(b, validate)
  {
    if a == [] {
      assert a + b == b;
    } else {
      assert (a + b)[1..] == a[1..] + b;
      FirstOfTwo(a[1..], b, validate);
    }
  }

  lemma {:induction false} FirstAcceptedIsFirst(proofs: seq<Proof>, tid: string, validate: Proof -> Verdict)
    ensures var best := FirstAccepted(LinkedTo(proofs, tid), validate);
      best.Some? ==> exists k: nat :: FirstAt(proofs, tid, validate, k) && proofs[k] == best.value
  {
    if proofs != [] {
      var n := |proofs| - 1;
      var more := if tid in proofs[n].tickets then [proofs[n]] else [];
      FirstAcceptedIsFirst(proofs[..n], tid, validate);
      FirstOfTwo(LinkedTo(proofs[..n], tid), more, validate);
      var best := FirstAccepted(LinkedTo(proofs[..n], tid), validate);
      if best.Some? {
        var k: nat :| FirstAt(proofs[..n], tid, validate, k) && proofs[..n][k] == best.value;
        assert FirstAt(proofs, tid, validate, k);
      } else if more != [] && validate(proofs[n]).Accepted? {
        NoneBefore(proofs[..n], tid, validate);
        assert FirstAt(proofs, tid, validate, n);
      }
    }
  }

  lemma NoneBefore(proofs: seq<Proof>, tid: string, validate: Proof -> Verdict)
    requires FirstAccepted(LinkedTo(proofs, tid), validate).None?
    ensures forall j :: 0 <= j < |proofs| && tid in proofs[j].tickets ==> !validate(proofs[j]).Accepted?
  {
    FirstAcceptedIsAccepted(LinkedTo(proofs, tid), validate);
    forall j | 0 <= j < |proofs| && tid in proofs[j].tickets ensures !validate(proofs[j]).Accepted? {
      LinkedIff(proofs, tid, proofs[j]);
    }
  }

  /** The proof the close gate uses, over a commit graph. */
  ghost function BestProof(proofs: seq<Proof>, tid: string, g: Graph, head: Commit): Option<Proof>
    requires head in g
  {
    FirstAccepted(LinkedTo(proofs, tid), p => Validate(g, head, p))
  }

  lemma {:induction false} FirstAcceptedIsAccepted(linked: seq<Proof>, validate: Proof -> Verdict)
    ensures FirstAccepted(linked, validate).Some? ==>
      FirstAccepted(linked, validate).value in linked && validate(FirstAccepted(linked, validate).value).Accepted?
    ensures FirstAccepted(linked, validate).None? <==> forall p :: p in linked ==> !validate(p).Accepted?
  {
    if linked != [] {
      assert linked == [linked[0]] + linked[1..];
      FirstAcceptedIsAccepted(linked[1..], validate);
    }
  }

  /** The gate finds a proof exactly when some linked one is accepted. */
  lemma BestProofIff(proofs: seq<Proof>, tid: string, g: Graph, head: Commit)
    requires head in g
    ensures BestProof(proofs, tid, g, head).Some? <==> exists p :: p in proofs && tid in p.tickets && Validate(g, head, p).Accepted?
  {
    var linked := LinkedTo(proofs, tid);
    FirstAcceptedIsAccepted(linked, p => Validate(g, head, p));
    forall p ensures p in linked <==> p in proofs && tid in p.tickets {
      LinkedIff(proofs, tid, p);
    }
  }
}
