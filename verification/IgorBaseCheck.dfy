/**
 The inheritance check: does a class reach `IgorBase` through bases defined in
 the same file? A depth-first search with one visited set shared by all branches.
 */
module IgorBaseCheck {
  type Name = string

  // ---- Base names and the map of local classes ----

  /** The base-class expressions the audit tells apart. */
  datatype Expr = Ident(id: Name) | Attribute(value: Expr, attr: Name) | Subscript(of: Expr) | Other

  datatype ClassDef = ClassDef(name: Name, bases: seq<Expr>)

  type Parents = map<Name, seq<Name>>

  function BaseName(e: Expr): Name {
    match e
    case Ident(id) => id
    case Attribute(_, attr) => attr
    case Subscript(of) => BaseName(of)
    case Other => "?"
  }

  /** The expression as it is written, with every subscript's contents left out. */
  function Written(e: Expr): string {
    match e
    case Ident(id) => id
    case Attribute(value, attr) => Written(value) + "." + attr
    case Subscript(of) => Written(of) + "[]"
    case Other => "?"
  }

  function Brackets(n: nat): string {
    if n == 0 then "" else Brackets(n - 1) + "[]"
  }

  /** The base name is the last dotted name of the expression, whatever it is qualified or subscripted with. */
  lemma {:induction false} BaseNameIsLast(e: Expr) returns (owner: string, n: nat)
    ensures Written(e) == owner + BaseName(e) + Brackets(n)
    ensures owner == "" || owner[|owner| - 1] == '.'
  {
    match e
    case Ident(id) => owner, n := "", 0;
    case Attribute(value, attr) => owner, n := Written(value) + ".", 0;
    case Subscript(of) =>
      owner, n := BaseNameIsLast(of);
      assert Written(e) == owner + BaseName(of) + (Brackets(n) + "[]");
      n := n + 1;
    case Other => owner, n := "", 0;
  }

  function BaseNames(bases: seq<Expr>): seq<Name> {
    seq(|bases|, i requires 0 <= i < |bases| => BaseName(bases[i]))
  }

  /** `m` is what storing `vals[i]` under `keys[i]`, in order, leaves: the last value stored under a key is the one kept. */
  ghost predicate LastWins<K(!new), V>(keys: seq<K>, vals: seq<V>, m: map<K, V>)
    requires |keys| == |vals|
  {
    && (forall k :: k in m <==> k in keys)
    && (forall i :: 0 <= i < |keys| && IsLast(keys, i) ==> keys[i] in m && m[keys[i]] == vals[i])
  }

  ghost predicate IsLast<K>(keys: seq<K>, i: nat)
    requires i < |keys|
  {
    keys[i] !in keys[i + 1..]
  }

  lemma LastOneMore<K>(keys: seq<K>, k: K, i: nat)
    requires i < |keys| && IsLast(keys + [k], i)
    ensures IsLast(keys, i) && k != keys[i]
  {
    assert (keys + [k])[i + 1..] == keys[i + 1..] + [k];
  }

  lemma StoreOne<K(!new), V>(keys: seq<K>, vals: seq<V>, m: map<K, V>, k: K, v: V)
    requires |keys| == |vals| && LastWins(keys, vals, m)
    ensures LastWins(keys + [k], vals + [v], m[k := v])
  {
    var n := |keys|;
    forall i | 0 <= i < n + 1 && IsLast(keys + [k], i) ensures (keys + [k])[i] in m[k := v] && m[k := v][(keys + [k])[i]] == (vals + [v])[i] {
      if i < n {
        LastOneMore(keys, k, i);
      }
    }
  }

  function ClassNames(defs: seq<ClassDef>): seq<Name> {
    seq(|defs|, i requires 0 <= i < |defs| => defs[i].name)
  }

  function ClassBases(defs: seq<ClassDef>): seq<seq<Name>> {
    seq(|defs|, i requires 0 <= i < |defs| => BaseNames(defs[i].bases))
  }

  lemma ClassPrefix(defs: seq<ClassDef>, i: nat)
    requires i < |defs|
    ensures ClassNames(defs[..i + 1]) == ClassNames(defs[..i]) + [defs[i].name]
    ensures ClassBases(defs[..i + 1]) == ClassBases(defs[..i]) + [BaseNames(defs[i].bases)]
  {
  }

  /** `defs` are the file's class definitions in walk order, nested ones included. */
  method BuildLocalParents(defs: seq<ClassDef>) returns (parents: Parents)
    ensures LastWins(ClassNames(defs), ClassBases(defs), parents)
  {
    parents := map[];
    var i := 0;
    while i < |defs|
      invariant 0 <= i <= |defs| && LastWins(ClassNames(defs[..i]), ClassBases(defs[..i]), parents)
    {
      var names := BaseNames(defs[i].bases);
      StoreOne(ClassNames(defs[..i]), ClassBases(defs[..i]), parents, defs[i].name, names);
      ClassPrefix(defs, i);
      parents := parents[defs[i].name := names];
      i := i + 1;
    }
    assert defs[..i] == defs;
  }

  // ---- What the check means ----

  const IGOR_BASE: Name := "IgorBase"

  function Bases(parents: Parents, n: Name): seq<Name> {
    if n in parents then parents[n] else []
  }

  predicate Lists(parents: Parents, n: Name) {
    IGOR_BASE in Bases(parents, n)
  }

  ghost predicate Chain(parents: Parents, path: seq<Name>) {
    path != [] && forall i :: 0 <= i < |path| - 1 ==> path[i + 1] in Bases(parents, path[i])
  }

  ghost predicate Leads(parents: Parents, n: Name, path: seq<Name>) {
    Chain(parents, path) && path[0] == n && Lists(parents, path[|path| - 1])
  }

  /** Some chain of bases from `n` ends in a class that lists `IgorBase`. */
  ghost predicate Inherits(parents: Parents, n: Name) {
    exists path :: Leads(parents, n, path)
  }

  lemma InheritsDirectly(parents: Parents, n: Name)
    requires Lists(parents, n)
    ensures Inherits(parents, n)
  {
    assert Leads(parents, n, [n]);
  }

  lemma InheritsThrough(parents: Parents, n: Name, b: Name)
    requires b in Bases(parents, n) && Inherits(parents, b)
    ensures Inherits(parents, n)
  {
    var path :| Leads(parents, b, path);
    var longer := [n] + path;
    assert longer[|longer| - 1] == path[|path| - 1];
    forall i | 0 <= i < |longer| - 1 ensures longer[i + 1] in Bases(parents, longer[i]) {
      if i > 0 {
        assert longer[i] == path[i - 1];
      }
    }
    assert Leads(parents, n, longer);
  }

  /** Everything the search has finished with: no class in it lists `IgorBase`, and all their bases are in `seen`. */
  ghost predicate Exhausted(parents: Parents, done: set<Name>, seen: set<Name>) {
    forall n :: n in done ==> Cleared(parents, n, seen)
  }

  ghost predicate Cleared(parents: Parents, n: Name, seen: set<Name>) {
    !Lists(parents, n) && forall b :: b in Bases(parents, n) ==> b in seen
  }

  /** A set closed under bases in which nobody lists `IgorBase` has no member that inherits it. */
  lemma {:induction false} ExhaustedMeansNone(parents: Parents, seen: set<Name>, n: Name, path: seq<Name>)
    requires Exhausted(parents, seen, seen) && n in seen
    ensures !Leads(parents, n, path)
    decreases |path|
  {
    if Leads(parents, n, path) {
      assert Cleared(parents, n, seen);
      if |path| > 1 {
        assert path[0 + 1] in Bases(parents, path[0]);
        var rest := path[1..];
        assert rest[|rest| - 1] == path[|path| - 1];
        forall i | 0 <= i < |rest| - 1 ensures rest[i + 1] in Bases(parents, rest[i]) {
          assert path[(i + 1) + 1] in Bases(parents, path[i + 1]);
        }
        ExhaustedMeansNone(parents, seen, path[1], rest);
      }
    }
  }

  // ---- The search ----

  /** The visited set that every branch of one search shares and extends. */
  class Visited {
    var names: set<Name>

    constructor ()
      ensures names == {}
    {
      names := {};
    }
  }

  /**
   Terminates on every base graph, cyclic ones included. A hit is real; a miss leaves every newly visited class cleared,
   so no later branch can be misled by finding it in the set.
   */
  method Search(n: Name, parents: Parents, visited: Visited) returns (found: bool)
    modifies visited
    ensures old(visited.names) + {n} <= visited.names
    ensures found ==> Inherits(parents, n)
    ensures !found ==> Exhausted(parents, visited.names - old(visited.names), visited.names)
    decreases parents.Keys - visited.names
  {
    if n in visited.names {
      return false;
    }
    ghost var before := visited.names;
    visited.names := visited.names + {n};
    var bases := Bases(parents, n);
    if IGOR_BASE in bases {
      InheritsDirectly(parents, n);
      return true;
    }
    var i := 0;
    while i < |bases|
      invariant 0 <= i <= |bases|
      invariant before + {n} <= visited.names
      invariant forall j :: 0 <= j < i ==> bases[j] in visited.names
      invariant Exhausted(parents, visited.names - before - {n}, visited.names)
    {
      ghost var mid := visited.names;
      assert n in parents;
      var hit := Search(bases[i], parents, visited);
      if hit {
        InheritsThrough(parents, n, bases[i]);
        return true;
      }
      forall m | m in visited.names - before - {n} ensures Cleared(parents, m, visited.names) {
        assert m in visited.names - mid || m in mid - before - {n};
        assert m in mid - before - {n} ==> Cleared(parents, m, mid);
      }
      i := i + 1;
    }
    assert Cleared(parents, n, visited.names);
    return false;
  }

  /** The call the audit makes, with a new visited set: true exactly when the class inherits `IgorBase`. */
  method HasIgorBaseTransitively(n: Name, parents: Parents) returns (found: bool)
    ensures found <==> Inherits(parents, n)
  {
    var visited := new Visited();
    found := Search(n, parents, visited);
    if !found {
      var seen := visited.names;
      assert seen - {} == seen;
      forall path ensures !Leads(parents, n, path) {
        ExhaustedMeansNone(parents, seen, n, path);
      }
    }
  }

  /** A cycle is neither a trap nor a pass: classes that only inherit from each other do not inherit `IgorBase`. */
  lemma CyclesDoNotInherit(parents: Parents, ring: set<Name>, n: Name)
    requires n in ring && forall m :: m in ring ==> !Lists(parents, m) && forall b :: b in Bases(parents, m) ==> b in ring
    ensures !Inherits(parents, n)
  {
    forall path ensures !Leads(parents, n, path) {
      ExhaustedMeansNone(parents, ring, n, path);
    }
  }
}
