/**
 Credential-type inheritance: the ancestor list of packages/cli/src/credential-types.ts.

 `GetParentTypes` appends to the list it is iterating, so neither its termination nor
 its result is visible from its body. The specification is the list's own equation
 (`parents == Extends + Appended(parents)`), solved level by level.
 */
module CredentialTypes {
  import opened Prelude

  type TypeName = string

  /** `knownCredentials[t].extends`, per known type. */
  type Known = map<TypeName, seq<TypeName>>

  function Extends(known: Known, t: TypeName): seq<TypeName> {
    if t in known then known[t] else []
  }

  /** A walk along `extends` links, from descendant to ancestor. */
  ghost predicate IsPath(known: Known, p: seq<TypeName>) {
    && |p| >= 2
    && forall i :: 0 <= i < |p| - 1 ==> p[i + 1] in Extends(known, p[i])
  }

  ghost predicate StrictAncestor(known: Known, a: TypeName, t: TypeName) {
    exists p :: IsPath(known, p) && p[0] == t && p[|p| - 1] == a
  }

  ghost predicate Acyclic(known: Known) {
    forall t :: !StrictAncestor(known, t, t)
  }

  ghost predicate SingleParent(known: Known) {
    forall t :: |Extends(known, t)| <= 1
  }

  function Mentioned(known: Known): set<TypeName> {
    set t, i | t in known && 0 <= i < |known[t]| :: known[t][i]
  }

  ghost function Ancestors(known: Known, t: TypeName): set<TypeName> {
    set a | a in Mentioned(known) && StrictAncestor(known, a, t)
  }

  /** The termination measure of everything below: how many ancestors a type has. */
  ghost function Rank(known: Known, t: TypeName): nat {
    |Ancestors(known, t)|
  }

  lemma ParentIsAncestor(known: Known, p: TypeName, t: TypeName)
    requires p in Extends(known, t)
    ensures StrictAncestor(known, p, t)
  {
    assert IsPath(known, [t, p]);
  }

  lemma AncestorTransitive(known: Known, a: TypeName, b: TypeName, c: TypeName)
    requires StrictAncestor(known, a, b) && StrictAncestor(known, b, c)
    ensures StrictAncestor(known, a, c)
  {
    var p :| IsPath(known, p) && p[0] == b && p[|p| - 1] == a;
    var q :| IsPath(known, q) && q[0] == c && q[|q| - 1] == b;
    var r := q + p[1..];
    forall i | 0 <= i < |r| - 1
      ensures r[i + 1] in Extends(known, r[i])
    {
      if i >= |q| - 1 {
        assert r[i] == p[i - |q| + 1] && r[i + 1] == p[i - |q| + 2];
      }
    }
    assert IsPath(known, r) && r[|r| - 1] == a;
  }

  lemma AncestorIsMentioned(known: Known, a: TypeName, t: TypeName)
    requires StrictAncestor(known, a, t)
    ensures a in Mentioned(known)
  {
    var p :| IsPath(known, p) && p[0] == t && p[|p| - 1] == a;
    var child := p[|p| - 2];
    assert p[|p| - 2 + 1] in Extends(known, child);
    var i :| 0 <= i < |known[child]| && known[child][i] == a;
  }

  /** Ancestors have strictly smaller rank: this is where acyclicity is used. */
  lemma AncestorRank(known: Known, a: TypeName, t: TypeName)
    requires Acyclic(known) && StrictAncestor(known, a, t)
    ensures Rank(known, a) < Rank(known, t)
  {
    var A, T := Ancestors(known, a), Ancestors(known, t);
    forall b | b in A ensures b in T { AncestorTransitive(known, b, a, t); }
    AncestorIsMentioned(known, a, t);
    assert a in T && a !in A;
    assert A + {a} <= T;
    SubsetSize(A + {a}, T);
  }

  lemma ParentsRank(known: Known, t: TypeName)
    requires Acyclic(known)
    ensures forall p :: p in Extends(known, t) ==> Rank(known, p) < Rank(known, t)
  {
    forall p | p in Extends(known, t) ensures Rank(known, p) < Rank(known, t) {
      ParentIsAncestor(known, p, t);
      AncestorRank(known, p, t);
    }
  }

  ghost predicate RanksBelow(known: Known, q: seq<TypeName>, r: nat) {
    forall x :: x in q ==> Rank(known, x) < r
  }

  /** The list `getParentTypes` returns. */
  ghost function ParentList(known: Known, t: TypeName): (parents: seq<TypeName>)
    requires Acyclic(known)
    ensures RanksBelow(known, parents, Rank(known, t))
    decreases Rank(known, t), 2
  {
    ParentsRank(known, t);
    Levels(known, Extends(known, t), Rank(known, t))
  }

  /** `q`, then everything `q` appends, then everything that appends, and so on. */
  ghost function Levels(known: Known, q: seq<TypeName>, r: nat): (l: seq<TypeName>)
    requires Acyclic(known) && RanksBelow(known, q, r)
    ensures RanksBelow(known, l, r)
    decreases r, 1
  {
    if r == 0 then [] else q + Levels(known, Appended(known, q, r), r - 1)
  }

  /** What one pass over `q` appends. */
  ghost function Appended(known: Known, q: seq<TypeName>, r: nat): (l: seq<TypeName>)
    requires Acyclic(known) && RanksBelow(known, q, r)
    ensures r > 0 ==> RanksBelow(known, l, r - 1)
    decreases r, 0, |q|
  {
    if q == [] then []
    else
      assert q[0] in q;
      assert forall x :: x in q[1..] ==> x in q;
      ParentList(known, q[0]) + Appended(known, q[1..], r)
  }

  lemma {:induction false} AppendedConcat(known: Known, p: seq<TypeName>, q: seq<TypeName>, r: nat)
    requires Acyclic(known) && RanksBelow(known, p, r) && RanksBelow(known, q, r)
    requires RanksBelow(known, p + q, r)
    ensures Appended(known, p + q, r) == Appended(known, p, r) + Appended(known, q, r)
    decreases |p|
  {
    if p == [] {
      assert p + q == q;
    } else {
      assert (p + q)[1..] == p[1..] + q;
      assert forall x :: x in p[1..] ==> x in p;
      assert forall x :: x in p[1..] + q ==> x in p + q;
      AppendedConcat(known, p[1..], q, r);
    }
  }

  lemma {:induction false} AppendedBound(known: Known, q: seq<TypeName>, r: nat, s: nat)
    requires Acyclic(known) && RanksBelow(known, q, r) && RanksBelow(known, q, s)
    ensures Appended(known, q, r) == Appended(known, q, s)
    decreases |q|
  {
    if q != [] {
      assert forall x :: x in q[1..] ==> x in q;
      AppendedBound(known, q[1..], r, s);
    }
  }

  lemma HeadIsIn<T>(q: seq<T>)
    requires q != []
    ensures exists x :: x in q
  {
    assert q[0] in q;
  }

  lemma NoneBelowZero(known: Known, q: seq<TypeName>)
    requires RanksBelow(known, q, 0)
    ensures q == []
  {
    if q != [] { HeadIsIn(q); }
  }

  /** The list solves its own equation ... */
  lemma {:induction false} LevelsSolve(known: Known, q: seq<TypeName>, r: nat)
    requires Acyclic(known) && RanksBelow(known, q, r)
    ensures var l := Levels(known, q, r); l == q + Appended(known, l, r)
    decreases r
  {
    if r == 0 {
      NoneBelowZero(known, q);
    } else {
      var a := Appended(known, q, r);
      var rest := Levels(known, a, r - 1);
      LevelsSolve(known, a, r - 1);
      LevelsStep(known, q, rest, r);
    }
  }

  lemma LevelsStep(known: Known, q: seq<TypeName>, rest: seq<TypeName>, r: nat)
    requires Acyclic(known) && r > 0 && RanksBelow(known, q, r) && RanksBelow(known, rest, r - 1)
    requires rest == Appended(known, q, r) + Appended(known, rest, r - 1)
    ensures RanksBelow(known, q + rest, r)
    ensures q + rest == q + Appended(known, q + rest, r)
  {
    assert RanksBelow(known, rest, r) && RanksBelow(known, q + rest, r);
    AppendedBound(known, rest, r - 1, r);
    AppendedConcat(known, q, rest, r);
  }

  /** ... and nothing else does, so a loop that maintains the equation computes it. */
  lemma {:induction false} LevelsUnique(known: Known, q: seq<TypeName>, l: seq<TypeName>, r: nat)
    requires Acyclic(known) && RanksBelow(known, q, r) && RanksBelow(known, l, r)
    requires l == q + Appended(known, l, r)
    ensures l == Levels(known, q, r)
    decreases r
  {
    if r == 0 {
      NoneBelowZero(known, l);
    } else {
      var rest := l[|q|..];
      assert l == q + rest && rest == Appended(known, l, r);
      assert forall x :: x in rest ==> x in l;
      AppendedConcat(known, q, rest, r);
      AppendedBound(known, rest, r, r - 1);
      LevelsUnique(known, Appended(known, q, r), rest, r - 1);
    }
  }

  lemma {:induction false} AppendedContains(known: Known, q: seq<TypeName>, r: nat, x: TypeName)
    requires Acyclic(known) && RanksBelow(known, q, r) && x in q
    ensures forall a :: a in ParentList(known, x) ==> a in Appended(known, q, r)
    decreases |q|
  {
    assert forall y :: y in q[1..] ==> y in q;
    if x != q[0] { AppendedContains(known, q[1..], r, x); }
  }

  lemma {:induction false} AppendedOrigin(known: Known, q: seq<TypeName>, r: nat, a: TypeName)
    requires Acyclic(known) && RanksBelow(known, q, r) && a in Appended(known, q, r)
    ensures exists x :: x in q && Rank(known, x) < r && a in ParentList(known, x)
    decreases |q|
  {
    assert forall y :: y in q[1..] ==> y in q;
    assert q[0] in q;
    if a !in ParentList(known, q[0]) { AppendedOrigin(known, q[1..], r, a); }
  }

  /** The elements of the list are exactly the strict ancestors. */
  lemma {:induction false} ParentListIsAncestors(known: Known, t: TypeName, a: TypeName)
    requires Acyclic(known)
    ensures a in ParentList(known, t) <==> StrictAncestor(known, a, t)
  {
    if a in ParentList(known, t) {
      forall p | p in Extends(known, t) ensures StrictAncestor(known, p, t) { ParentIsAncestor(known, p, t); }
      ParentsRank(known, t);
      LevelsAreAncestors(known, t, Extends(known, t), Rank(known, t), a);
    }
    if StrictAncestor(known, a, t) {
      var p :| IsPath(known, p) && p[0] == t && p[|p| - 1] == a;
      PathEndsInList(known, p);
    }
  }

  lemma {:induction false} LevelsAreAncestors(known: Known, t: TypeName, q: seq<TypeName>, r: nat, a: TypeName)
    requires Acyclic(known) && RanksBelow(known, q, r)
    requires r <= Rank(known, t)
    requires forall x :: x in q ==> StrictAncestor(known, x, t)
    requires a in Levels(known, q, r)
    ensures StrictAncestor(known, a, t)
    decreases r, 1
  {
    if a !in q {
      var next := Appended(known, q, r);
      forall b | b in next ensures StrictAncestor(known, b, t) {
        AppendedOrigin(known, q, r, b);
        var x :| x in q && Rank(known, x) < r && b in ParentList(known, x);
        ParentsRank(known, x);
        forall y | y in Extends(known, x) ensures StrictAncestor(known, y, x) { ParentIsAncestor(known, y, x); }
        LevelsAreAncestors(known, x, Extends(known, x), Rank(known, x), b);
        AncestorTransitive(known, b, x, t);
      }
      LevelsAreAncestors(known, t, next, r - 1, a);
    }
  }

  lemma {:induction false} PathEndsInList(known: Known, p: seq<TypeName>)
    requires Acyclic(known) && IsPath(known, p)
    ensures p[|p| - 1] in ParentList(known, p[0])
    decreases |p|
  {
    var t, l := p[0], ParentList(known, p[0]);
    ParentsRank(known, t);
    LevelsSolve(known, Extends(known, t), Rank(known, t));
    assert p[0 + 1] in Extends(known, p[0]);
    if |p| > 2 {
      forall i | 0 <= i < |p[1..]| - 1 ensures p[1..][i + 1] in Extends(known, p[1..][i]) {
        assert p[(i + 1) + 1] in Extends(known, p[i + 1]);
      }
      PathEndsInList(known, p[1..]);
      AppendedContains(known, l, Rank(known, t), p[1]);
    }
  }

  /** The single line of ancestors, nearest first. */
  ghost function Chain(known: Known, t: TypeName): (chain: seq<TypeName>)
    requires Acyclic(known)
    decreases Rank(known, t)
  {
    ParentsRank(known, t);
    var ps := Extends(known, t);
    if ps == [] then [] else [ps[0]] + Chain(known, ps[0])
  }

  /** On a chain the list starts with the ancestors nearest first ... */
  lemma {:induction false} ChainIsPrefix(known: Known, t: TypeName)
    requires Acyclic(known) && SingleParent(known)
    ensures Chain(known, t) <= ParentList(known, t)
    decreases Rank(known, t)
  {
    ParentsRank(known, t);
    var ps, l, r := Extends(known, t), ParentList(known, t), Rank(known, t);
    LevelsSolve(known, ps, r);
    if ps != [] {
      ChainIsPrefix(known, ps[0]);
      assert l[0] == ps[0];
      assert Appended(known, l, r) == ParentList(known, l[0]) + Appended(known, l[1..], r);
    }
  }

  /** ... and everything after them is a repeat. */
  lemma {:induction false} RestRepeatsChain(known: Known, t: TypeName, a: TypeName)
    requires Acyclic(known) && SingleParent(known) && a in ParentList(known, t)
    ensures a in Chain(known, t)
    decreases Rank(known, t)
  {
    ParentListIsAncestors(known, t, a);
    var p :| IsPath(known, p) && p[0] == t && p[|p| - 1] == a;
    assert p[0 + 1] in Extends(known, p[0]);
    var parent := Extends(known, t)[0];
    ParentsRank(known, t);
    if a != parent {
      forall i | 0 <= i < |p[1..]| - 1 ensures p[1..][i + 1] in Extends(known, p[1..][i]) {
        assert p[(i + 1) + 1] in Extends(known, p[i + 1]);
      }
      assert IsPath(known, p[1..]);
      ParentListIsAncestors(known, parent, a);
      RestRepeatsChain(known, parent, a);
    }
  }

  ghost predicate Ranked(known: Known, rank: TypeName -> nat) {
    forall t, p :: p in Extends(known, t) ==> rank(p) < rank(t)
  }

  /** Acyclicity is exactly the existence of a ranking that falls along every link. */
  lemma AcyclicIffRanked(known: Known)
    ensures Acyclic(known) <==> exists rank: TypeName -> nat :: Ranked(known, rank)
  {
    if Acyclic(known) {
      var rank: TypeName -> nat := t => Rank(known, t);
      forall t, p | p in Extends(known, t) ensures rank(p) < rank(t) { ParentsRank(known, t); }
      assert Ranked(known, rank);
    }
    if rank: TypeName -> nat :| Ranked(known, rank) { RankedIsAcyclic(known, rank); }
  }

  lemma RankedIsAcyclic(known: Known, rank: TypeName -> nat)
    requires Ranked(known, rank)
    ensures Acyclic(known)
  {
    forall t ensures !StrictAncestor(known, t, t) {
      if p :| IsPath(known, p) && p[0] == t && p[|p| - 1] == t { RankFallsAlongPath(known, rank, p); }
    }
  }

  lemma {:induction false} RankFallsAlongPath(known: Known, rank: TypeName -> nat, p: seq<TypeName>)
    requires Ranked(known, rank) && IsPath(known, p)
    ensures rank(p[|p| - 1]) < rank(p[0])
    decreases |p|
  {
    assert p[0 + 1] in Extends(known, p[0]);
    if |p| > 2 {
      forall i | 0 <= i < |p[1..]| - 1 ensures p[1..][i + 1] in Extends(known, p[1..][i]) {
        assert p[(i + 1) + 1] in Extends(known, p[i + 1]);
      }
      RankFallsAlongPath(known, rank, p[1..]);
    }
  }

  /**
   The loop of `getParentTypes` at index `i` of the growing list `l`: what was appended
   so far is what the visited part appends, the types before `levelEnd` rank below
   `bound`, and everything they appended ranks lower still.
   */
  ghost predicate Growing(known: Known, start: seq<TypeName>, top: nat,
                          l: seq<TypeName>, i: nat, bound: nat, levelEnd: nat)
    requires Acyclic(known)
  {
    && i <= levelEnd <= |l| && bound <= top
    && RanksBelow(known, l, top) && RanksBelow(known, l[..i], top)
    && l == start + Appended(known, l[..i], top)
    && RanksBelow(known, l[i..levelEnd], bound)
    && RanksBelow(known, l[levelEnd..], if bound == 0 then 0 else bound - 1)
  }

  /** Reaching the end of a level lowers the bound. */
  lemma NextLevel(known: Known, start: seq<TypeName>, top: nat, l: seq<TypeName>, i: nat, bound: nat)
    requires Acyclic(known) && Growing(known, start, top, l, i, bound, i) && i < |l|
    ensures bound > 0 && Growing(known, start, top, l, i, bound - 1, |l|)
  {
    assert l[i] in l[i..];
    assert l[i..|l|] == l[i..];
  }

  /** The visited part, and what it has appended, after one more visit. */
  lemma VisitAppends(known: Known, start: seq<TypeName>, top: nat, l: seq<TypeName>, i: nat)
    requires Acyclic(known) && i < |l| && RanksBelow(known, l, top) && RanksBelow(known, l[..i], top)
    requires l == start + Appended(known, l[..i], top)
    ensures var l' := l + ParentList(known, l[i]);
            && RanksBelow(known, l', top) && RanksBelow(known, l'[..i + 1], top)
            && l' == start + Appended(known, l'[..i + 1], top)
  {
    hide Levels, ParentList;
    var x, more := l[i], ParentList(known, l[i]);
    assert x in l;
    assert (l + more)[..i + 1] == l[..i] + [x];
    AppendedOne(known, x, top);
    RanksBelowConcat(known, l, more, top);
    RanksBelowConcat(known, l[..i], [x], top);
    AppendedConcat(known, l[..i], [x], top);
    assert l + more == start + (Appended(known, l[..i], top) + more);
  }

  lemma RanksBelowConcat(known: Known, p: seq<TypeName>, q: seq<TypeName>, r: nat)
    requires RanksBelow(known, p, r) && RanksBelow(known, q, r)
    ensures RanksBelow(known, p + q, r)
  {
    forall x | x in p + q ensures Rank(known, x) < r { assert x in p || x in q; }
  }

  /** Visiting one type appends its own ancestor list. */
  lemma Visit(known: Known, start: seq<TypeName>, top: nat, l: seq<TypeName>, i: nat, bound: nat, levelEnd: nat)
    requires Acyclic(known) && Growing(known, start, top, l, i, bound, levelEnd) && i < levelEnd
    ensures Rank(known, l[i]) < bound
    ensures Growing(known, start, top, l + ParentList(known, l[i]), i + 1, bound, levelEnd)
  {
    hide Appended, Levels;
    var x, more := l[i], ParentList(known, l[i]);
    assert x == l[i..levelEnd][0] && x in l[i..levelEnd];
    VisitAppends(known, start, top, l, i);
    var l' := l + more;
    assert l'[i + 1..levelEnd] == l[i..levelEnd][1..];
    forall y | y in l'[i + 1..levelEnd] ensures Rank(known, y) < bound { assert y in l[i..levelEnd]; }
    assert l'[levelEnd..] == l[levelEnd..] + more;
    forall y | y in l'[levelEnd..] ensures Rank(known, y) < bound - 1 { assert y in l[levelEnd..] || y in more; }
  }

  lemma AppendedOne(known: Known, x: TypeName, r: nat)
    requires Acyclic(known) && Rank(known, x) < r
    ensures RanksBelow(known, [x], r) && Appended(known, [x], r) == ParentList(known, x)
  {
    assert [x][1..] == [];
  }

  /** packages/cli/src/credential-types.ts: the service and its growing list. */
  class CredentialTypesService {
    const knownCredentials: Known

    constructor (known: Known)
      ensures knownCredentials == known
    {
      knownCredentials := known;
    }

    method GetParentTypes(typeName: TypeName) returns (parents: seq<TypeName>)
      requires Acyclic(knownCredentials)
      ensures parents == ParentList(knownCredentials, typeName)
      decreases Rank(knownCredentials, typeName)
    {
      var extendsArr := Extends(knownCredentials, typeName);
      ParentsRank(knownCredentials, typeName);
      if |extendsArr| == 0 {
        LevelsUnique(knownCredentials, extendsArr, [], Rank(knownCredentials, typeName));
        return [];
      }
      var i := 0;
      parents := extendsArr;
      ghost var top := Rank(knownCredentials, typeName);
      ghost var bound, levelEnd := top, |parents|;
      assert parents[0..|parents|] == parents;
      while i < |parents|
        invariant 0 <= i <= levelEnd
        invariant Growing(knownCredentials, extendsArr, top, parents, i, bound, levelEnd)
        decreases bound, levelEnd - i
      {
        if i == levelEnd {
          NextLevel(knownCredentials, extendsArr, top, parents, i, bound);
          bound, levelEnd := bound - 1, |parents|;
        }
        Visit(knownCredentials, extendsArr, top, parents, i, bound, levelEnd);
        var more := GetParentTypes(parents[i]);
        parents := parents + more;
        i := i + 1;
      }
      assert parents[..i] == parents;
      LevelsUnique(knownCredentials, extendsArr, parents, top);
    }
  }
}
