/**
 Credential overwrites: packages/cli/src/credentials-overwrites.ts.

 `SetPlainData` resolves inheritance once, through a memo that marks a type resolved
 without storing what it resolved to; `Get` resolves it again from the stored data.
 The reference is `Nearest`: the value given by the nearest ancestor-or-self that the
 configured data itself defines.
 */
module CredentialsOverwrites {
  import opened Prelude
  import opened CredentialTypes

  /**
   A credential field. Equality models `===`: objects are equal when they are the same
   object, told apart by `ref`. A `Builtin` is what `Object.prototype` answers for that name.
   */
  datatype Value =
    | Null
    | Text(text: string)
    | Number(number: int)
    | Flag(flag: bool)
    | Object(ref: nat, body: string)
    | Builtin(prop: string)

  type Fields = map<string, Value>
  type Overwrites = map<TypeName, Fields>

  /** `known` serves `getParentTypes`; `declared` is each recognised type's own `extends`. */
  datatype Types = Types(known: Known, declared: map<TypeName, Option<seq<TypeName>>>)

  /** Both sources of `extends` agree, and an unrecognised type extends nothing. */
  ghost predicate Consistent(types: Types) {
    forall t :: Extends(types.known, t) ==
                if t in types.declared then types.declared[t].GetOr([]) else []
  }

  /** What the service needs to terminate. */
  ghost predicate WellFormed(types: Types) {
    Consistent(types) && Acyclic(types.known)
  }

  lemma DeclaredRank(types: Types, t: TypeName)
    requires WellFormed(types) && t in types.declared && types.declared[t].Some?
    ensures forall p :: p in types.declared[t].value ==> Rank(types.known, p) < Rank(types.known, t)
  {
    ParentsRank(types.known, t);
    assert Extends(types.known, t) == types.declared[t].value;
  }

  // ----- getOverwrites and setPlainData -----

  /** Assigning this one name sets an object's prototype instead of a field. */
  const PROTO := "__proto__"

  /** `Object.assign(acc, o)`; absent sources are ignored. */
  function Assign(acc: Fields, o: Option<Fields>): Fields {
    acc + (o.GetOr(map[]) - {PROTO})
  }

  lemma AssignPlain(acc: Fields, o: Fields)
    requires PROTO !in o
    ensures Assign(acc, Some(o)) == acc + o
    ensures acc == map[] ==> Assign(acc, Some(o)) == o
  {
    assert o - {PROTO} == o;
  }

  /** `getOverwrites`: its answer, and the memo afterwards. */
  ghost function Resolve(types: Types, data: Overwrites, resolved: seq<TypeName>, t: TypeName)
    : (Option<Fields>, seq<TypeName>)
    requires WellFormed(types)
    decreases Rank(types.known, t), 1
  {
    if t in resolved then (Lookup(data, t), resolved)
    else if t !in types.declared then (None, resolved)
    else if types.declared[t].None? then (Lookup(data, t), resolved + [t])
    else
      DeclaredRank(types, t);
      var (inherited, resolved') := ResolveParents(types, data, resolved, t, types.declared[t].value);
      (Some(Assign(inherited, Lookup(data, t))), resolved' + [t])
  }

  ghost function ResolveParents(types: Types, data: Overwrites, resolved: seq<TypeName>, t: TypeName,
                                parents: seq<TypeName>)
    : (Fields, seq<TypeName>)
    requires WellFormed(types)
    requires forall p :: p in parents ==> Rank(types.known, p) < Rank(types.known, t)
    decreases Rank(types.known, t), 0, |parents|
  {
    if parents == [] then (map[], resolved)
    else
      var last := parents[|parents| - 1];
      var (acc, resolved') := ResolveParents(types, data, resolved, t, parents[..|parents| - 1]);
      assert last in parents;
      var (o, resolved'') := Resolve(types, data, resolved', last);
      (Assign(acc, o), resolved'')
  }

  /** The service's two fields after `setPlainData(configured)`, keys visited in `order`. */
  ghost function Load(types: Types, configured: Overwrites, order: seq<TypeName>): (Overwrites, seq<TypeName>)
    requires WellFormed(types)
  {
    if order == [] then (configured, [])
    else
      var t := order[|order| - 1];
      var (data, resolved) := Load(types, configured, order[..|order| - 1]);
      var (o, resolved') := Resolve(types, data, resolved, t);
      (if o.Some? && o.value != map[] then data[t := o.value] else data, resolved')
  }

  // ----- get -----

  /** The stored overwrites of the listed types that have any, last listed first. */
  function EntriesReversed(data: Overwrites, types: seq<TypeName>): seq<Fields> {
    if types == [] then []
    else EntriesReversed(data, types[1..]) + (if types[0] in data then [data[types[0]]] else [])
  }

  function AssignAll(entries: seq<Fields>): Fields {
    if entries == [] then map[]
    else Assign(AssignAll(entries[..|entries| - 1]), Some(entries[|entries| - 1]))
  }

  ghost function Get(types: Types, data: Overwrites, name: TypeName): Option<Fields>
    requires WellFormed(types)
  {
    var entries := EntriesReversed(data, [name] + ParentList(types.known, name));
    if entries == [] then None else Some(AssignAll(entries))
  }

  /** The reference: the configured value of the nearest ancestor-or-self. */
  ghost function Nearest(types: Types, configured: Overwrites, t: TypeName, key: string): Option<Value>
    requires WellFormed(types)
    decreases Rank(types.known, t)
  {
    ParentsRank(types.known, t);
    var parents := Extends(types.known, t);
    if t in configured && key in configured[t] then Some(configured[t][key])
    else if parents == [] then None
    else Nearest(types, configured, parents[0], key)
  }

  /** `fields` never contradicts the reference for `t`. */
  ghost predicate Sound(types: Types, configured: Overwrites, t: TypeName, fields: Fields)
    requires WellFormed(types)
  {
    forall key :: key in fields ==> Nearest(types, configured, t, key) == Some(fields[key])
  }

  /** Between the configured data and its full resolution: all the memo guarantees. */
  ghost predicate Between(types: Types, configured: Overwrites, data: Overwrites)
    requires WellFormed(types)
  {
    && data.Keys == configured.Keys
    && forall t :: t in data ==> configured[t].Keys - {PROTO} <= data[t].Keys && Sound(types, configured, t, data[t])
  }

  lemma ResolveOneParent(types: Types, data: Overwrites, resolved: seq<TypeName>, t: TypeName, p: TypeName)
    requires WellFormed(types) && t in types.declared && types.declared[t] == Some([p]) && t !in resolved
    ensures var (o, resolved') := Resolve(types, data, resolved, p);
            Resolve(types, data, resolved, t) == (Some(Assign(Assign(map[], o), Lookup(data, t))), resolved' + [t])
  {
    DeclaredRank(types, t);
    assert [p][..0] == [];
    assert p in [p];
    assert ResolveParents(types, data, resolved, t, [p]) ==
      (Assign(map[], Resolve(types, data, resolved, p).0), Resolve(types, data, resolved, p).1);
  }

  /** A memo in any state, however truncated its answers, never yields a wrong value. */
  lemma {:induction false} ResolveIsSound(types: Types, configured: Overwrites, data: Overwrites,
                                          resolved: seq<TypeName>, t: TypeName)
    requires WellFormed(types) && SingleParent(types.known) && Between(types, configured, data)
    ensures var o := Resolve(types, data, resolved, t).0;
            o.Some? ==> Sound(types, configured, t, o.value) && (t in data ==> data[t].Keys - {PROTO} <= o.value.Keys)
    decreases Rank(types.known, t)
  {
    if t !in resolved && t in types.declared && types.declared[t].Some? {
      DeclaredRank(types, t);
      var parents := types.declared[t].value;
      assert Extends(types.known, t) == parents;
      if parents != [] {
        var p := parents[0];
        assert parents == [p];
        ResolveIsSound(types, configured, data, resolved, p);
        ResolveOneParent(types, data, resolved, t, p);
        var inherited := Assign(map[], Resolve(types, data, resolved, p).0);
        forall key | key in Assign(inherited, Lookup(data, t))
          ensures Nearest(types, configured, t, key) == Some(Assign(inherited, Lookup(data, t))[key])
        {
          if t !in data || key !in data[t] {
            assert key in inherited && Nearest(types, configured, p, key) == Some(inherited[key]);
          }
        }
      }
    }
  }

  lemma {:induction false} LoadIsBetween(types: Types, configured: Overwrites, order: seq<TypeName>)
    requires WellFormed(types) && SingleParent(types.known)
    requires forall t :: t in order ==> t in configured
    ensures Between(types, configured, Load(types, configured, order).0)
  {
    if order == [] {
      forall t, key | t in configured && key in configured[t]
        ensures Nearest(types, configured, t, key) == Some(configured[t][key])
      {
      }
    } else {
      var t := order[|order| - 1];
      assert t in order;
      LoadIsBetween(types, configured, order[..|order| - 1]);
      var (data, resolved) := Load(types, configured, order[..|order| - 1]);
      ResolveIsSound(types, configured, data, resolved, t);
    }
  }

  /** The value `types` gives to `key`, scanning from the front. */
  function FirstOccurrence(data: Overwrites, types: seq<TypeName>, key: string): Option<Value> {
    if types == [] then None
    else if types[0] in data && key in data[types[0]] then Some(data[types[0]][key])
    else FirstOccurrence(data, types[1..], key)
  }

  /** The reversed `Object.assign` fold is "first occurrence wins", repeats included. */
  lemma {:induction false} FoldIsFirstOccurrence(data: Overwrites, types: seq<TypeName>, key: string)
    ensures Lookup(AssignAll(EntriesReversed(data, types)), key) ==
            if key == PROTO then None else FirstOccurrence(data, types, key)
  {
    if types != [] {
      FoldIsFirstOccurrence(data, types[1..], key);
      var rest := EntriesReversed(data, types[1..]);
      if types[0] in data {
        assert (rest + [data[types[0]]])[..|rest|] == rest;
      } else {
        assert rest + [] == rest;
      }
    }
  }

  lemma {:induction false} RepeatsAddNothing(data: Overwrites, front: seq<TypeName>, rest: seq<TypeName>, key: string)
    requires forall t :: t in rest ==> t in front || FirstOccurrence(data, [t], key).None?
    ensures FirstOccurrence(data, front + rest, key) == FirstOccurrence(data, front, key)
  {
    if front == [] {
      if rest != [] {
        assert rest[0] in rest;
        assert [rest[0]][1..] == [];
        RepeatsAddNothing(data, [], rest[1..], key);
        assert [] + rest == rest && [] + rest[1..] == rest[1..];
      }
    } else {
      assert (front + rest)[1..] == front[1..] + rest;
      if !(front[0] in data && key in data[front[0]]) {
        forall t | t in rest ensures t in front[1..] || FirstOccurrence(data, [t], key).None? {
          assert [t][1..] == [];
          assert t in front ==> t == front[0] || t in front[1..];
        }
        RepeatsAddNothing(data, front[1..], rest, key);
      }
    }
  }

  /** Along a chain, scanning data that lies between configured and resolved finds the reference. */
  lemma {:induction false} ChainFindsNearest(types: Types, configured: Overwrites, data: Overwrites, t: TypeName,
                                             key: string)
    requires WellFormed(types) && SingleParent(types.known) && Between(types, configured, data) && key != PROTO
    ensures FirstOccurrence(data, [t] + Chain(types.known, t), key) == Nearest(types, configured, t, key)
    decreases Rank(types.known, t)
  {
    ParentsRank(types.known, t);
    var parents, chain := Extends(types.known, t), Chain(types.known, t);
    assert ([t] + chain)[1..] == chain;
    if !(t in data && key in data[t]) && parents != [] {
      ChainFindsNearest(types, configured, data, parents[0], key);
    }
  }

  /**
   Overwrite resolution is memo- and order-transparent: whatever order the keys were
   visited in, `get(t)` gives each key its nearest configured value, and is absent exactly
   when no ancestor-or-self is configured.
   */
  lemma {:induction false} GetIsNearest(types: Types, configured: Overwrites, order: seq<TypeName>, t: TypeName)
    requires WellFormed(types) && SingleParent(types.known)
    requires forall u :: u in order ==> u in configured
    ensures var got := Get(types, Load(types, configured, order).0, t);
            && (got.Some? <==> t in configured || exists a :: a in configured && StrictAncestor(types.known, a, t))
            && forall key :: Lookup(got.GetOr(map[]), key) ==
                                if key == PROTO then None else Nearest(types, configured, t, key)
  {
    LoadIsBetween(types, configured, order);
    var data, parents, chain := Load(types, configured, order).0, ParentList(types.known, t), Chain(types.known, t);
    var all := [t] + parents;
    ChainIsPrefix(types.known, t);
    var rest := parents[|chain|..];
    assert all == ([t] + chain) + rest;
    forall key
      ensures Lookup(AssignAll(EntriesReversed(data, all)), key) ==
              if key == PROTO then None else Nearest(types, configured, t, key)
    {
      FoldIsFirstOccurrence(data, all, key);
      forall a | a in rest ensures a in [t] + chain {
        assert a in parents;
        RestRepeatsChain(types.known, t, a);
      }
      RepeatsAddNothing(data, [t] + chain, rest, key);
      if key != PROTO { ChainFindsNearest(types, configured, data, t, key); }
    }
    EntriesPresent(data, all);
    forall a ensures a in all <==> a == t || StrictAncestor(types.known, a, t) {
      ParentListIsAncestors(types.known, t, a);
    }
  }

  lemma LoadNothing(types: Types, data: Overwrites)
    requires WellFormed(types) && SingleParent(types.known)
    ensures Load(types, data, []).0 == data && Between(types, data, data)
  {
    LoadIsBetween(types, data, []);
  }

  /** Stored data resolves to the same values as what it was loaded from. */
  lemma StoredKeepsNearest(types: Types, configured: Overwrites, order: seq<TypeName>, t: TypeName, key: string)
    requires WellFormed(types) && SingleParent(types.known) && key != PROTO
    requires forall u :: u in order ==> u in configured
    ensures Nearest(types, Load(types, configured, order).0, t, key) == Nearest(types, configured, t, key)
  {
    var data := Load(types, configured, order).0;
    LoadIsBetween(types, configured, order);
    LoadNothing(types, data);
    ChainFindsNearest(types, configured, data, t, key);
    ChainFindsNearest(types, data, data, t, key);
  }

  /**
   `setData` persists what it has just resolved. Loading that again, in any order, leaves
   every answer of `get` as it was.
   */
  lemma ReloadKeepsGet(types: Types, configured: Overwrites, order: seq<TypeName>, order': seq<TypeName>, t: TypeName)
    requires WellFormed(types) && SingleParent(types.known)
    requires (forall u :: u in order ==> u in configured) && (forall u :: u in order' ==> u in configured)
    ensures var stored := Load(types, configured, order).0;
            Get(types, Load(types, stored, order').0, t) == Get(types, stored, t)
  {
    var stored := Load(types, configured, order).0;
    LoadIsBetween(types, configured, order);
    GetIsNearest(types, configured, order, t);
    GetIsNearest(types, stored, order', t);
    var before, after := Get(types, stored, t), Get(types, Load(types, stored, order').0, t);
    forall key ensures Lookup(after.GetOr(map[]), key) == Lookup(before.GetOr(map[]), key) {
      if key != PROTO { StoredKeepsNearest(types, configured, order, t, key); }
    }
    SameLookups(after.GetOr(map[]), before.GetOr(map[]));
  }

  lemma {:induction false} EntriesPresent(data: Overwrites, types: seq<TypeName>)
    ensures EntriesReversed(data, types) != [] <==> exists t :: t in types && t in data
  {
    if types != [] {
      EntriesPresent(data, types[1..]);
      assert types[0] in types;
      assert forall t :: t in types <==> t == types[0] || t in types[1..];
    }
  }

  lemma LoadStep(types: Types, configured: Overwrites, order: seq<TypeName>, t: TypeName, next: seq<TypeName>)
    requires WellFormed(types) && next == order + [t]
    ensures var (data, resolved) := Load(types, configured, order);
            var (o, resolved') := Resolve(types, data, resolved, t);
            Load(types, configured, next) ==
            (if o.Some? && o.value != map[] then data[t := o.value] else data, resolved')
  {
    assert next[..|next| - 1] == order;
  }

  lemma ResolveRoot(types: Types, data: Overwrites, resolved: seq<TypeName>, t: TypeName)
    requires WellFormed(types) && t in types.declared && types.declared[t].None? && t !in resolved
    ensures Resolve(types, data, resolved, t) == (Lookup(data, t), resolved + [t])
  {
  }

  // ----- Exactly what an answer covers -----

  /** The part of its chain that `getOverwrites` takes into account: up to the first type resolved before. */
  ghost function Cut(types: Types, resolved: seq<TypeName>, t: TypeName): seq<TypeName>
    requires WellFormed(types)
    decreases Rank(types.known, t)
  {
    if t in resolved then [t]
    else if t !in types.declared then []
    else
      ParentsRank(types.known, t);
      var parents := Extends(types.known, t);
      if parents == [] then [t] else [t] + Cut(types, resolved, parents[0])
  }

  ghost function SelfAndChain(types: Types, t: TypeName): seq<TypeName>
    requires WellFormed(types)
  {
    [t] + Chain(types.known, t)
  }

  lemma {:induction false} CutIsPrefix(types: Types, resolved: seq<TypeName>, t: TypeName)
    requires WellFormed(types)
    ensures Cut(types, resolved, t) <= SelfAndChain(types, t)
    decreases Rank(types.known, t)
  {
    ParentsRank(types.known, t);
    var parents := Extends(types.known, t);
    if t !in resolved && t in types.declared && parents != [] { CutIsPrefix(types, resolved, parents[0]); }
  }

  /** The names given by the stored entries of these types. */
  function KeysOf(data: Overwrites, ts: seq<TypeName>): set<string> {
    if ts == [] then {} else (if ts[0] in data then data[ts[0]].Keys else {}) + KeysOf(data, ts[1..])
  }

  lemma {:induction false} FirstOccurrenceKeys(data: Overwrites, ts: seq<TypeName>, key: string)
    ensures FirstOccurrence(data, ts, key).Some? <==> key in KeysOf(data, ts)
  {
    if ts != [] { FirstOccurrenceKeys(data, ts[1..], key); }
  }

  lemma {:induction false} FirstOccurrenceConcat(data: Overwrites, a: seq<TypeName>, b: seq<TypeName>, key: string)
    ensures FirstOccurrence(data, a + b, key) ==
            if FirstOccurrence(data, a, key).Some? then FirstOccurrence(data, a, key) else FirstOccurrence(data, b, key)
  {
    if a == [] {
      assert a + b == b;
    } else {
      assert (a + b)[1..] == a[1..] + b;
      FirstOccurrenceConcat(data, a[1..], b, key);
    }
  }

  /** In every memo state the answer is the first occurrence along the cut. */
  lemma {:induction false} ResolveIsCut(types: Types, data: Overwrites, resolved: seq<TypeName>, t: TypeName,
                                        key: string)
    requires WellFormed(types) && SingleParent(types.known) && key != PROTO
    ensures Lookup(Resolve(types, data, resolved, t).0.GetOr(map[]), key)
            == FirstOccurrence(data, Cut(types, resolved, t), key)
    decreases Rank(types.known, t)
  {
    assert [t][1..] == [];
    if t !in resolved && t in types.declared {
      ParentsRank(types.known, t);
      var parents := Extends(types.known, t);
      if types.declared[t].Some? {
        assert parents == types.declared[t].value;
        if parents != [] {
          assert parents == [parents[0]];
          ResolveIsCut(types, data, resolved, parents[0], key);
          ResolveOneParent(types, data, resolved, t, parents[0]);
          assert ([t] + Cut(types, resolved, parents[0]))[1..] == Cut(types, resolved, parents[0]);
        }
      }
    }
  }

  /** `fields` gives every name its nearest configured value, and no other name. */
  ghost predicate Complete(types: Types, configured: Overwrites, t: TypeName, fields: Fields)
    requires WellFormed(types)
  {
    forall key :: key != PROTO ==> Lookup(fields, key) == Nearest(types, configured, t, key)
  }

  /** Every name given beyond `seen` is also given within it. */
  ghost predicate Covers(data: Overwrites, chain: seq<TypeName>, seen: seq<TypeName>)
    requires seen <= chain
  {
    KeysOf(data, chain[|seen|..]) - KeysOf(data, seen) <= {PROTO}
  }

  lemma CompleteIff(types: Types, configured: Overwrites, data: Overwrites, t: TypeName, seen: seq<TypeName>,
                    fields: Fields)
    requires WellFormed(types) && SingleParent(types.known) && Between(types, configured, data)
             && seen <= SelfAndChain(types, t)
    requires forall key :: key != PROTO ==> Lookup(fields, key) == FirstOccurrence(data, seen, key)
    ensures Complete(types, configured, t, fields) <==> Covers(data, SelfAndChain(types, t), seen)
  {
    var rest := SelfAndChain(types, t)[|seen|..];
    assert SelfAndChain(types, t) == seen + rest;
    forall key | key != PROTO
      ensures Lookup(fields, key) == Nearest(types, configured, t, key)
              <==> key !in KeysOf(data, rest) - KeysOf(data, seen)
    {
      ChainFindsNearest(types, configured, data, t, key);
      FirstOccurrenceConcat(data, seen, rest, key);
      FirstOccurrenceKeys(data, seen, key);
      FirstOccurrenceKeys(data, rest, key);
    }
  }

  /** An answer of `getOverwrites` is complete exactly if the rest of the chain gives no name the cut lacks. */
  lemma ResolveIsCompleteIff(types: Types, configured: Overwrites, data: Overwrites, resolved: seq<TypeName>,
                             t: TypeName)
    requires WellFormed(types) && SingleParent(types.known) && Between(types, configured, data)
    ensures Cut(types, resolved, t) <= SelfAndChain(types, t)
    ensures Complete(types, configured, t, Resolve(types, data, resolved, t).0.GetOr(map[]))
            <==> Covers(data, SelfAndChain(types, t), Cut(types, resolved, t))
  {
    CutIsPrefix(types, resolved, t);
    forall key | key != PROTO
      ensures Lookup(Resolve(types, data, resolved, t).0.GetOr(map[]), key)
              == FirstOccurrence(data, Cut(types, resolved, t), key)
    {
      ResolveIsCut(types, data, resolved, t, key);
    }
    CompleteIff(types, configured, data, t, Cut(types, resolved, t), Resolve(types, data, resolved, t).0.GetOr(map[]));
  }

  ghost predicate NoRepeats(order: seq<TypeName>) {
    forall j, k :: 0 <= j < k < |order| ==> order[j] != order[k]
  }

  /** Visiting other types leaves a stored entry alone. */
  lemma {:induction false} EntryStays(types: Types, configured: Overwrites, order: seq<TypeName>, m: nat, n: nat,
                                      t: TypeName)
    requires WellFormed(types) && m <= n <= |order| && forall j :: m <= j < n ==> order[j] != t
    ensures Lookup(Load(types, configured, order[..n]).0, t) == Lookup(Load(types, configured, order[..m]).0, t)
  {
    if m < n {
      EntryStays(types, configured, order, m, n - 1, t);
      LoadStep(types, configured, order[..n - 1], order[n - 1], order[..n]);
    }
  }

  /** What visiting `t` took into account; an unrecognised type keeps its own entry. */
  ghost function Seen(types: Types, resolved: seq<TypeName>, t: TypeName): seq<TypeName>
    requires WellFormed(types)
  {
    if t in types.declared then Cut(types, resolved, t) else [t]
  }

  lemma VisitStores(types: Types, configured: Overwrites, order: seq<TypeName>, t: TypeName, key: string)
    requires WellFormed(types) && SingleParent(types.known) && key != PROTO
    requires t in configured && (forall u :: u in order ==> u in configured)
    ensures var (data, resolved) := Load(types, configured, order);
            var data' := Load(types, configured, order + [t]).0;
            t in data' && Lookup(data'[t], key) == FirstOccurrence(data, Seen(types, resolved, t), key)
  {
    var (data, resolved) := Load(types, configured, order);
    LoadIsBetween(types, configured, order);
    LoadStep(types, configured, order, t, order + [t]);
    ResolveIsSound(types, configured, data, resolved, t);
    ResolveIsCut(types, data, resolved, t, key);
    assert [t][1..] == [];
    var o := Resolve(types, data, resolved, t).0;
    if o.Some? && o.value == map[] { assert data[t].Keys <= {PROTO}; }
  }

  /**
   The stored entry of each type is complete exactly if, when it was visited, the part of
   its chain beyond the cut gave no name that the cut lacked.
   */
  lemma StoredIsCompleteIff(types: Types, configured: Overwrites, order: seq<TypeName>, i: nat)
    requires WellFormed(types) && SingleParent(types.known) && NoRepeats(order) && i < |order|
    requires forall u :: u in order ==> u in configured
    ensures order[i] in Load(types, configured, order).0
    ensures var (data, resolved) := Load(types, configured, order[..i]); var t := order[i];
            && Seen(types, resolved, t) <= SelfAndChain(types, t)
            && (Complete(types, configured, t, Load(types, configured, order).0[t])
                <==> Covers(data, SelfAndChain(types, t), Seen(types, resolved, t)))
  {
    var (data, resolved) := Load(types, configured, order[..i]);
    var t, stored := order[i], Load(types, configured, order).0;
    assert order[..i + 1] == order[..i] + [t] && order[..|order|] == order;
    EntryStays(types, configured, order, i + 1, |order|, t);
    LoadIsBetween(types, configured, order[..i]);
    LoadIsBetween(types, configured, order);
    CutIsPrefix(types, resolved, t);
    forall key | key != PROTO ensures Lookup(stored[t], key) == FirstOccurrence(data, Seen(types, resolved, t), key) {
      VisitStores(types, configured, order[..i], t, key);
    }
    CompleteIff(types, configured, data, t, Seen(types, resolved, t), stored[t]);
  }

  /** Every ancestor of a visited type is recognised, configured, and visited before it. */
  ghost predicate AncestorsComeFirst(types: Types, order: seq<TypeName>) {
    && (forall i :: 0 <= i < |order| ==> order[i] in types.declared)
    && (forall i, a :: 0 <= i < |order| && StrictAncestor(types.known, a, order[i]) ==> a in order[..i])
  }

  /** Then everything stored is complete. */
  lemma {:induction false} AncestorsFirstIsComplete(types: Types, configured: Overwrites, order: seq<TypeName>, n: nat)
    requires WellFormed(types) && SingleParent(types.known) && NoRepeats(order) && n <= |order|
    requires AncestorsComeFirst(types, order) && forall u :: u in order ==> u in configured
    ensures var (data, resolved) := Load(types, configured, order[..n]);
            AllComplete(types, configured, order[..n], data, resolved)
  {
    if n == 0 {
      assert order[..0] == [];
    } else {
      AncestorsFirstIsComplete(types, configured, order, n - 1);
      assert order[..n] == order[..n - 1] + [order[n - 1]];
      AncestorsFirstStep(types, configured, order, n - 1);
    }
  }

  /** All visited types are resolved, nothing else is, and what is stored for them is complete. */
  ghost predicate AllComplete(types: Types, configured: Overwrites, visited: seq<TypeName>, data: Overwrites,
                              resolved: seq<TypeName>)
    requires WellFormed(types)
  {
    && (forall u :: u in resolved <==> u in visited)
    && forall u :: u in visited ==> u in data && Complete(types, configured, u, data[u])
  }

  lemma OneMoreComplete(types: Types, configured: Overwrites, visited: seq<TypeName>, data: Overwrites,
                        resolved: seq<TypeName>,
                        t: TypeName, data': Overwrites, resolved': seq<TypeName>)
    requires WellFormed(types) && AllComplete(types, configured, visited, data, resolved) && resolved' == resolved + [t]
    requires t in data' && Complete(types, configured, t, data'[t])
    requires forall u :: u in data && u != t ==> u in data' && data'[u] == data[u]
    ensures AllComplete(types, configured, visited + [t], data', resolved')
  {
    forall u ensures u in visited + [t] <==> u in visited || u == t {}
    forall u ensures u in resolved' <==> u in resolved || u == t {}
  }

  lemma AncestorsFirstStep(types: Types, configured: Overwrites, order: seq<TypeName>, n: nat)
    requires WellFormed(types) && SingleParent(types.known) && NoRepeats(order) && n < |order|
    requires AncestorsComeFirst(types, order) && forall u :: u in order ==> u in configured
    requires var (data, resolved) := Load(types, configured, order[..n]);
             AllComplete(types, configured, order[..n], data, resolved)
    ensures var (data, resolved) := Load(types, configured, order[..n] + [order[n]]);
            AllComplete(types, configured, order[..n] + [order[n]], data, resolved)
  {
    var t := order[n];
    var (data, resolved) := Load(types, configured, order[..n]);
    var (data', resolved') := Load(types, configured, order[..n] + [t]);
    assert t !in order[..n];
    LoadStep(types, configured, order[..n], t, order[..n] + [t]);
    LoadIsBetween(types, configured, order[..n]);
    EntryStays(types, configured, order, 0, n, t);
    assert order[..0] == [] && data[t] == configured[t];
    forall p | p in Extends(types.known, t) ensures p in order[..n] { ParentIsAncestor(types.known, p, t); }
    VisitedAfterParent(types, configured, data, resolved, t);
    forall key | key != PROTO ensures t in data' && Lookup(data'[t], key) == Nearest(types, configured, t, key) {
      VisitStores(types, configured, order[..n], t, key);
    }
    OneMoreComplete(types, configured, order[..n], data, resolved, t, data', resolved');
  }

  /** A type visited once its parent is complete, and before any descendant. */
  lemma VisitedAfterParent(types: Types, configured: Overwrites, data: Overwrites, resolved: seq<TypeName>, t: TypeName)
    requires WellFormed(types) && SingleParent(types.known) && t in types.declared && t !in resolved
    requires t in configured && t in data && data[t] == configured[t]
    requires forall p :: p in Extends(types.known, t) ==>
             p in resolved && p in data && Complete(types, configured, p, data[p])
    ensures Resolve(types, data, resolved, t).1 == resolved + [t]
    ensures forall key :: key != PROTO ==>
            FirstOccurrence(data, Cut(types, resolved, t), key) == Nearest(types, configured, t, key)
  {
    ParentsRank(types.known, t);
    var parents := Extends(types.known, t);
    assert [t][1..] == [];
    if parents != [] {
      var p := parents[0];
      assert types.declared[t].GetOr([]) == parents == [p];
      assert p in parents && types.declared[t] == Some([p]) && [t] + [p] == [t, p];
      assert [t, p][1..] == [p] && [p][1..] == [];
      ResolveOneParent(types, data, resolved, t, p);
      assert Cut(types, resolved, t) == [t, p];
      forall key | key != PROTO ensures FirstOccurrence(data, [t, p], key) == Nearest(types, configured, t, key) {
        assert FirstOccurrence(data, [p], key) == Lookup(data[p], key) == Nearest(types, configured, p, key);
      }
    } else if types.declared[t].Some? {
      assert types.declared[t] == Some([]);
    }
  }

  // ----- What the memo does lose: the stored data itself -----

  /** `a` extends `b` extends `c`. */
  function ThreeTypes(a: TypeName, b: TypeName, c: TypeName): Types {
    Types(map[a := [b], b := [c]], map[a := Some([b]), b := Some([c]), c := None])
  }

  lemma ThreeTypesWellFormed(a: TypeName, b: TypeName, c: TypeName)
    requires a != b && b != c && a != c
    ensures WellFormed(ThreeTypes(a, b, c)) && SingleParent(ThreeTypes(a, b, c).known)
  {
    var known := ThreeTypes(a, b, c).known;
    var rank: TypeName -> nat := t => if t == a then 2 else if t == b then 1 else 0;
    assert Ranked(known, rank);
    RankedIsAcyclic(known, rank);
  }

  /** `a` extends `b` extends `c`, and each configures some fields. */
  ghost predicate Line(types: Types, configured: Overwrites, a: TypeName, b: TypeName, c: TypeName) {
    && WellFormed(types) && a != b && b != c && a != c
    && a in types.declared && types.declared[a] == Some([b])
    && b in types.declared && types.declared[b] == Some([c])
    && c in types.declared && types.declared[c].None?
    && configured.Keys == {a, b, c}
    && configured[a] != map[] && configured[b] != map[] && configured[c] != map[]
    && PROTO !in configured[a] && PROTO !in configured[b] && PROTO !in configured[c]
  }

  /** Resolving the child resolves the whole line, and marks all of it resolved. */
  lemma ResolveLine(types: Types, configured: Overwrites, a: TypeName, b: TypeName, c: TypeName)
    requires Line(types, configured, a, b, c)
    ensures Resolve(types, configured, [], a) == (Some(configured[c] + configured[b] + configured[a]), [c, b, a])
  {
    var X, Y, Z := configured[a], configured[b], configured[c];
    var none: seq<TypeName> := [];
    assert none + [c] == [c] && [c] + [b] == [c, b] && [c, b] + [a] == [c, b, a];
    ResolveRoot(types, configured, [], c);
    assert Resolve(types, configured, [], c) == (Some(Z), [c]);
    ResolveOneParent(types, configured, [], b, c);
    AssignPlain(map[], Z);
    AssignPlain(Z, Y);
    assert Resolve(types, configured, [], b) == (Some(Z + Y), [c, b]);
    ResolveOneParent(types, configured, [], a, b);
    AssignPlain(map[], Z + Y);
    AssignPlain(Z + Y, X);
  }

  lemma ChildFirst(types: Types, configured: Overwrites, a: TypeName, b: TypeName, c: TypeName)
    requires Line(types, configured, a, b, c)
    ensures Load(types, configured, [a, b, c]).0 == configured[a := configured[c] + configured[b] + configured[a]]
  {
    var all := configured[c] + configured[b] + configured[a];
    ResolveLine(types, configured, a, b, c);
    LoadStep(types, configured, [], a, [a]);
    var data := configured[a := all];
    assert Load(types, configured, [a]) == (data, [c, b, a]);
    LoadStep(types, configured, [a], b, [a, b]);
    assert data[b := configured[b]] == data;
    assert Load(types, configured, [a, b]) == (data, [c, b, a]);
    LoadStep(types, configured, [a, b], c, [a, b, c]);
    assert data[c := configured[c]] == data;
  }

  lemma AncestorFirst(types: Types, configured: Overwrites, a: TypeName, b: TypeName, c: TypeName)
    requires Line(types, configured, a, b, c)
    ensures var both := configured[c] + configured[b];
            Load(types, configured, [c, b, a]).0 == configured[b := both][a := both + configured[a]]
  {
    AncestorsFirst(types, configured, a, b, c);
    var both := configured[c] + configured[b];
    var data := configured[b := both];
    ResolveOneParent(types, data, [c, b], a, b);
    AssignPlain(map[], both);
    AssignPlain(both, configured[a]);
    LoadStep(types, configured, [c, b], a, [c, b, a]);
  }

  lemma RootFirst(types: Types, configured: Overwrites, c: TypeName)
    requires WellFormed(types) && c in types.declared && types.declared[c].None? && c in configured
             && configured[c] != map[]
    ensures Load(types, configured, [c]) == (configured, [c])
  {
    ResolveRoot(types, configured, [], c);
    LoadStep(types, configured, [], c, [c]);
    assert configured[c := configured[c]] == configured;
  }

  lemma AncestorsFirst(types: Types, configured: Overwrites, a: TypeName, b: TypeName, c: TypeName)
    requires Line(types, configured, a, b, c)
    ensures Load(types, configured, [c, b]) == (configured[b := configured[c] + configured[b]], [c, b])
  {
    RootFirst(types, configured, c);
    ResolveOneParent(types, configured, [c], b, c);
    AssignPlain(map[], configured[c]);
    AssignPlain(configured[c], configured[b]);
    LoadStep(types, configured, [c], b, [c, b]);
  }

  /**
   The stored data is not order-transparent: visiting the child first stores the middle
   type without its inherited field, visiting it last stores it with the field. `GetIsNearest`
   holds all the same.
   */
  lemma StoredDataDependsOnOrder(a: TypeName, b: TypeName, c: TypeName, own: Fields, y: Value, z: Value, ky: string,
                                 kz: string)
    requires a != b && b != c && a != c && ky != kz && ky != PROTO && kz != PROTO && own != map[] && PROTO !in own
    ensures WellFormed(ThreeTypes(a, b, c)) && SingleParent(ThreeTypes(a, b, c).known)
    ensures var configured := map[a := own, b := map[ky := y], c := map[kz := z]];
            && Lookup(Load(ThreeTypes(a, b, c), configured, [a, b, c]).0, b) == Some(map[ky := y])
            && Lookup(Load(ThreeTypes(a, b, c), configured, [c, b, a]).0, b) == Some(map[kz := z, ky := y])
  {
    var configured: Overwrites := map[a := own, b := map[ky := y], c := map[kz := z]];
    ThreeTypesWellFormed(a, b, c);
    assert ky in configured[b] && kz in configured[c];
    ChildFirst(ThreeTypes(a, b, c), configured, a, b, c);
    AncestorFirst(ThreeTypes(a, b, c), configured, a, b, c);
    assert configured[c] + configured[b] == map[kz := z, ky := y];
  }

  // ----- Why one parent: two parents resolve both ways -----

  /** `t` extends `p` and `q`. */
  function TwoParents(t: TypeName, p: TypeName, q: TypeName): Types {
    Types(map[t := [p, q]], map[t := Some([p, q]), p := None, q := None])
  }

  lemma TwoParentsList(t: TypeName, p: TypeName, q: TypeName)
    requires t != p && t != q && p != q
    ensures WellFormed(TwoParents(t, p, q)) && !SingleParent(TwoParents(t, p, q).known)
    ensures ParentList(TwoParents(t, p, q).known, t) == [p, q]
  {
    var known := TwoParents(t, p, q).known;
    var rank: TypeName -> nat := x => if x == t then 1 else 0;
    assert Ranked(known, rank);
    RankedIsAcyclic(known, rank);
    assert |Extends(known, t)| == 2;
    TwoRoots(known, t, p, q);
  }

  lemma TwoRoots(known: Known, t: TypeName, p: TypeName, q: TypeName)
    requires Acyclic(known) && Extends(known, t) == [p, q]
    requires Extends(known, p) == [] && Extends(known, q) == []
    ensures ParentList(known, t) == [p, q]
  {
    var r := Rank(known, t);
    ParentsRank(known, t);
    assert p in [p, q] && q in [p, q] && [p, q] == [p] + [q];
    NoParents(known, p);
    NoParents(known, q);
    AppendedOne(known, p, r);
    AppendedOne(known, q, r);
    AppendedConcat(known, [p], [q], r);
    LevelsUnique(known, [p, q], [p, q], r);
  }

  lemma NoParents(known: Known, t: TypeName)
    requires Acyclic(known) && Extends(known, t) == []
    ensures ParentList(known, t) == []
  {
    LevelsUnique(known, [], [], Rank(known, t));
  }

  /** `t` extends `p` and `q`, in that order, and both parents configure `key`. */
  ghost predicate Fork(types: Types, parents: Overwrites, t: TypeName, p: TypeName, q: TypeName, key: string) {
    && WellFormed(types) && t != p && t != q && p != q
    && ParentList(types.known, t) == [p, q]
    && t in types.declared && types.declared[t] == Some([p, q])
    && p in types.declared && types.declared[p].None? && q in types.declared && types.declared[q].None?
    && parents.Keys == {p, q} && key in parents[p] && key in parents[q] && key != PROTO
    && PROTO !in parents[p] && PROTO !in parents[q]
  }

  lemma ForkWithoutOwn(types: Types, parents: Overwrites, t: TypeName, p: TypeName, q: TypeName, key: string)
    requires Fork(types, parents, t, p, q, key)
    ensures Get(types, Load(types, parents, [p, q]).0, t).Some?
    ensures Lookup(Get(types, Load(types, parents, [p, q]).0, t).value, key) == Some(parents[p][key])
  {
    var all := [t] + [p, q];
    LoadRoots(types, parents, [], p, q);
    FoldIsFirstOccurrence(parents, all, key);
    assert all[1..] == [p, q];
    assert p in all;
    EntriesPresent(parents, all);
  }

  lemma ForkWithOwn(types: Types, parents: Overwrites, own: Fields, t: TypeName, p: TypeName, q: TypeName, key: string)
    requires Fork(types, parents, t, p, q, key) && own != map[] && key !in own && PROTO !in own
    ensures Get(types, Load(types, parents[t := own], [t, p, q]).0, t).Some?
    ensures Lookup(Get(types, Load(types, parents[t := own], [t, p, q]).0, t).value, key) == Some(parents[q][key])
  {
    var configured := parents[t := own];
    var data := configured[t := map[] + parents[p] + parents[q] + own];
    LoadFork(types, parents, own, t, p, q, key);
    var all := [t] + [p, q];
    assert t in all;
    FoldIsFirstOccurrence(data, all, key);
    EntriesPresent(data, all);
  }

  lemma LoadFork(types: Types, parents: Overwrites, own: Fields, t: TypeName, p: TypeName, q: TypeName, key: string)
    requires Fork(types, parents, t, p, q, key) && own != map[] && PROTO !in own
    ensures Load(types, parents[t := own], [t, p, q]).0 == parents[t := map[] + parents[p] + parents[q] + own]
  {
    var configured := parents[t := own];
    var merged := map[] + parents[p] + parents[q] + own;
    ResolveTwoParents(types, configured, t, p, q);
    assert key in merged;
    LoadStep(types, configured, [], t, [t]);
    LoadResolved(types, configured, [t], p, [t, p]);
    LoadResolved(types, configured, [t, p], q, [t, p, q]);
  }

  /** Loading a type that has been resolved before changes nothing. */
  lemma LoadResolved(types: Types, configured: Overwrites, order: seq<TypeName>, t: TypeName, next: seq<TypeName>)
    requires WellFormed(types) && next == order + [t] && t in Load(types, configured, order).1
    ensures Load(types, configured, next) == Load(types, configured, order)
  {
    var data := Load(types, configured, order).0;
    LoadStep(types, configured, order, t, next);
    if t in data { assert data[t := data[t]] == data; }
  }

  /**
   With two parents `getOverwrites` lets the later one win and `get` the earlier one, so
   which parent's value a type gets depends on whether the type itself is configured.
   `TwoParentsList` exhibits such types.
   */
  lemma TwoParentsDisagree(types: Types, parents: Overwrites, own: Fields, t: TypeName, p: TypeName, q: TypeName,
                           key: string)
    requires Fork(types, parents, t, p, q, key) && own != map[] && key !in own && PROTO !in own
    ensures Lookup(Get(types, Load(types, parents, [p, q]).0, t).GetOr(map[]), key) == Some(parents[p][key])
    ensures Lookup(Get(types, Load(types, parents[t := own], [t, p, q]).0, t).GetOr(map[]), key)
            == Some(parents[q][key])
  {
    ForkWithoutOwn(types, parents, t, p, q, key);
    ForkWithOwn(types, parents, own, t, p, q, key);
  }

  lemma LoadRoots(types: Types, configured: Overwrites, none: seq<TypeName>, p: TypeName, q: TypeName)
    requires WellFormed(types) && p != q && p in configured && q in configured && none == []
    requires p in types.declared && types.declared[p].None? && q in types.declared && types.declared[q].None?
    ensures Load(types, configured, [p, q]).0 == configured
  {
    LoadStep(types, configured, none, p, [p]);
    assert configured[p := configured[p]] == configured;
    LoadStep(types, configured, [p], q, [p, q]);
    assert configured[q := configured[q]] == configured;
  }

  lemma ResolveTwoParents(types: Types, data: Overwrites, t: TypeName, p: TypeName, q: TypeName)
    requires WellFormed(types) && p != q && t in types.declared && types.declared[t] == Some([p, q])
    requires p in data && q in data && t in data && PROTO !in data[p] && PROTO !in data[q] && PROTO !in data[t]
    requires p in types.declared && types.declared[p].None? && q in types.declared && types.declared[q].None?
    ensures Resolve(types, data, [], t) == (Some(map[] + data[p] + data[q] + data[t]), [p, q, t])
  {
    var none: seq<TypeName> := [];
    DeclaredRank(types, t);
    assert p in [p, q] && q in [p, q] && p in [p];
    assert [p, q][..1] == [p] && [p][..0] == none;
    ResolveRoot(types, data, none, p);
    ResolveRoot(types, data, [p], q);
    assert none + [p] == [p] && [p] + [q] == [p, q] && [p, q] + [t] == [p, q, t];
    AssignPlain(map[], data[p]);
    AssignPlain(map[] + data[p], data[q]);
    AssignPlain(map[] + data[p] + data[q], data[t]);
    assert ResolveParents(types, data, none, t, [p]) == (map[] + data[p], [p]);
    assert ResolveParents(types, data, none, t, [p, q]) == (map[] + data[p] + data[q], [p, q]);
  }

  // ----- applyOverwrite and usesManagedAuth -----

  /** `null`, `undefined` and the empty string count as no data. */
  predicate Empty(v: Option<Value>) {
    v.None? || v.value.Null? || v.value == Text("")
  }

  /** `fields[k]`: an own field, else whatever the prototype answers. */
  function Read(fields: Fields, k: string): Option<Value> {
    if k in fields then Some(fields[k]) else if k in OBJECT_MEMBERS then Some(Builtin(k)) else None
  }

  /** Keys that `deepCopy` never copies. */
  const RESERVED_COPY_KEYS := {"__proto__", "constructor", "prototype"}

  function CopyValue(v: Value, heap: nat): Value {
    if v.Object? then Object(v.ref + heap, v.body) else v
  }

  /** `deepCopy`: same content, fresh objects. */
  function DeepCopy(fields: Fields, heap: nat): Fields {
    map k | k in fields && k !in RESERVED_COPY_KEYS :: CopyValue(fields[k], heap)
  }

  /** A skip-listed type whose user has put a value of their own in an overwritten field. */
  predicate Customized(overwrites: Fields, data: Fields) {
    exists k :: k in overwrites && !Empty(Read(data, k)) && Read(data, k) != Some(overwrites[k])
  }

  /** `applyOverwrite`, given what `get` returned and whether the type is skip-listed. */
  ghost function Applied(overwrites: Option<Fields>, skip: bool, data: Fields, heap: nat): Fields {
    if overwrites.None? || (skip && Customized(overwrites.value, data)) then data
    else
      FillEmpty(DeepCopy(data, heap), overwrites.value)
  }

  /** The copy with every overwritten field filled that reads as empty. */
  function FillEmpty(copy: Fields, overwrites: Fields): Fields {
    map k | k in copy.Keys + Fillable(copy, overwrites) ::
      if k in Fillable(copy, overwrites) then overwrites[k] else copy[k]
  }

  function Fillable(copy: Fields, overwrites: Fields): set<string> {
    set k | k in overwrites && Empty(Read(copy, k))
  }

  /** The `usesManagedAuth` test: applying would change some overwritten field. */
  ghost predicate UsesManagedAuth(overwrites: Option<Fields>, skip: bool, data: Fields, heap: nat) {
    overwrites.Some? &&
    exists k :: k in overwrites.value && Read(Applied(overwrites, skip, data, heap), k) != Read(data, k)
  }

  /** Equal up to object identity. */
  predicate SameContent(a: Option<Value>, b: Option<Value>) {
    a == b || (a.Some? && b.Some? && a.value.Object? && b.value.Object? && a.value.body == b.value.body)
  }

  /**
   Field by field: data its user has customised is kept. Otherwise an own field of a
   reserved name is lost, and only `prototype`, which no object answers by itself, can be
   filled again; any other field is filled exactly if it is overwritten and reads as empty.
   */
  lemma AppliedPerField(overwrites: Fields, skip: bool, data: Fields, heap: nat, k: string)
    ensures var stored, got := Read(data, k), Read(Applied(Some(overwrites), skip, data, heap), k);
            && (skip && Customized(overwrites, data) ==> got == stored)
            && (!(skip && Customized(overwrites, data)) ==>
                  if k == "prototype" then got == Lookup(overwrites, k)
                  else if k in RESERVED_COPY_KEYS then got == Some(Builtin(k))
                  else if k in overwrites && Empty(stored) then got == Some(overwrites[k])
                  else SameContent(got, stored))
  {
  }

  /** The field holds something that is neither nothing nor the overwrite itself. */
  predicate UsersOwn(overwrite: Value, data: Fields, k: string) {
    if k in data then data[k] != Null && data[k] != Text("") && data[k] != overwrite else k in OBJECT_MEMBERS
  }

  /**
   The same for a field of an ordinary name, in terms of what is stored. It is filled exactly
   if it is overwritten and absent, null or the empty string. On a skip-listed type nothing is
   filled once some overwritten field holds anything but that or the overwrite itself, or has
   the name of an object member, which reads as the user's own.
   */
  lemma FilledIffUnset(overwrites: Fields, skip: bool, data: Fields, heap: nat, k: string)
    requires k !in {"__proto__", "constructor", "prototype"} && k !in OBJECT_MEMBERS
    requires forall j :: j in overwrites ==> overwrites[j] != Builtin(j)
    ensures var r := Applied(Some(overwrites), skip, data, heap);
            var own := exists j :: j in overwrites && UsersOwn(overwrites[j], data, j);
            if skip && own then r == data
            else if k in overwrites && (k !in data || data[k] == Null || data[k] == Text("")) then
              k in r && r[k] == overwrites[k]
            else
              && (k in r <==> k in data)
              && (k in data ==> r[k] == data[k] || (r[k].Object? && data[k].Object? && r[k].body == data[k].body))
  {
    forall j | j in overwrites
      ensures !Empty(Read(data, j)) && Read(data, j) != Some(overwrites[j]) <==> UsersOwn(overwrites[j], data, j)
    {
    }
    assert Customized(overwrites, data) <==> exists j :: j in overwrites && UsersOwn(overwrites[j], data, j);
  }

  /** Applying twice is applying once, whichever objects the copies are. */
  lemma AppliedIdempotent(overwrites: Option<Fields>, skip: bool, data: Fields, heap: nat, heap': nat, k: string)
    ensures var once := Applied(overwrites, skip, data, heap);
            SameContent(Read(Applied(overwrites, skip, once, heap'), k), Read(once, k))
  {
    if overwrites.Some? {
      var once := Applied(overwrites, skip, data, heap);
      AppliedPerField(overwrites.value, skip, data, heap, k);
      AppliedPerField(overwrites.value, skip, once, heap', k);
    }
  }

  /** What makes `usesManagedAuth` see a difference in field `k`. */
  predicate Differs(overwrites: Fields, data: Fields, k: string)
    requires k in overwrites
  {
    if k == "prototype" || (k !in RESERVED_COPY_KEYS && Empty(Read(data, k))) then Read(data, k) != Some(overwrites[k])
    else if k in RESERVED_COPY_KEYS then Read(data, k) != Some(Builtin(k))
    else Read(data, k).value.Object?
  }

  /** Exactly when a credential reads as managed; the last case is the copy of an object. */
  lemma ManagedIff(overwrites: Fields, skip: bool, data: Fields, heap: nat)
    requires heap > 0
    ensures UsesManagedAuth(Some(overwrites), skip, data, heap) <==>
            !(skip && Customized(overwrites, data)) && exists k :: k in overwrites && Differs(overwrites, data, k)
  {
    var applied := Applied(Some(overwrites), skip, data, heap);
    if !(skip && Customized(overwrites, data)) {
      forall k | k in overwrites
        ensures Read(applied, k) != Read(data, k) <==> Differs(overwrites, data, k)
      {
      }
    }
  }

  /**
   Data that already carries its overwrites reads as managed only through an object-valued
   overwritten field; with primitive fields never.
   */
  lemma ManagedAfterApplied(overwrites: Fields, skip: bool, data: Fields, heap: nat, heap': nat)
    requires heap' > 0
    ensures var applied := Applied(Some(overwrites), skip, data, heap);
            UsesManagedAuth(Some(overwrites), skip, applied, heap') <==>
            && !(skip && Customized(overwrites, applied))
            && exists k :: k in overwrites && k !in RESERVED_COPY_KEYS && k in applied && applied[k].Object?
  {
    var applied := Applied(Some(overwrites), skip, data, heap);
    ManagedIff(overwrites, skip, applied, heap');
    if !(skip && Customized(overwrites, data)) {
      forall k | k in overwrites
        ensures Differs(overwrites, applied, k) <==> k !in RESERVED_COPY_KEYS && k in applied && applied[k].Object?
      {
        AppliedPerField(overwrites, skip, data, heap, k);
      }
    }
  }

  lemma SameLookups(a: Fields, b: Fields)
    requires forall k :: Lookup(a, k) == Lookup(b, k)
    ensures a == b
  {
    forall k ensures k in a <==> k in b { assert Lookup(a, k) == Lookup(b, k); }
    forall k | k in a ensures a[k] == b[k] { assert Lookup(a, k) == Lookup(b, k); }
  }

  /** packages/cli/src/credentials-overwrites.ts: the service with its two mutable fields. */
  class CredentialsOverwritesService {
    const types: Types
    const credentialTypes: CredentialTypesService
    const skipTypes: set<TypeName>

    var overwriteData: Overwrites
    var resolvedTypes: seq<TypeName>

    ghost predicate Valid() {
      WellFormed(types) && credentialTypes.knownCredentials == types.known
    }

    constructor (types: Types, credentialTypes: CredentialTypesService, skipTypes: set<TypeName>)
      requires WellFormed(types) && credentialTypes.knownCredentials == types.known
      ensures Valid() && this.types == types && this.skipTypes == skipTypes
      ensures overwriteData == map[] && resolvedTypes == []
    {
      this.types, this.credentialTypes, this.skipTypes := types, credentialTypes, skipTypes;
      overwriteData, resolvedTypes := map[], [];
    }

    method GetOverwrites(t: TypeName) returns (r: Option<Fields>)
      requires Valid()
      modifies this`resolvedTypes
      ensures (r, resolvedTypes) == Resolve(types, overwriteData, old(resolvedTypes), t)
      decreases Rank(types.known, t)
    {
      if t in resolvedTypes { return Lookup(overwriteData, t); }
      if t !in types.declared { return None; }
      if types.declared[t].None? {
        resolvedTypes := resolvedTypes + [t];
        return Lookup(overwriteData, t);
      }
      DeclaredRank(types, t);
      var parents := types.declared[t].value;
      var overwrites: Fields := map[];
      for i := 0 to |parents|
        invariant (overwrites, resolvedTypes)
                  == ResolveParents(types, overwriteData, old(resolvedTypes), t, parents[..i])
      {
        assert parents[..i + 1][..i] == parents[..i];
        var inherited := GetOverwrites(parents[i]);
        overwrites := Assign(overwrites, inherited);
      }
      assert parents[..|parents|] == parents;
      overwrites := Assign(overwrites, Lookup(overwriteData, t));
      resolvedTypes := resolvedTypes + [t];
      return Some(overwrites);
    }

    /** `order` is the order in which `for (const type in overwriteData)` visits the keys. */
    method SetPlainData(configured: Overwrites, order: seq<TypeName>)
      requires Valid() && forall t :: t in order <==> t in configured
      modifies this
      ensures (overwriteData, resolvedTypes) == Load(types, configured, order)
    {
      resolvedTypes := [];
      overwriteData := configured;
      for i := 0 to |order|
        invariant (overwriteData, resolvedTypes) == Load(types, configured, order[..i])
      {
        assert order[..i + 1][..i] == order[..i];
        var overwrites := GetOverwrites(order[i]);
        if overwrites.Some? && overwrites.value != map[] {
          overwriteData := overwriteData[order[i] := overwrites.value];
        }
      }
      assert order[..|order|] == order;
    }

    method GetEntry(name: TypeName) returns (r: Option<Fields>)
      requires Valid()
      ensures r == Get(types, overwriteData, name)
    {
      var parentTypes := credentialTypes.GetParentTypes(name);
      var entries := EntriesReversed(overwriteData, [name] + parentTypes);
      r := if entries == [] then None else Some(AssignAll(entries));
    }

    /** `heap` shifts the references of copied objects, so that copies are new objects. */
    method ApplyOverwrite(name: TypeName, data: Fields, heap: nat) returns (r: Fields)
      requires Valid()
      ensures r == Applied(Get(types, overwriteData, name), name in skipTypes, data, heap)
    {
      var overwrites := GetEntry(name);
      if overwrites.None? { return data; }
      var ow := overwrites.value;
      if name in skipTypes && Customized(ow, data) { return data; }
      var copy := DeepCopy(data, heap);
      r := copy;
      var todo := ow.Keys;
      while todo != {}
        invariant todo <= ow.Keys
        invariant forall k :: Lookup(r, k) ==
                              if k in ow && k !in todo && Empty(Read(copy, k)) then Some(ow[k]) else Lookup(copy, k)
      {
        var key :| key in todo;
        assert Lookup(r, key) == Lookup(copy, key);
        if Empty(Read(r, key)) {
          r := r[key := ow[key]];
        }
        todo := todo - {key};
      }
      ghost var filled := FillEmpty(copy, ow);
      assert forall k :: Lookup(r, k) == Lookup(filled, k);
      SameLookups(r, filled);
    }

    /**
     Once loaded from `configured`, in whatever order, a type supports managed auth exactly
     if it or one of its ancestors is configured.
     */
    method SupportsManaged(name: TypeName, ghost configured: Overwrites, ghost order: seq<TypeName>)
      returns (supported: bool)
      requires Valid() && SingleParent(types.known)
      requires (forall t :: t in order ==> t in configured) && overwriteData == Load(types, configured, order).0
      ensures supported <==> name in configured || exists a :: a in configured && StrictAncestor(types.known, a, name)
    {
      var overwrites := GetEntry(name);
      supported := overwrites.Some?;
      GetIsNearest(types, configured, order, name);
    }

    method UsesManaged(name: TypeName, data: Fields, heap: nat) returns (managed: bool)
      requires Valid()
      ensures managed <==> UsesManagedAuth(Get(types, overwriteData, name), name in skipTypes, data, heap)
    {
      var overwrites := GetEntry(name);
      if overwrites.None? { return false; }
      var applied := ApplyOverwrite(name, data, heap);
      managed := exists k :: k in overwrites.value && Read(applied, k) != Read(data, k);
    }
  }
}
