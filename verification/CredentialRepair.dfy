/**
 Repairing node credentials: `replaceInvalidCredentials` of packages/cli/src/workflow-helpers.ts.

 The loop keeps two caches so that it asks the database little. The reference, `Uncached`,
 asks it for every entry. The theorems say exactly when the caches are invisible.
 */
module CredentialRepair {
  import opened Prelude

  /** A node's reference to a credential, as it may appear in stored workflow JSON. */
  datatype Cred =
    | Absent                                                  // null or undefined
    | Name(name: string)                                      // the oldest style: a bare name
    | Details(id: Option<string>, name: string, managed: bool) // id None is JSON null
    | Inherited(prop: string)                                 // a member of Object.prototype

  datatype Entry = Entry(ctype: string, cred: Cred)
  datatype Node = Node(credentials: Option<seq<Entry>>, disabled: bool)
  datatype Rec = Rec(id: string, name: string, ctype: string, inProject: bool)
  datatype Query = ById(ctype: string, id: string) | ByName(ctype: string, name: string, oldStyle: bool)

  /** The credentials table, and the type names `isSafeObjectProperty` rejects. */
  datatype Env = Env(table: seq<Rec>, unsafeTypes: set<string>)

  /** Ids are unique and generated, so no id is an object member's name. */
  ghost predicate ValidEnv(env: Env) {
    && (forall i, j :: 0 <= i < j < |env.table| ==> env.table[i].id != env.table[j].id)
    && (forall i :: 0 <= i < |env.table| ==> env.table[i].id !in OBJECT_MEMBERS)
  }

  function FindById(table: seq<Rec>, id: string, ctype: string): Option<Rec> {
    if table == [] then None
    else if table[0].id == id && table[0].ctype == ctype then Some(table[0])
    else FindById(table[1..], id, ctype)
  }

  function FindByName(table: seq<Rec>, name: string, ctype: string): seq<Rec> {
    if table == [] then []
    else
      var rest := FindByName(table[1..], name, ctype);
      if table[0].name == name && table[0].ctype == ctype && table[0].inProject then [table[0]] + rest else rest
  }

  /** The one credential of that name and type in the project, if there is exactly one. */
  function Unique(table: seq<Rec>, name: string, ctype: string): Option<Rec> {
    var found := FindByName(table, name, ctype);
    if |found| == 1 then Some(found[0]) else None
  }

  function Found(r: Rec): Cred {
    Details(Some(r.id), r.name, false)
  }

  predicate Live(env: Env, e: Entry) {
    && e.ctype !in env.unsafeTypes
    && (e.cred.Name? || (e.cred.Details? && !e.cred.managed))
  }

  predicate OldStyle(c: Cred) {
    c.Name? || (c.Details? && c.id.None?)
  }

  /** The reference: what the database alone says about one entry. */
  function Uncached(env: Env, e: Entry): Entry {
    if !Live(env, e) then e
    else if OldStyle(e.cred) then
      match Unique(env.table, e.cred.name, e.ctype)
      case Some(r) => Entry(e.ctype, Found(r))
      case None => e
    else
      match FindById(env.table, e.cred.id.value, e.ctype)
      case Some(r) => Entry(e.ctype, Found(r))
      case None =>
        match Unique(env.table, e.cred.name, e.ctype)
        case Some(r) => Entry(e.ctype, Found(r))
        case None => e
  }

  datatype Caches = Caches(byName: map<(string, string), Cred>, byId: map<(string, string), Cred>, log: seq<Query>)

  const NO_CACHES := Caches(map[], map[], [])

  /** `cache[type][key]`: an own property, else whatever the prototype answers. */
  function Read(cache: map<(string, string), Cred>, ctype: string, key: string): Option<Cred> {
    if (ctype, key) in cache then Some(cache[(ctype, key)])
    else if key in OBJECT_MEMBERS then Some(Inherited(key))
    else None
  }

  /** One turn of the inner loop. */
  function Step(env: Env, c: Caches, e: Entry): (Entry, Caches) {
    if !Live(env, e) then (e, c)
    else if OldStyle(e.cred) then
      var name := e.cred.name;
      match Read(c.byName, e.ctype, name)
      case Some(hit) => (Entry(e.ctype, hit), c)
      case None =>
        var c' := c.(log := c.log + [ByName(e.ctype, name, true)]);
        match Unique(env.table, name, e.ctype)
        case Some(r) => (Entry(e.ctype, Found(r)), c'.(byName := c.byName[(e.ctype, name) := Found(r)]))
        case None => (e, c'.(byName := c.byName[(e.ctype, name) := Details(None, name, false)]))
    else
      var id := e.cred.id.value;
      match Read(c.byId, e.ctype, id)
      case Some(hit) => (Entry(e.ctype, hit), c)
      case None =>
        var c' := c.(log := c.log + [ById(e.ctype, id)]);
        match FindById(env.table, id, e.ctype)
        case Some(r) => (Entry(e.ctype, Found(r)), c'.(byId := c.byId[(e.ctype, id) := Found(r)]))
        case None =>
          var c'' := c'.(log := c'.log + [ByName(e.ctype, e.cred.name, false)]);
          match Unique(env.table, e.cred.name, e.ctype)
          case Some(r) => (Entry(e.ctype, Found(r)), c''.(byId := c.byId[(e.ctype, r.id) := Found(r)]))
          case None => (e, c''.(byId := c.byId[(e.ctype, id) := e.cred]))
  }

  function RepairAll(env: Env, c: Caches, es: seq<Entry>): (r: (seq<Entry>, Caches))
    ensures |r.0| == |es|
  {
    if es == [] then ([], c)
    else
      var (done, c') := RepairAll(env, c, es[..|es| - 1]);
      var (e, c'') := Step(env, c', es[|es| - 1]);
      (done + [e], c'')
  }

  function RepairNodes(env: Env, c: Caches, nodes: seq<Node>): (r: (seq<Node>, Caches))
    ensures |r.0| == |nodes|
  {
    if nodes == [] then ([], c)
    else
      var (done, c') := RepairNodes(env, c, nodes[..|nodes| - 1]);
      var node := nodes[|nodes| - 1];
      if node.credentials.None? || node.disabled then (done + [node], c')
      else
        var (es, c'') := RepairAll(env, c', node.credentials.value);
        (done + [node.(credentials := Some(es))], c'')
  }

  // ----- The database lookups -----

  lemma {:induction false} FoundById(table: seq<Rec>, id: string, ctype: string)
    ensures FindById(table, id, ctype).Some? ==>
              var r := FindById(table, id, ctype).value; r in table && r.id == id && r.ctype == ctype
    ensures FindById(table, id, ctype).None? ==> forall r :: r in table ==> r.id != id || r.ctype != ctype
  {
    if table != [] { FoundById(table[1..], id, ctype); }
  }

  lemma {:induction false} FoundByName(table: seq<Rec>, name: string, ctype: string)
    ensures forall r :: r in FindByName(table, name, ctype) ==> r in table && r.name == name && r.ctype == ctype
  {
    if table != [] { FoundByName(table[1..], name, ctype); }
  }

  predicate Named(r: Rec, name: string, ctype: string) {
    r.name == name && r.ctype == ctype && r.inProject
  }

  /** `k` is the one place in the table with that name and type in the project. */
  ghost predicate OnlyOne(table: seq<Rec>, k: int, name: string, ctype: string) {
    && 0 <= k < |table| && Named(table[k], name, ctype)
    && forall j :: 0 <= j < |table| && Named(table[j], name, ctype) ==> j == k
  }

  lemma {:induction false} NamedRecords(table: seq<Rec>, name: string, ctype: string)
    ensures FindByName(table, name, ctype) == [] <==> forall k :: 0 <= k < |table| ==> !Named(table[k], name, ctype)
    ensures |FindByName(table, name, ctype)| == 1 <==> exists k :: OnlyOne(table, k, name, ctype)
    ensures forall k :: OnlyOne(table, k, name, ctype) ==> FindByName(table, name, ctype) == [table[k]]
  {
    if table != [] {
      var rest := table[1..];
      NamedRecords(rest, name, ctype);
      assert forall k :: 0 <= k < |rest| ==> rest[k] == table[k + 1];
      if Named(table[0], name, ctype) {
        if FindByName(rest, name, ctype) == [] {
          assert OnlyOne(table, 0, name, ctype);
        } else {
          var k :| 0 <= k < |rest| && Named(rest[k], name, ctype);
          assert Named(table[k + 1], name, ctype);
        }
      } else {
        forall k | OnlyOne(rest, k, name, ctype) ensures OnlyOne(table, k + 1, name, ctype) {}
        forall k | OnlyOne(table, k, name, ctype) ensures k > 0 && OnlyOne(rest, k - 1, name, ctype) {}
      }
    }
  }

  /** A name finds a record exactly if just one in the project has that name and type. */
  lemma UniqueIff(table: seq<Rec>, name: string, ctype: string, r: Rec)
    ensures Unique(table, name, ctype) == Some(r) <==>
            exists k :: OnlyOne(table, k, name, ctype) && table[k] == r
    ensures Unique(table, name, ctype).None? <==> forall k :: !OnlyOne(table, k, name, ctype)
  {
    NamedRecords(table, name, ctype);
  }

  /** A credential found by name can be found again by its id. */
  lemma UniqueIsFound(env: Env, name: string, ctype: string)
    requires ValidEnv(env) && Unique(env.table, name, ctype).Some?
    ensures var r := Unique(env.table, name, ctype).value;
            && r.name == name && r.id !in OBJECT_MEMBERS
            && FindById(env.table, r.id, ctype) == Some(r)
  {
    var r := Unique(env.table, name, ctype).value;
    FoundByName(env.table, name, ctype);
    assert r in env.table;
    FoundById(env.table, r.id, ctype);
    var s := FindById(env.table, r.id, ctype).value;
    var i :| 0 <= i < |env.table| && env.table[i] == r;
    var j :| 0 <= j < |env.table| && env.table[j] == s;
    assert i == j;
  }

  lemma IdIsFound(env: Env, id: string, ctype: string)
    requires ValidEnv(env) && FindById(env.table, id, ctype).Some?
    ensures var r := FindById(env.table, id, ctype).value; r.id == id && id !in OBJECT_MEMBERS
  {
    FoundById(env.table, id, ctype);
    var r := FindById(env.table, id, ctype).value;
    var i :| 0 <= i < |env.table| && env.table[i] == r;
  }

  // ----- What the caches hold, and hence what each entry becomes -----

  predicate HasName(env: Env, e: Entry, ctype: string, name: string) {
    Live(env, e) && OldStyle(e.cred) && e.ctype == ctype && e.cred.name == name
  }

  /** An entry whose id the database does not have, and whose name does not help. */
  predicate Dangling(env: Env, e: Entry, ctype: string, id: string) {
    && Live(env, e) && !OldStyle(e.cred) && e.ctype == ctype && e.cred.id == Some(id)
    && FindById(env.table, id, ctype).None? && Unique(env.table, e.cred.name, ctype).None?
  }

  /** The first dangling entry for that id: the one the cache remembers. */
  function FirstDangling(env: Env, seen: seq<Entry>, ctype: string, id: string): Option<Cred> {
    if seen == [] then None
    else
      var earlier := FirstDangling(env, seen[..|seen| - 1], ctype, id);
      if earlier.Some? then earlier
      else if Dangling(env, seen[|seen| - 1], ctype, id) then Some(seen[|seen| - 1].cred)
      else None
  }

  /** What the cached loop makes of `e` after `seen`, in terms of the database alone. */
  ghost function Expected(env: Env, seen: seq<Entry>, e: Entry): Entry {
    if !Live(env, e) then e
    else if OldStyle(e.cred) then
      if e.cred.name in OBJECT_MEMBERS then Entry(e.ctype, Inherited(e.cred.name))
      else if Unique(env.table, e.cred.name, e.ctype).None?
          && (exists p :: p in seen && HasName(env, p, e.ctype, e.cred.name))
      then Entry(e.ctype, Details(None, e.cred.name, false))
      else Uncached(env, e)
    else
      var id := e.cred.id.value;
      if id in OBJECT_MEMBERS then Entry(e.ctype, Inherited(id))
      else
        match FirstDangling(env, seen, e.ctype, id)
        case Some(first) => Entry(e.ctype, first)
        case None => Uncached(env, e)
  }

  ghost predicate CachesReflect(env: Env, seen: seq<Entry>, c: Caches) {
    && (forall t, n :: (t, n) in c.byName ==>
          && n !in OBJECT_MEMBERS
          && (exists p :: p in seen && HasName(env, p, t, n))
          && c.byName[(t, n)] == match Unique(env.table, n, t)
                                 case Some(r) => Found(r)
                                 case None => Details(None, n, false))
    && (forall p :: p in seen && Live(env, p) && OldStyle(p.cred) ==>
          p.cred.name in OBJECT_MEMBERS || (p.ctype, p.cred.name) in c.byName)
    && (forall t, i :: (t, i) in c.byId ==>
          && i !in OBJECT_MEMBERS
          && match FindById(env.table, i, t)
             case Some(r) => c.byId[(t, i)] == Found(r)
             case None => FirstDangling(env, seen, t, i) == Some(c.byId[(t, i)]))
    && (forall t, i :: FirstDangling(env, seen, t, i).Some? && i !in OBJECT_MEMBERS ==> (t, i) in c.byId)
  }

  lemma {:induction false} FirstDanglingIsDangling(env: Env, seen: seq<Entry>, t: string, i: string)
    ensures FirstDangling(env, seen, t, i).Some? ==>
              exists k :: 0 <= k < |seen| && Dangling(env, seen[k], t, i)
                  && seen[k].cred == FirstDangling(env, seen, t, i).value
    ensures forall k :: 0 <= k < |seen| && Dangling(env, seen[k], t, i) ==> FirstDangling(env, seen, t, i).Some?
  {
    if seen != [] {
      var front := seen[..|seen| - 1];
      FirstDanglingIsDangling(env, front, t, i);
      if FirstDangling(env, front, t, i).Some? {
        var k :| 0 <= k < |front| && Dangling(env, front[k], t, i)
            && front[k].cred == FirstDangling(env, front, t, i).value;
        assert seen[k] == front[k];
      }
      forall k | 0 <= k < |seen| && Dangling(env, seen[k], t, i) ensures FirstDangling(env, seen, t, i).Some? {
        if k < |front| { assert front[k] == seen[k]; }
      }
    }
  }

  lemma FirstDanglingSnoc(env: Env, seen: seq<Entry>, e: Entry, t: string, i: string)
    ensures FirstDangling(env, seen + [e], t, i) ==
            if FirstDangling(env, seen, t, i).Some? then FirstDangling(env, seen, t, i)
            else if Dangling(env, e, t, i) then Some(e.cred) else None
  {
    assert (seen + [e])[..|seen|] == seen;
  }

  lemma StepMatches(env: Env, seen: seq<Entry>, c: Caches, e: Entry)
    requires ValidEnv(env) && CachesReflect(env, seen, c)
    ensures Step(env, c, e).0 == Expected(env, seen, e)
  {
    if Live(env, e) && !OldStyle(e.cred) {
      var id := e.cred.id.value;
      FirstDanglingIsDangling(env, seen, e.ctype, id);
      if FindById(env.table, id, e.ctype).Some? { IdIsFound(env, id, e.ctype); }
    }
  }

  lemma StepReflects(env: Env, seen: seq<Entry>, c: Caches, e: Entry)
    requires ValidEnv(env) && CachesReflect(env, seen, c)
    ensures CachesReflect(env, seen + [e], Step(env, c, e).1)
  {
    var seen', c' := seen + [e], Step(env, c, e).1;
    forall t, i ensures FirstDangling(env, seen', t, i) ==
                        if FirstDangling(env, seen, t, i).Some? then FirstDangling(env, seen, t, i)
                        else if Dangling(env, e, t, i) then Some(e.cred) else None
    { FirstDanglingSnoc(env, seen, e, t, i); }
    assert forall p :: p in seen' <==> p in seen || p == e;
    if Live(env, e) && Unique(env.table, e.cred.name, e.ctype).Some? { UniqueIsFound(env, e.cred.name, e.ctype); }
    if Live(env, e) && !OldStyle(e.cred) && FindById(env.table, e.cred.id.value, e.ctype).Some? {
      IdIsFound(env, e.cred.id.value, e.ctype);
    }
  }

  /** Every entry of the cached loop's output, in closed form. */
  lemma {:induction false} RepairAllMatches(env: Env, es: seq<Entry>)
    requires ValidEnv(env)
    ensures var (out, c) := RepairAll(env, NO_CACHES, es);
            && CachesReflect(env, es, c)
            && forall i :: 0 <= i < |es| ==> out[i] == Expected(env, es[..i], es[i])
  {
    if es != [] {
      var front, e := es[..|es| - 1], es[|es| - 1];
      RepairAllMatches(env, front);
      var (done, c) := RepairAll(env, NO_CACHES, front);
      StepMatches(env, front, c, e);
      StepReflects(env, front, c, e);
      assert front + [e] == es;
      forall i | 0 <= i < |es| ensures RepairAll(env, NO_CACHES, es).0[i] == Expected(env, es[..i], es[i]) {
        if i < |front| { assert front[..i] == es[..i]; }
      }
    }
  }

  // ----- Where a repaired entry points -----

  ghost predicate HasId(table: seq<Rec>, k: int, id: string, ctype: string) {
    0 <= k < |table| && table[k].id == id && table[k].ctype == ctype
  }

  /** The same bare name, or name without an id, asked for under the same type. */
  predicate AsksFor(env: Env, e: Entry, ctype: string, name: string) {
    e.ctype == ctype && ctype !in env.unsafeTypes && (e.cred == Name(name) || e.cred == Details(None, name, false))
  }

  /** The same id asked for under the same type, and not even its name helps. */
  ghost predicate Dangles(env: Env, e: Entry, ctype: string, id: string) {
    && e.ctype == ctype && ctype !in env.unsafeTypes
    && e.cred.Details? && e.cred.id == Some(id) && !e.cred.managed
    && (forall k :: !HasId(env.table, k, id, ctype))
    && (forall k :: !OnlyOne(env.table, k, e.cred.name, ctype))
  }

  /**
   The outcome for a name: the only record in the project with that name and type, or the
   name as it stood, which comes back with a null id from the second time on.
   */
  ghost predicate NameOutcome(env: Env, seen: seq<Entry>, e: Entry, name: string, out: Cred) {
    if name in OBJECT_MEMBERS then out == Inherited(name)
    else if exists k :: OnlyOne(env.table, k, name, e.ctype) then
      exists k :: OnlyOne(env.table, k, name, e.ctype) && out == Details(Some(env.table[k].id), name, false)
    else out == if exists p :: p in seen && AsksFor(env, p, e.ctype, name) then Details(None, name, false) else e.cred
  }

  /**
   The outcome for an id: the record with that id and type, under its present name; else what
   the first entry to ask for that id in vain held; else the outcome for the name.
   */
  ghost predicate IdOutcome(env: Env, seen: seq<Entry>, e: Entry, id: string, name: string, out: Cred) {
    if id in OBJECT_MEMBERS then out == Inherited(id)
    else if exists k :: HasId(env.table, k, id, e.ctype) then
      exists k :: HasId(env.table, k, id, e.ctype) && out == Details(Some(id), env.table[k].name, false)
    else if exists j :: 0 <= j < |seen| && Dangles(env, seen[j], e.ctype, id) then
      exists j :: 0 <= j < |seen| && Dangles(env, seen[j], e.ctype, id) && out == seen[j].cred
                  && forall i :: 0 <= i < j ==> !Dangles(env, seen[i], e.ctype, id)
    else if exists k :: OnlyOne(env.table, k, name, e.ctype) then
      exists k :: OnlyOne(env.table, k, name, e.ctype) && out == Details(Some(env.table[k].id), name, false)
    else out == e.cred
  }

  lemma DanglesIff(env: Env, e: Entry, ctype: string, id: string)
    ensures Dangles(env, e, ctype, id) <==> Dangling(env, e, ctype, id)
  {
    FoundIdIff(env.table, id, ctype);
    if e.cred.Details? { UniqueIff(env.table, e.cred.name, ctype, Rec("", "", "", false)); }
  }

  lemma FoundIdIff(table: seq<Rec>, id: string, ctype: string)
    ensures FindById(table, id, ctype).Some? <==> exists k :: HasId(table, k, id, ctype)
    ensures FindById(table, id, ctype).Some? ==>
              exists k :: HasId(table, k, id, ctype) && table[k] == FindById(table, id, ctype).value
  {
    FoundById(table, id, ctype);
    if k :| HasId(table, k, id, ctype) { assert table[k] in table; }
    if FindById(table, id, ctype).Some? {
      var k :| 0 <= k < |table| && table[k] == FindById(table, id, ctype).value;
      assert HasId(table, k, id, ctype);
    }
  }

  lemma {:induction false} FirstDanglingIsFirst(env: Env, seen: seq<Entry>, t: string, i: string)
    ensures FirstDangling(env, seen, t, i).Some? <==> exists j :: 0 <= j < |seen| && Dangles(env, seen[j], t, i)
    ensures FirstDangling(env, seen, t, i).Some? ==>
              exists j :: 0 <= j < |seen| && Dangles(env, seen[j], t, i)
                  && FirstDangling(env, seen, t, i).value == seen[j].cred
                  && forall k :: 0 <= k < j ==> !Dangles(env, seen[k], t, i)
  {
    hide Dangles, Dangling;
    if seen != [] {
      var n := |seen| - 1;
      var front := seen[..n];
      FirstDanglingIsFirst(env, front, t, i);
      DanglesIff(env, seen[n], t, i);
      assert forall k :: 0 <= k < n ==> front[k] == seen[k];
      if FirstDangling(env, front, t, i).Some? {
        var j :| 0 <= j < |front| && Dangles(env, front[j], t, i)
            && FirstDangling(env, front, t, i).value == front[j].cred
            && forall k :: 0 <= k < j ==> !Dangles(env, front[k], t, i);
        assert Dangles(env, seen[j], t, i);
      }
    }
  }

  lemma NameOutcomeHolds(env: Env, seen: seq<Entry>, e: Entry, name: string)
    requires ValidEnv(env) && AsksFor(env, e, e.ctype, name)
    ensures Expected(env, seen, e).ctype == e.ctype && NameOutcome(env, seen, e, name, Expected(env, seen, e).cred)
  {
    hide FindByName;
    var u := Unique(env.table, name, e.ctype);
    UniqueIff(env.table, name, e.ctype, if u.Some? then u.value else Rec("", "", "", false));
    forall p ensures HasName(env, p, e.ctype, name) <==> AsksFor(env, p, e.ctype, name) {}
  }

  lemma IdOutcomeHolds(env: Env, seen: seq<Entry>, e: Entry, id: string, name: string)
    requires ValidEnv(env) && e.ctype !in env.unsafeTypes && e.cred == Details(Some(id), name, false)
    ensures Expected(env, seen, e).ctype == e.ctype && IdOutcome(env, seen, e, id, name, Expected(env, seen, e).cred)
  {
    hide FirstDangling, FindById, Unique, Dangles, Dangling, OnlyOne;
    FoundIdIff(env.table, id, e.ctype);
    FirstDanglingIsFirst(env, seen, e.ctype, id);
    var u := Unique(env.table, name, e.ctype);
    UniqueIff(env.table, name, e.ctype, if u.Some? then u.value else Rec("", "", "", false));
    if u.Some? { UniqueIsFound(env, name, e.ctype); }
    if FindById(env.table, id, e.ctype).Some? { NothingDangles(env, seen, e.ctype, id); }
  }

  /**
   Every entry of the repaired list, in terms of the table's own records and the entries
   before it. Entries that are absent, gateway-managed or of an unsafe type stay as they are.
   */
  lemma RepairedEntry(env: Env, es: seq<Entry>, i: nat)
    requires ValidEnv(env) && i < |es|
    ensures var out, e := RepairAll(env, NO_CACHES, es).0[i], es[i];
            && out.ctype == e.ctype
            && if e.ctype in env.unsafeTypes then out == e
               else
                 match e.cred
                 case Name(name) => NameOutcome(env, es[..i], e, name, out.cred)
                 case Details(id, name, managed) =>
                   if managed then out == e
                   else if id == None then NameOutcome(env, es[..i], e, name, out.cred)
                   else IdOutcome(env, es[..i], e, id.value, name, out.cred)
                 case _ => out == e
  {
    hide NameOutcome, IdOutcome, RepairAll;
    RepairAllMatches(env, es);
    var e := es[i];
    if e.ctype !in env.unsafeTypes {
      match e.cred
      case Name(name) => NameOutcomeHolds(env, es[..i], e, name);
      case Details(id, name, managed) =>
        if !managed {
          if id == None {
            NameOutcomeHolds(env, es[..i], e, name);
          } else {
            IdOutcomeHolds(env, es[..i], e, id.value, name);
          }
        }
      case _ =>
    }
  }

  // ----- When the caches are invisible -----

  /** A bare name that was looked up in vain may come back as `{ id: null, name }`. */
  function Normal(e: Entry): Entry {
    if e.cred.Name? then Entry(e.ctype, Details(None, e.cred.name, false)) else e
  }

  function Key(c: Cred): string
    requires c.Name? || c.Details?
  {
    if OldStyle(c) then c.name else c.id.value
  }

  /** No name or id that is looked up is also the name of an object member. */
  ghost predicate OwnKeys(env: Env, es: seq<Entry>) {
    forall e :: e in es && Live(env, e) ==> Key(e.cred) !in OBJECT_MEMBERS
  }

  /** Entries after a dangling one that share its type and id also share its name. */
  ghost predicate DanglingIdsAgree(env: Env, es: seq<Entry>) {
    forall j, i :: 0 <= j < i < |es| && Live(env, es[i]) && !OldStyle(es[i].cred)
                   && Dangling(env, es[j], es[i].ctype, es[i].cred.id.value)
                   ==> es[i].cred.name == es[j].cred.name
  }

  /** The output entry by entry, against the reference. */
  ghost predicate Transparent(env: Env, es: seq<Entry>) {
    forall i :: 0 <= i < |es| ==> Normal(RepairAll(env, NO_CACHES, es).0[i]) == Normal(Uncached(env, es[i]))
  }

  /** Caching is transparent exactly when keys are own and dangling ids agree on their name. */
  lemma RepairIsTransparent(env: Env, es: seq<Entry>)
    requires ValidEnv(env)
    ensures Transparent(env, es) <==> OwnKeys(env, es) && DanglingIdsAgree(env, es)
  {
    RepairAllMatches(env, es);
    if OwnKeys(env, es) && DanglingIdsAgree(env, es) {
      forall i | 0 <= i < |es| ensures Normal(Expected(env, es[..i], es[i])) == Normal(Uncached(env, es[i])) {
        AgreeingEntry(env, es, i);
      }
    }
    if Transparent(env, es) {
      forall i | 0 <= i < |es| && Live(env, es[i]) ensures Key(es[i].cred) !in OBJECT_MEMBERS {
        assert Normal(Expected(env, es[..i], es[i])) == Normal(Uncached(env, es[i]));
      }
      forall j, i | 0 <= j < i < |es| && Live(env, es[i]) && !OldStyle(es[i].cred)
                    && Dangling(env, es[j], es[i].ctype, es[i].cred.id.value)
        ensures es[i].cred.name == es[j].cred.name
      {
        assert Key(es[i].cred) !in OBJECT_MEMBERS;
        DisagreementShows(env, es, j, i);
      }
    }
  }

  lemma AgreeingEntry(env: Env, es: seq<Entry>, i: nat)
    requires ValidEnv(env) && i < |es| && OwnKeys(env, es) && DanglingIdsAgree(env, es)
    ensures Normal(Expected(env, es[..i], es[i])) == Normal(Uncached(env, es[i]))
  {
    var e := es[i];
    if Live(env, e) && !OldStyle(e.cred) {
      var id := e.cred.id.value;
      FirstDanglingIsDangling(env, es[..i], e.ctype, id);
      if FirstDangling(env, es[..i], e.ctype, id).Some? {
        var k :| 0 <= k < i && Dangling(env, es[..i][k], e.ctype, id)
            && es[..i][k].cred == FirstDangling(env, es[..i], e.ctype, id).value;
        assert Dangling(env, es[k], e.ctype, id);
      }
    }
  }

  /** The reference keeps the name of an entry whose id the database does not have. */
  lemma UncachedKeepsName(env: Env, e: Entry)
    requires ValidEnv(env) && Live(env, e) && !OldStyle(e.cred) && FindById(env.table, e.cred.id.value, e.ctype).None?
    ensures Uncached(env, e).cred.Details? && Uncached(env, e).cred.name == e.cred.name
  {
    if Unique(env.table, e.cred.name, e.ctype).Some? { UniqueIsFound(env, e.cred.name, e.ctype); }
  }

  lemma DisagreementShows(env: Env, es: seq<Entry>, j: nat, i: nat)
    requires ValidEnv(env) && j < i < |es| && Live(env, es[i]) && !OldStyle(es[i].cred)
    requires Dangling(env, es[j], es[i].ctype, es[i].cred.id.value)
    requires es[i].cred.id.value !in OBJECT_MEMBERS
    requires Normal(Expected(env, es[..i], es[i])) == Normal(Uncached(env, es[i]))
    requires Normal(Expected(env, es[..j], es[j])) == Normal(Uncached(env, es[j]))
    ensures es[i].cred.name == es[j].cred.name
  {
    var t, id := es[i].ctype, es[i].cred.id.value;
    FirstDanglingIsDangling(env, es[..i], t, id);
    assert es[..i][j] == es[j];
    UncachedKeepsName(env, es[i]);
    UncachedKeepsName(env, es[j]);
    FirstDanglingGrows(env, es, j, i, t, id);
  }

  lemma {:induction false} FirstDanglingGrows(env: Env, es: seq<Entry>, j: nat, i: nat, t: string, id: string)
    requires j < i <= |es| && Dangling(env, es[j], t, id)
    ensures FirstDangling(env, es[..i], t, id) ==
            if FirstDangling(env, es[..j], t, id).Some? then FirstDangling(env, es[..j], t, id) else Some(es[j].cred)
    decreases i
  {
    assert es[..i] == es[..i - 1] + [es[i - 1]];
    FirstDanglingSnoc(env, es[..i - 1], es[i - 1], t, id);
    if j < i - 1 { FirstDanglingGrows(env, es, j, i - 1, t, id); }
  }

  // ----- Repairing twice -----

  /** What the loop writes is what it would write again. */
  lemma {:induction false} RepairIsIdempotent(env: Env, es: seq<Entry>)
    requires ValidEnv(env) && OwnKeys(env, es)
    ensures var out := RepairAll(env, NO_CACHES, es).0; RepairAll(env, NO_CACHES, out).0 == out
  {
    var out := RepairAll(env, NO_CACHES, es).0;
    RepairAllMatches(env, es);
    RepairAllMatches(env, out);
    forall i | 0 <= i < |es| ensures RepairAll(env, NO_CACHES, out).0[i] == out[i] {
      RepairedEntryStays(env, es, out, i);
    }
  }

  ghost predicate IsOutput(env: Env, es: seq<Entry>, out: seq<Entry>) {
    |out| == |es| && forall i :: 0 <= i < |es| ==> out[i] == Expected(env, es[..i], es[i])
  }

  lemma {:induction false} SameFirstDangling(env: Env, es: seq<Entry>, out: seq<Entry>, i: nat, t: string, id: string)
    requires ValidEnv(env) && OwnKeys(env, es) && IsOutput(env, es, out) && i <= |es|
    ensures FirstDangling(env, out[..i], t, id) == FirstDangling(env, es[..i], t, id)
  {
    hide FirstDangling, Expected, ValidEnv;
    if i == 0 {
      assert out[..0] == es[..0];
    } else {
      SameFirstDangling(env, es, out, i - 1, t, id);
      assert out[..i] == out[..i - 1] + [out[i - 1]] && es[..i] == es[..i - 1] + [es[i - 1]];
      SameDanglingStep(env, es[..i - 1], out[..i - 1], es[i - 1], t, id);
    }
  }

  lemma SameDanglingStep(env: Env, seen: seq<Entry>, seenOut: seq<Entry>, e: Entry, t: string, id: string)
    requires ValidEnv(env) && (Live(env, e) ==> Key(e.cred) !in OBJECT_MEMBERS)
    requires FirstDangling(env, seenOut, t, id) == FirstDangling(env, seen, t, id)
    ensures FirstDangling(env, seenOut + [Expected(env, seen, e)], t, id) == FirstDangling(env, seen + [e], t, id)
  {
    FirstDanglingSnoc(env, seenOut, Expected(env, seen, e), t, id);
    FirstDanglingSnoc(env, seen, e, t, id);
    if FirstDangling(env, seen, t, id).None? { RepairedEntryDangles(env, seen, e, t, id); }
  }

  /** While nothing dangles yet, repairing neither creates nor hides a dangling entry. */
  lemma RepairedEntryDangles(env: Env, seen: seq<Entry>, e: Entry, t: string, id: string)
    requires ValidEnv(env) && (Live(env, e) ==> Key(e.cred) !in OBJECT_MEMBERS)
    requires FirstDangling(env, seen, t, id).None?
    ensures Dangling(env, Expected(env, seen, e), t, id) <==> Dangling(env, e, t, id)
    ensures Dangling(env, e, t, id) ==> Expected(env, seen, e) == e
  {
    if Live(env, e) {
      if Unique(env.table, e.cred.name, e.ctype).Some? { UniqueIsFound(env, e.cred.name, e.ctype); }
      if !OldStyle(e.cred) {
        FirstDanglingIsDangling(env, seen, e.ctype, e.cred.id.value);
        if FindById(env.table, e.cred.id.value, e.ctype).Some? { IdIsFound(env, e.cred.id.value, e.ctype); }
      }
    }
  }

  lemma RepairedEntryStays(env: Env, es: seq<Entry>, out: seq<Entry>, i: nat)
    requires ValidEnv(env) && OwnKeys(env, es) && IsOutput(env, es, out) && i < |es|
    ensures Expected(env, out[..i], out[i]) == out[i]
  {
    var e, e' := es[i], out[i];
    if Live(env, e) {
      assert Key(e.cred) !in OBJECT_MEMBERS;
      if Unique(env.table, e.cred.name, e.ctype).Some? { UniqueIsFound(env, e.cred.name, e.ctype); }
      if OldStyle(e.cred) {
        if Unique(env.table, e.cred.name, e.ctype).None? {
          NamesCarryOver(env, es, out, i, e.ctype, e.cred.name);
        } else {
          NothingDangles(env, out[..i], e'.ctype, e'.cred.id.value);
        }
      } else {
        var id := e.cred.id.value;
        FirstDanglingIsDangling(env, es[..i], e.ctype, id);
        SameFirstDangling(env, es, out, i, e.ctype, id);
        if FindById(env.table, id, e.ctype).Some? { IdIsFound(env, id, e.ctype); }
        if FirstDangling(env, es[..i], e.ctype, id).None? && Uncached(env, e) != e {
          NothingDangles(env, out[..i], e'.ctype, e'.cred.id.value);
        }
      }
    }
  }

  lemma NothingDangles(env: Env, seen: seq<Entry>, t: string, id: string)
    requires FindById(env.table, id, t).Some?
    ensures FirstDangling(env, seen, t, id).None?
  {
    FirstDanglingIsDangling(env, seen, t, id);
  }

  /** An unmatched name occurs in the output before `i` exactly where it did in the input. */
  lemma NamesCarryOver(env: Env, es: seq<Entry>, out: seq<Entry>, i: nat, t: string, n: string)
    requires ValidEnv(env) && OwnKeys(env, es) && IsOutput(env, es, out) && i <= |es|
    requires Unique(env.table, n, t).None?
    ensures (exists p :: p in out[..i] && HasName(env, p, t, n))
            <==> (exists p :: p in es[..i] && HasName(env, p, t, n))
  {
    forall k | 0 <= k < i ensures HasName(env, out[k], t, n) <==> HasName(env, es[k], t, n) {
      var e := es[k];
      if Live(env, e) {
        assert Key(e.cred) !in OBJECT_MEMBERS;
        if !OldStyle(e.cred) { FirstDanglingIsDangling(env, es[..k], e.ctype, e.cred.id.value); }
      }
    }
    if p :| p in out[..i] && HasName(env, p, t, n) {
      var k :| 0 <= k < i && out[..i][k] == p;
      assert es[k] in es[..i] && HasName(env, es[k], t, n);
    }
    if p :| p in es[..i] && HasName(env, p, t, n) {
      var k :| 0 <= k < i && es[..i][k] == p;
      assert out[k] in out[..i] && HasName(env, out[k], t, n);
    }
  }

  // ----- Database pressure -----

  /** The old-style path asks for each type and name at most once. */
  lemma {:induction false} OldStyleQueriesOnce(env: Env, es: seq<Entry>)
    ensures var log := RepairAll(env, NO_CACHES, es).1.log;
            forall i, j :: 0 <= i < j < |log| && log[i].ByName? && log[i].oldStyle ==> log[i] != log[j]
    ensures var c := RepairAll(env, NO_CACHES, es).1;
            forall q :: q in c.log && q.ByName? && q.oldStyle ==> (q.ctype, q.name) in c.byName
  {
    if es != [] { OldStyleQueriesOnce(env, es[..|es| - 1]); }
  }

  /** Some entry looked up by id has been written with this id. */
  ghost predicate WrittenAs(env: Env, seen: seq<Entry>, ctype: string, id: string) {
    exists k :: 0 <= k < |seen| && WritesId(env, seen, k, ctype, id)
  }

  ghost predicate WritesId(env: Env, seen: seq<Entry>, k: int, ctype: string, id: string) {
    && 0 <= k < |seen| && Live(env, seen[k]) && !OldStyle(seen[k].cred) && seen[k].ctype == ctype
    && var out := Expected(env, seen[..k], seen[k]).cred; out.Details? && out.id == Some(id)
  }

  /** What the loop asks the database for one entry, in terms of the entries before it. */
  ghost function QueriesFor(env: Env, seen: seq<Entry>, e: Entry): seq<Query> {
    if !Live(env, e) then []
    else if OldStyle(e.cred) then
      if e.cred.name in OBJECT_MEMBERS || exists p :: p in seen && HasName(env, p, e.ctype, e.cred.name) then []
      else [ByName(e.ctype, e.cred.name, true)]
    else
      var id := e.cred.id.value;
      if id in OBJECT_MEMBERS || WrittenAs(env, seen, e.ctype, id) then []
      else if FindById(env.table, id, e.ctype).Some? then [ById(e.ctype, id)]
      else [ById(e.ctype, id), ByName(e.ctype, e.cred.name, false)]
  }

  ghost function AllQueries(env: Env, es: seq<Entry>): seq<Query> {
    if es == [] then [] else AllQueries(env, es[..|es| - 1]) + QueriesFor(env, es[..|es| - 1], es[|es| - 1])
  }

  /** The by-id cache remembers exactly the ids that entries looked up by id were written with. */
  ghost predicate IdsReflect(env: Env, seen: seq<Entry>, c: Caches) {
    forall t, i :: (t, i) in c.byId <==> WrittenAs(env, seen, t, i)
  }

  lemma WrittenAsSnoc(env: Env, seen: seq<Entry>, e: Entry, t: string, i: string)
    ensures WrittenAs(env, seen + [e], t, i) <==> WrittenAs(env, seen, t, i) || WritesId(env, seen + [e], |seen|, t, i)
  {
    hide Expected, Live, OldStyle;
    forall k | 0 <= k < |seen| ensures WritesId(env, seen + [e], k, t, i) <==> WritesId(env, seen, k, t, i) {
      assert (seen + [e])[..k] == seen[..k];
    }
  }

  lemma StepWritesId(env: Env, seen: seq<Entry>, c: Caches, e: Entry, t: string, i: string)
    requires ValidEnv(env) && CachesReflect(env, seen, c) && IdsReflect(env, seen, c)
    ensures (t, i) in Step(env, c, e).1.byId <==> (t, i) in c.byId || WritesId(env, seen + [e], |seen|, t, i)
  {
    assert (seen + [e])[..|seen|] == seen;
    StepMatches(env, seen, c, e);
    if Live(env, e) && !OldStyle(e.cred) {
      var id := e.cred.id.value;
      if Unique(env.table, e.cred.name, e.ctype).Some? { UniqueIsFound(env, e.cred.name, e.ctype); }
      if FindById(env.table, id, e.ctype).Some? { IdIsFound(env, id, e.ctype); }
      FirstDanglingIsDangling(env, seen, e.ctype, id);
    }
  }

  lemma StepAsks(env: Env, seen: seq<Entry>, c: Caches, e: Entry)
    requires ValidEnv(env) && CachesReflect(env, seen, c) && IdsReflect(env, seen, c)
    ensures Step(env, c, e).1.log == c.log + QueriesFor(env, seen, e)
  {
    hide WrittenAs;
  }

  /**
   The queries of the loop, exactly: a name once per type; an id unless an entry looked up by
   id was written with it before. An id the database lacks is asked for again, and its name
   too, by each entry that asks for it, as long as the name resolves.
   */
  lemma {:induction false} QueriesMade(env: Env, es: seq<Entry>)
    requires ValidEnv(env)
    ensures var c := RepairAll(env, NO_CACHES, es).1; IdsReflect(env, es, c) && c.log == AllQueries(env, es)
  {
    hide Step, WritesId, QueriesFor;
    if es != [] {
      var front, e := es[..|es| - 1], es[|es| - 1];
      QueriesMade(env, front);
      RepairAllMatches(env, front);
      var c := RepairAll(env, NO_CACHES, front).1;
      assert front + [e] == es;
      StepAsks(env, front, c, e);
      forall t, i ensures (t, i) in Step(env, c, e).1.byId <==> WrittenAs(env, es, t, i) {
        WrittenAsSnoc(env, front, e, t, i);
        StepWritesId(env, front, c, e, t, i);
      }
    }
  }

  // ----- Whole workflows -----

  /** The entries the loop visits: those of enabled nodes, in order. */
  function Visited(nodes: seq<Node>): seq<Entry> {
    if nodes == [] then []
    else
      var node := nodes[|nodes| - 1];
      Visited(nodes[..|nodes| - 1]) + (if node.credentials.None? || node.disabled then [] else node.credentials.value)
  }

  lemma {:induction false} RepairAllConcat(env: Env, c: Caches, a: seq<Entry>, b: seq<Entry>)
    ensures var (ra, ca) := RepairAll(env, c, a);
            var (rb, cb) := RepairAll(env, ca, b);
            RepairAll(env, c, a + b) == (ra + rb, cb)
  {
    if b == [] {
      assert a + b == a;
      assert RepairAll(env, c, a).0 + [] == RepairAll(env, c, a).0;
    } else {
      RepairAllConcat(env, c, a, b[..|b| - 1]);
      assert (a + b)[..|a + b| - 1] == a + b[..|b| - 1];
      var (ra, ca) := RepairAll(env, c, a);
      var (rb, cb) := RepairAll(env, ca, b[..|b| - 1]);
      var e := Step(env, cb, b[|b| - 1]).0;
      assert ra + (rb + [e]) == (ra + rb) + [e];
    }
  }

  /** One pair of caches serves all nodes: the workflow is repaired as one list of entries. */
  lemma {:induction false} NodesAreOneList(env: Env, nodes: seq<Node>)
    ensures var (out, c) := RepairNodes(env, NO_CACHES, nodes);
            RepairAll(env, NO_CACHES, Visited(nodes)) == (Visited(out), c)
  {
    if nodes != [] {
      var front, node := nodes[..|nodes| - 1], nodes[|nodes| - 1];
      NodesAreOneList(env, front);
      var (done, c) := RepairNodes(env, NO_CACHES, front);
      var out := RepairNodes(env, NO_CACHES, nodes).0;
      assert out[..|out| - 1] == done;
      if node.credentials.None? || node.disabled {
        assert Visited(front) + [] == Visited(front) && Visited(done) + [] == Visited(done);
      } else {
        RepairAllConcat(env, NO_CACHES, Visited(front), node.credentials.value);
      }
    }
  }

  /** Disabled nodes, and entries that are absent, unsafe or gateway-managed, are never touched. */
  lemma {:induction false} UntouchedNodes(env: Env, c: Caches, nodes: seq<Node>, i: nat)
    requires i < |nodes|
    ensures var node, node' := nodes[i], RepairNodes(env, c, nodes).0[i];
            && node'.disabled == node.disabled && node'.credentials.Some? == node.credentials.Some?
            && (node.disabled ==> node' == node)
            && (node.credentials.Some? ==>
                  && |node'.credentials.value| == |node.credentials.value|
                  && forall k :: 0 <= k < |node.credentials.value| ==>
                       && node'.credentials.value[k].ctype == node.credentials.value[k].ctype
                       && (!Live(env, node.credentials.value[k]) ==>
                          node'.credentials.value[k] == node.credentials.value[k]))
  {
    if i < |nodes| - 1 {
      UntouchedNodes(env, c, nodes[..|nodes| - 1], i);
    } else if nodes[i].credentials.Some? && !nodes[i].disabled {
      UntouchedEntries(env, RepairNodes(env, c, nodes[..i]).1, nodes[i].credentials.value);
    }
  }

  lemma {:induction false} UntouchedEntries(env: Env, c: Caches, es: seq<Entry>)
    ensures forall k :: 0 <= k < |es| ==>
              && RepairAll(env, c, es).0[k].ctype == es[k].ctype
              && (!Live(env, es[k]) ==> RepairAll(env, c, es).0[k] == es[k])
  {
    if es != [] { UntouchedEntries(env, c, es[..|es| - 1]); }
  }

  /** The same nodes, up to what their credential entries hold. */
  ghost predicate SameShape(nodes: seq<Node>, nodes': seq<Node>) {
    && |nodes| == |nodes'|
    && forall i :: 0 <= i < |nodes| ==>
         && nodes'[i].disabled == nodes[i].disabled && nodes'[i].credentials.Some? == nodes[i].credentials.Some?
         && (nodes[i].disabled ==> nodes'[i] == nodes[i])
         && (nodes[i].credentials.Some? ==> |nodes'[i].credentials.value| == |nodes[i].credentials.value|)
  }

  lemma RepairKeepsShape(env: Env, nodes: seq<Node>)
    ensures SameShape(nodes, RepairNodes(env, NO_CACHES, nodes).0)
  {
    forall i | 0 <= i < |nodes|
      ensures var node, node' := nodes[i], RepairNodes(env, NO_CACHES, nodes).0[i];
              && node'.disabled == node.disabled && node'.credentials.Some? == node.credentials.Some?
              && (node.disabled ==> node' == node)
              && (node.credentials.Some? ==> |node'.credentials.value| == |node.credentials.value|)
    {
      UntouchedNodes(env, NO_CACHES, nodes, i);
    }
  }

  /** Shape and visited entries together determine the nodes. */
  lemma {:induction false} VisitedDetermines(nodes: seq<Node>, nodes': seq<Node>)
    requires SameShape(nodes, nodes') && Visited(nodes) == Visited(nodes')
    ensures nodes == nodes'
  {
    if nodes != [] {
      var n := |nodes| - 1;
      var front, front', node, node' := nodes[..n], nodes'[..n], nodes[n], nodes'[n];
      assert SameShape(front, front') by {
        assert forall i :: 0 <= i < n ==> front[i] == nodes[i] && front'[i] == nodes'[i];
      }
      if node.credentials.Some? && !node.disabled {
        var es, es' := node.credentials.value, node'.credentials.value;
        var all := Visited(nodes);
        assert all == Visited(front) + es == Visited(front') + es';
        assert |Visited(front)| == |all| - |es| == |Visited(front')|;
        assert es == all[|all| - |es|..] == es' && Visited(front) == all[..|all| - |es|] == Visited(front');
      } else {
        assert Visited(nodes) == Visited(front) + [] == Visited(front);
        assert Visited(nodes') == Visited(front') + [] == Visited(front');
      }
      VisitedDetermines(front, front');
      assert nodes == front + [node] && nodes' == front' + [node'];
    }
  }

  /** Repairing a repaired workflow changes nothing in it. */
  lemma RepairNodesIsIdempotent(env: Env, nodes: seq<Node>)
    requires ValidEnv(env) && OwnKeys(env, Visited(nodes))
    ensures var out := RepairNodes(env, NO_CACHES, nodes).0; RepairNodes(env, NO_CACHES, out).0 == out
  {
    var out := RepairNodes(env, NO_CACHES, nodes).0;
    var again := RepairNodes(env, NO_CACHES, out).0;
    NodesAreOneList(env, nodes);
    NodesAreOneList(env, out);
    RepairIsIdempotent(env, Visited(nodes));
    RepairKeepsShape(env, out);
    VisitedDetermines(out, again);
  }

  /** packages/cli/src/workflow-helpers.ts: the loop, updating the workflow's nodes in place. */
  method ReplaceInvalidCredentials(env: Env, nodes: array<Node>) returns (log: seq<Query>)
    modifies nodes
    ensures nodes[..] == RepairNodes(env, NO_CACHES, old(nodes[..])).0
    ensures log == RepairNodes(env, NO_CACHES, old(nodes[..])).1.log
  {
    ghost var was := nodes[..];
    var caches := NO_CACHES;
    for i := 0 to nodes.Length
      invariant nodes[i..] == was[i..]
      invariant (nodes[..i], caches) == RepairNodes(env, NO_CACHES, was[..i])
    {
      assert was[..i + 1][..i] == was[..i];
      var node := nodes[i];
      assert node == nodes[i..][0] == was[i];
      if node.credentials.Some? && !node.disabled {
        var es := node.credentials.value;
        ghost var start := caches;
        for k := 0 to |es|
          invariant |es| == |node.credentials.value|
          invariant es[k..] == node.credentials.value[k..]
          invariant (es[..k], caches) == RepairAll(env, start, node.credentials.value[..k])
        {
          assert node.credentials.value[..k + 1][..k] == node.credentials.value[..k];
          assert es[k] == es[k..][0] == node.credentials.value[k];
          var (e, caches') := Step(env, caches, es[k]);
          ghost var done := es[..k];
          es, caches := es[k := e], caches';
          assert es[..k + 1] == done + [e];
        }
        assert es[..|es|] == es && node.credentials.value[..|es|] == node.credentials.value;
        nodes[i] := node.(credentials := Some(es));
      }
      assert nodes[..i + 1] == nodes[..i] + [nodes[i]];
    }
    assert was[..nodes.Length] == was && nodes[..nodes.Length] == nodes[..];
    log := caches.log;
  }
}
