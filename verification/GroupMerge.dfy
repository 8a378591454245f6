/**
 `mergeGroups` (`backup/file.ts`): the file's groups merged by id into the saved ones,
 a taken name resolving to the group that holds it, and every reference to a group
 that lost its name repointed.
 */
module GroupMerge {
  import opened Records

  /** A store of groups, keyed by id. */
  type Shelf = map<Id, Group>

  ghost predicate Keyed(d: Shelf) {
    forall x | x in d :: d[x].id == x
  }

  /** Folded names are unique, `key` being the store's own folding. */
  ghost predicate UniqueNames(d: Shelf, key: string -> string) {
    forall x, y | x in d && y in d && x != y :: key(d[x].name) != key(d[y].name)
  }

  /** Rows laid over a store, a later row winning. */
  function Shelve(gs: seq<Group>, d: Shelf): Shelf {
    if gs == [] then d
    else Shelve(gs[..|gs| - 1], d)[gs[|gs| - 1].id := gs[|gs| - 1]]
  }

  lemma {:induction false} ShelvedIs(gs: seq<Group>, d: Shelf, x: Id)
    ensures x in Shelve(gs, d) <==> x in d || exists g :: g in gs && g.id == x
    ensures x in Shelve(gs, d) ==> (exists g :: g in gs && g.id == x && Shelve(gs, d)[x] == g)
                                   || (x in d && Shelve(gs, d)[x] == d[x] && forall g | g in gs :: g.id != x)
  {
    if gs != [] {
      var n := |gs| - 1;
      ShelvedIs(gs[..n], d, x);
      assert gs == gs[..n] + [gs[n]];
      assert gs[n] in gs;
    }
  }

  // ------------------------------------------------------------------- the merge

  datatype Merging = Merging(owner: map<string, Id>, survivors: seq<Group>, remap: map<Id, Id>, kept: nat)

  /** Who holds each folded name before the file is read. */
  ghost predicate Owners(owner: map<string, Id>, d: Shelf, key: string -> string) {
    && (forall x | x in d :: key(d[x].name) in owner && owner[key(d[x].name)] == x)
    && (forall k | k in owner :: owner[k] in d && key(d[owner[k]].name) == k)
  }

  /** One incoming row. */
  function MergeRow(s: Merging, g: Group, d: Shelf, key: string -> string): Merging {
    if g.id in d && key(d[g.id].name) != key(g.name) then s.(kept := s.kept + 1)
    else if key(g.name) in s.owner && s.owner[key(g.name)] != g.id
    then s.(remap := s.remap[g.id := s.owner[key(g.name)]])
    else s.(owner := s.owner[key(g.name) := g.id], survivors := s.survivors + [g])
  }

  /** A group the merge leaves in place: saved, or surviving. */
  ghost predicate Placed(s: Merging, d: Shelf, x: Id) {
    x in d || exists g :: g in s.survivors && g.id == x
  }

  /** The folded name a placed group ends up under. */
  ghost predicate NamedAs(s: Merging, d: Shelf, x: Id, k: string, key: string -> string) {
    && (x in d ==> key(d[x].name) == k)
    && (forall g | g in s.survivors && g.id == x :: key(g.name) == k)
  }

  ghost predicate OwnerOk(s: Merging, d: Shelf, key: string -> string, k: string) {
    k in s.owner ==> Placed(s, d, s.owner[k]) && NamedAs(s, d, s.owner[k], k, key)
  }

  ghost predicate SavedOk(s: Merging, d: Shelf, key: string -> string, x: Id) {
    x in d ==> key(d[x].name) in s.owner && s.owner[key(d[x].name)] == x && x !in s.remap
  }

  ghost predicate SurvivorOk(s: Merging, d: Shelf, key: string -> string, g: Group) {
    && key(g.name) in s.owner && s.owner[key(g.name)] == g.id && g.id !in s.remap
    && (g.id in d ==> key(d[g.id].name) == key(g.name))
  }

  /** A remapped row went to the group that holds its folded name. */
  ghost predicate RemapOk(s: Merging, rows: seq<Group>, key: string -> string, x: Id) {
    x in s.remap ==> exists g :: g in rows && g.id == x && key(g.name) in s.owner && s.owner[key(g.name)] == s.remap[x]
  }

  ghost predicate Handled(s: Merging, d: Shelf, x: Id) {
    x in s.remap || Placed(s, d, x)
  }

  /** A row for a saved group under the same folded name survives, spelling and all. */
  ghost predicate Respelled(s: Merging, d: Shelf, key: string -> string, g: Group) {
    g.id in d && key(d[g.id].name) == key(g.name) ==> g in s.survivors
  }

  ghost predicate MergeOk(s: Merging, rows: seq<Group>, d: Shelf, key: string -> string) {
    && (forall k :: OwnerOk(s, d, key, k))
    && (forall x :: SavedOk(s, d, key, x))
    && (forall g | g in s.survivors :: g in rows && SurvivorOk(s, d, key, g))
    && (forall x :: RemapOk(s, rows, key, x))
    && (forall g | g in rows :: Handled(s, d, g.id) && Respelled(s, d, key, g))
    && DistinctGroups(s.survivors)
    && |s.survivors| + |s.remap| + s.kept == |rows| && s.kept == |KeptRows(rows, d, key)|
  }

  /** The file's rows for a saved group under another name. */
  ghost function KeptRows(rows: seq<Group>, d: Shelf, key: string -> string): set<Group> {
    set g | g in rows && g.id in d && key(d[g.id].name) != key(g.name)
  }

  lemma KeptRowsNext(rows: seq<Group>, g: Group, d: Shelf, key: string -> string)
    requires NewRow(rows, g)
    ensures |KeptRows(rows + [g], d, key)| ==
            |KeptRows(rows, d, key)| + if g.id in d && key(d[g.id].name) != key(g.name) then 1 else 0
  {
    if g.id in d && key(d[g.id].name) != key(g.name) {
      assert KeptRows(rows + [g], d, key) == KeptRows(rows, d, key) + {g};
      assert g !in KeptRows(rows, d, key);
    } else {
      assert KeptRows(rows + [g], d, key) == KeptRows(rows, d, key);
    }
  }

  ghost predicate NewRow(rows: seq<Group>, g: Group) {
    forall r | r in rows :: r.id != g.id
  }

  lemma MergeKept(s: Merging, rows: seq<Group>, g: Group, d: Shelf, key: string -> string)
    requires MergeOk(s, rows, d, key) && NewRow(rows, g)
    requires g.id in d && key(d[g.id].name) != key(g.name)
    ensures MergeOk(MergeRow(s, g, d, key), rows + [g], d, key)
  {
    KeptRowsNext(rows, g, d, key);
    var t := MergeRow(s, g, d, key);
    forall k ensures OwnerOk(t, d, key, k) { assert OwnerOk(s, d, key, k); }
    forall x ensures SavedOk(t, d, key, x) { assert SavedOk(s, d, key, x); }
    forall x ensures RemapOk(t, rows + [g], key, x) { assert RemapOk(s, rows, key, x); }
    forall r | r in rows + [g] ensures Handled(t, d, r.id) && Respelled(t, d, key, r) {
      assert r in rows ==> Handled(s, d, r.id) && Respelled(s, d, key, r);
    }
  }

  lemma MergeMoved(s: Merging, rows: seq<Group>, g: Group, d: Shelf, key: string -> string)
    requires MergeOk(s, rows, d, key) && NewRow(rows, g)
    requires g.id in d ==> key(d[g.id].name) == key(g.name)
    requires key(g.name) in s.owner && s.owner[key(g.name)] != g.id
    ensures MergeOk(MergeRow(s, g, d, key), rows + [g], d, key)
  {
    var t := MergeRow(s, g, d, key);
    KeptRowsNext(rows, g, d, key);
    assert SavedOk(s, d, key, g.id);
    assert RemapOk(s, rows, key, g.id);
    Grown(s.remap, g.id, s.owner[key(g.name)]);
    forall k ensures OwnerOk(t, d, key, k) { assert OwnerOk(s, d, key, k); }
    forall x ensures SavedOk(t, d, key, x) { assert SavedOk(s, d, key, x); }
    forall x ensures RemapOk(t, rows + [g], key, x) {
      assert RemapOk(s, rows, key, x);
      assert g in rows + [g];
    }
    forall r | r in rows + [g] ensures Handled(t, d, r.id) && Respelled(t, d, key, r) {
      assert r in rows ==> Handled(s, d, r.id) && Respelled(s, d, key, r);
    }
  }

  lemma Grown(m: map<Id, Id>, x: Id, y: Id)
    requires x !in m
    ensures |m[x := y]| == |m| + 1
  {
    assert m[x := y].Keys == m.Keys + {x};
  }

  lemma MergeKeptWhole(s: Merging, rows: seq<Group>, g: Group, d: Shelf, key: string -> string)
    requires MergeOk(s, rows, d, key) && NewRow(rows, g)
    requires g.id in d ==> key(d[g.id].name) == key(g.name)
    requires !(key(g.name) in s.owner && s.owner[key(g.name)] != g.id)
    ensures MergeOk(MergeRow(s, g, d, key), rows + [g], d, key)
  {
    var t := MergeRow(s, g, d, key);
    KeptRowsNext(rows, g, d, key);
    assert g in t.survivors && g in rows + [g];
    assert RemapOk(s, rows, key, g.id);
    forall k ensures OwnerOk(t, d, key, k) {
      assert OwnerOk(s, d, key, k);
      if k in t.owner && k != key(g.name) {
        OwnerElsewhere(s, rows, g, d, key, k);
      } else if k in t.owner {
        OwnerHere(s, rows, g, d, key);
      }
    }
    forall x ensures SavedOk(t, d, key, x) { assert SavedOk(s, d, key, x); }
    forall r | r in t.survivors ensures r in rows + [g] && SurvivorOk(t, d, key, r) {
      if r in s.survivors {
        assert SurvivorOk(s, d, key, r);
      }
    }
    forall x ensures RemapOk(t, rows + [g], key, x) {
      assert RemapOk(s, rows, key, x);
      RemapStays(s, rows, g, d, key, x);
    }
    forall r | r in rows + [g] ensures Handled(t, d, r.id) && Respelled(t, d, key, r) {
      if r in rows {
        assert Handled(s, d, r.id) && Respelled(s, d, key, r);
        assert Placed(s, d, r.id) ==> Placed(t, d, r.id);
      }
    }
  }

  lemma OwnerElsewhere(s: Merging, rows: seq<Group>, g: Group, d: Shelf, key: string -> string, k: string)
    requires MergeOk(s, rows, d, key) && NewRow(rows, g)
    requires g.id in d ==> key(d[g.id].name) == key(g.name)
    requires k in s.owner && k != key(g.name)
    ensures s.owner[k] != g.id
    ensures Placed(MergeRow(s, g, d, key), d, s.owner[k]) && NamedAs(MergeRow(s, g, d, key), d, s.owner[k], k, key)
  {
    assert OwnerOk(s, d, key, k);
    var x := s.owner[k];
    assert Placed(s, d, x);
    assert x == g.id ==> x in d;
  }

  lemma OwnerHere(s: Merging, rows: seq<Group>, g: Group, d: Shelf, key: string -> string)
    requires MergeOk(s, rows, d, key) && NewRow(rows, g)
    requires g.id in d ==> key(d[g.id].name) == key(g.name)
    ensures var t := s.(survivors := s.survivors + [g]);
            Placed(t, d, g.id) && NamedAs(t, d, g.id, key(g.name), key)
  {
    assert g in s.survivors + [g];
    assert forall r | r in s.survivors :: r in rows;
  }

  lemma RemapStays(s: Merging, rows: seq<Group>, g: Group, d: Shelf, key: string -> string, x: Id)
    requires RemapOk(s, rows, key, x) && !(key(g.name) in s.owner && s.owner[key(g.name)] != g.id)
    requires NewRow(rows, g)
    ensures RemapOk(MergeRow(s, g, d, key), rows + [g], key, x) || (g.id in d && key(d[g.id].name) != key(g.name))
  {
    if x in s.remap {
      var r :| r in rows && r.id == x && key(r.name) in s.owner && s.owner[key(r.name)] == s.remap[x];
      assert r in rows + [g];
    }
  }

  lemma MergeRowKeeps(s: Merging, rows: seq<Group>, g: Group, d: Shelf, key: string -> string)
    requires MergeOk(s, rows, d, key) && NewRow(rows, g)
    ensures MergeOk(MergeRow(s, g, d, key), rows + [g], d, key)
  {
    if g.id in d && key(d[g.id].name) != key(g.name) {
      MergeKept(s, rows, g, d, key);
    } else if key(g.name) in s.owner && s.owner[key(g.name)] != g.id {
      MergeMoved(s, rows, g, d, key);
    } else {
      MergeKeptWhole(s, rows, g, d, key);
    }
  }

  // ---------------------------------------------------------------- the repoint

  function Repoint(x: Option<Id>, remap: map<Id, Id>): Option<Id> {
    if x.Some? && x.value in remap then Some(remap[x.value]) else x
  }

  function RepointGroup(g: Group, remap: map<Id, Id>): Group {
    g.(parent := Repoint(g.parent, remap))
  }

  function RepointHost(h: Host, remap: map<Id, Id>): Host {
    h.(group := Repoint(h.group, remap))
  }

  /** Where a reference to `x` may lead after the merge: itself when it named nothing or
      named a saved group; else a group that exists, `x` or the holder of its name. */
  ghost predicate Lands(x: Option<Id>, y: Option<Id>, rows: seq<Group>, d: Shelf, after: Shelf, key: string -> string) {
    && (x.None? ==> y == x)
    && (x.Some? ==>
          && (x.value in d ==> y == x)
          && ((forall g | g in rows :: g.id != x.value) ==> y == x)
          && (forall g | g in rows && g.id == x.value :: y.Some? && y.value in after
                && (y == x || key(after[y.value].name) == key(g.name))))
  }

  ghost predicate SameRow(a: Group, b: Group) {
    a == b.(parent := a.parent)
  }

  /** The survivors with their parents repointed carry the same ids and names. */
  ghost predicate SameRows(a: seq<Group>, b: seq<Group>) {
    |a| == |b| && forall i | 0 <= i < |a| :: SameRow(a[i], b[i])
  }

  lemma AfterHas(s: Merging, rows: seq<Group>, d: Shelf, key: string -> string, out: seq<Group>, x: Id)
    requires MergeOk(s, rows, d, key) && SameRows(s.survivors, out) && Keyed(d)
    ensures x in Shelve(out, d) <==> Placed(s, d, x)
    ensures x in Shelve(out, d) ==> Shelve(out, d)[x].id == x
    ensures x in Shelve(out, d) ==> key(Shelve(out, d)[x].name) in s.owner
                                    && s.owner[key(Shelve(out, d)[x].name)] == x
    ensures x in d ==> key(Shelve(out, d)[x].name) == key(d[x].name)
  {
    ShelvedIs(out, d, x);
    SameIds(s.survivors, out, x);
    assert SavedOk(s, d, key, x);
    if x in Shelve(out, d) && Shelve(out, d)[x] in out {
      SurvivorName(s, rows, d, key, out, Shelve(out, d)[x]);
    }
  }

  lemma SurvivorName(s: Merging, rows: seq<Group>, d: Shelf, key: string -> string, out: seq<Group>, t: Group)
    requires MergeOk(s, rows, d, key) && SameRows(s.survivors, out) && t in out
    ensures key(t.name) in s.owner && s.owner[key(t.name)] == t.id
    ensures t.id in d ==> key(d[t.id].name) == key(t.name)
  {
    var i :| 0 <= i < |out| && out[i] == t;
    assert s.survivors[i] in s.survivors && SurvivorOk(s, d, key, s.survivors[i]);
  }

  lemma SameIds(a: seq<Group>, b: seq<Group>, x: Id)
    requires SameRows(a, b)
    ensures (exists g :: g in a && g.id == x) <==> (exists g :: g in b && g.id == x)
  {
    if g :| g in a && g.id == x {
      var i :| 0 <= i < |a| && a[i] == g;
      assert b[i] in b && b[i].id == x;
    }
    if g :| g in b && g.id == x {
      var i :| 0 <= i < |b| && b[i] == g;
      assert a[i] in a && a[i].id == x;
    }
  }

  /** What the whole merge promises about the store it leads to. */
  lemma MergedShelf(s: Merging, rows: seq<Group>, d: Shelf, key: string -> string, out: seq<Group>)
    requires MergeOk(s, rows, d, key) && SameRows(s.survivors, out) && Keyed(d)
    ensures Keyed(Shelve(out, d)) && UniqueNames(Shelve(out, d), key)
    ensures forall x | x in d :: x in Shelve(out, d) && key(Shelve(out, d)[x].name) == key(d[x].name)
  {
    forall x ensures x in Shelve(out, d) ==>
                       && Shelve(out, d)[x].id == x
                       && key(Shelve(out, d)[x].name) in s.owner && s.owner[key(Shelve(out, d)[x].name)] == x
             ensures x in d ==> x in Shelve(out, d) && key(Shelve(out, d)[x].name) == key(d[x].name)
    {
      AfterHas(s, rows, d, key, out, x);
    }
  }

  lemma RepointLands(s: Merging, rows: seq<Group>, d: Shelf, key: string -> string, out: seq<Group>, x: Option<Id>)
    requires MergeOk(s, rows, d, key) && SameRows(s.survivors, out) && Keyed(d) && DistinctGroups(rows)
    ensures Lands(x, Repoint(x, s.remap), rows, d, Shelve(out, d), key)
  {
    if x.Some? {
      assert SavedOk(s, d, key, x.value);
      assert RemapOk(s, rows, key, x.value);
      AfterHas(s, rows, d, key, out, x.value);
      forall g | g in rows && g.id == x.value
        ensures var y := Repoint(x, s.remap);
                y.value in Shelve(out, d) && (y == x || key(Shelve(out, d)[y.value].name) == key(g.name))
      {
        assert Handled(s, d, g.id);
        if x.value in s.remap {
          RemappedTo(s, rows, d, key, out, g);
        }
      }
    }
  }

  lemma RemappedTo(s: Merging, rows: seq<Group>, d: Shelf, key: string -> string, out: seq<Group>, g: Group)
    requires MergeOk(s, rows, d, key) && SameRows(s.survivors, out) && Keyed(d) && DistinctGroups(rows)
    requires g in rows && g.id in s.remap
    ensures s.remap[g.id] in Shelve(out, d) && key(Shelve(out, d)[s.remap[g.id]].name) == key(g.name)
  {
    assert RemapOk(s, rows, key, g.id);
    var r :| r in rows && r.id == g.id && key(r.name) in s.owner && s.owner[key(r.name)] == s.remap[g.id];
    SameById(rows, r, g);
    assert OwnerOk(s, d, key, key(g.name));
    var y := s.remap[g.id];
    AfterHas(s, rows, d, key, out, y);
    ShelvedName(s, d, key, out, y, key(g.name));
  }

  lemma SameById(rows: seq<Group>, a: Group, b: Group)
    requires DistinctGroups(rows) && a in rows && b in rows && a.id == b.id
    ensures a == b
  {
  }

  lemma ShelvedName(s: Merging, d: Shelf, key: string -> string, out: seq<Group>, y: Id, k: string)
    requires SameRows(s.survivors, out) && NamedAs(s, d, y, k, key) && y in Shelve(out, d)
    ensures key(Shelve(out, d)[y].name) == k
  {
    ShelvedIs(out, d, y);
    var t := Shelve(out, d)[y];
    if t in out && t.id == y {
      var i :| 0 <= i < |out| && out[i] == t;
      assert s.survivors[i] in s.survivors;
    }
  }

  // -------------------------------------------------------------------- the call

  /** `owner`, from the saved list. */
  method OwnersOf(existing: seq<Group>, key: string -> string) returns (owner: map<string, Id>)
    requires DistinctGroups(existing) && UniqueNames(Shelve(existing, map[]), key)
    ensures Owners(owner, Shelve(existing, map[]), key)
  {
    owner := map[];
    for i := 0 to |existing|
      invariant Owners(owner, Shelve(existing[..i], map[]), key)
    {
      OwnerNext(existing, key, i, owner);
      owner := owner[key(existing[i].name) := existing[i].id];
    }
    assert existing[..|existing|] == existing;
  }

  lemma ShelveSnoc(rows: seq<Group>, i: nat)
    requires i < |rows|
    ensures Shelve(rows[..i + 1], map[]) == Shelve(rows[..i], map[])[rows[i].id := rows[i]]
  {
    assert rows[..i + 1][..i] == rows[..i];
  }

  lemma OwnerNext(existing: seq<Group>, key: string -> string, i: nat, owner: map<string, Id>)
    requires DistinctGroups(existing) && UniqueNames(Shelve(existing, map[]), key) && i < |existing|
    requires Owners(owner, Shelve(existing[..i], map[]), key)
    ensures Owners(owner[key(existing[i].name) := existing[i].id], Shelve(existing[..i + 1], map[]), key)
  {
    var g := existing[i];
    var d := Shelve(existing[..i], map[]);
    ShelveSnoc(existing, i);
    forall x | x in d ensures x != g.id && key(d[x].name) != key(g.name) {
      EarlierDiffers(existing, key, i, x);
    }
    OwnersGrow(owner, d, g, key);
  }

  lemma OwnersGrow(owner: map<string, Id>, d: Shelf, g: Group, key: string -> string)
    requires Owners(owner, d, key)
    requires forall x | x in d :: x != g.id && key(d[x].name) != key(g.name)
    ensures Owners(owner[key(g.name) := g.id], d[g.id := g], key)
  {
    assert key(g.name) !in owner;
  }

  lemma EarlierDiffers(existing: seq<Group>, key: string -> string, i: nat, x: Id)
    requires DistinctGroups(existing) && UniqueNames(Shelve(existing, map[]), key) && i < |existing|
    requires x in Shelve(existing[..i], map[])
    ensures x != existing[i].id && key(Shelve(existing[..i], map[])[x].name) != key(existing[i].name)
  {
    ShelvedIs(existing[..i], map[], x);
    var r := Shelve(existing[..i], map[])[x];
    assert r in existing[..i] && r.id == x;
    var j :| 0 <= j < i && existing[..i][j] == r;
    assert r == existing[j];
    ShelvedAt(existing, r);
    ShelvedAt(existing, existing[i]);
  }

  lemma ShelvedAt(existing: seq<Group>, g: Group)
    requires DistinctGroups(existing) && g in existing
    ensures g.id in Shelve(existing, map[]) && Shelve(existing, map[])[g.id] == g
  {
    ShelvedIs(existing, map[], g.id);
    var r := Shelve(existing, map[])[g.id];
    SameById(existing, r, g);
  }

  lemma ShelfIsKeyed(existing: seq<Group>)
    ensures Keyed(Shelve(existing, map[]))
  {
    forall x | x in Shelve(existing, map[]) ensures Shelve(existing, map[])[x].id == x {
      ShelvedIs(existing, map[], x);
    }
  }

  /** The loop over the file's rows. */
  method MergeRows(incoming: seq<Group>, existing: seq<Group>, key: string -> string) returns (s: Merging)
    requires DistinctGroups(incoming) && DistinctGroups(existing)
    requires UniqueNames(Shelve(existing, map[]), key)
    ensures MergeOk(s, incoming, Shelve(existing, map[]), key)
  {
    var owner := OwnersOf(existing, key);
    var d := Shelve(existing, map[]);
    s := Merging(owner, [], map[], 0);
    NothingMerged(s, d, key);
    for i := 0 to |incoming|
      invariant MergeOk(s, incoming[..i], d, key)
    {
      RowIsNew(incoming, i);
      MergeRowKeeps(s, incoming[..i], incoming[i], d, key);
      s := MergeRow(s, incoming[i], d, key);
    }
    assert incoming[..|incoming|] == incoming;
  }

  lemma RowIsNew(rows: seq<Group>, i: nat)
    requires DistinctGroups(rows) && i < |rows|
    ensures NewRow(rows[..i], rows[i]) && rows[..i + 1] == rows[..i] + [rows[i]]
  {
  }

  lemma NothingMerged(s: Merging, d: Shelf, key: string -> string)
    requires Owners(s.owner, d, key) && s == Merging(s.owner, [], map[], 0)
    ensures MergeOk(s, [], d, key)
  {
  }

  /** A written row is an incoming one whose parent reference has landed. */
  ghost predicate RowLanded(g: Group, rows: seq<Group>, d: Shelf, after: Shelf, key: string -> string) {
    exists r :: r in rows && SameRow(r, g) && Lands(r.parent, g.parent, rows, d, after, key)
  }

  /** The host is itself but for its group, whose reference has landed. */
  ghost predicate HostLanded(h: Host, m: Host, rows: seq<Group>, d: Shelf, after: Shelf, key: string -> string) {
    m == h.(group := m.group) && Lands(h.group, m.group, rows, d, after, key)
  }

  /** A row is among those to write, under its own name. */
  ghost predicate Has(groups: seq<Group>, g: Group) {
    exists r :: r in groups && r.id == g.id && r.name == g.name && r.details == g.details
  }

  /** What becomes of one row of the file: for a saved group it is written exactly when it
      has that group's folded name; for a new one, exactly when it is itself the holder of
      its folded name afterwards. Every folded name of a new row has a holder. */
  ghost predicate RowOutcome(g: Group, groups: seq<Group>, d: Shelf, key: string -> string) {
    && (Has(groups, g) <==> exists r :: r in groups && r.id == g.id)
    && (g.id in d ==> (Has(groups, g) <==> key(d[g.id].name) == key(g.name)))
    && (g.id !in d ==> exists y :: y in Shelve(groups, d) && HoldsName(groups, d, y, g, key))
  }

  ghost predicate HoldsName(groups: seq<Group>, d: Shelf, y: Id, g: Group, key: string -> string)
    requires y in Shelve(groups, d)
  {
    key(Shelve(groups, d)[y].name) == key(g.name) && (Has(groups, g) <==> y == g.id)
  }

  /** Survivors are the file's own rows, by id. */
  lemma SurvivorIsRow(s: Merging, rows: seq<Group>, d: Shelf, key: string -> string, out: seq<Group>, g: Group)
    requires MergeOk(s, rows, d, key) && DistinctGroups(rows) && SameRows(s.survivors, out) && g in rows
    ensures Has(out, g) <==> g in s.survivors
    ensures Has(out, g) <==> exists r :: r in out && r.id == g.id
  {
    if r :| r in out && r.id == g.id {
      var i :| 0 <= i < |out| && out[i] == r;
      assert s.survivors[i] in rows;
      SameById(rows, s.survivors[i], g);
    }
    if g in s.survivors {
      var i :| 0 <= i < |out| && s.survivors[i] == g;
      assert out[i] in out && out[i].id == g.id && out[i].name == g.name;
    }
  }

  lemma RowComesOut(s: Merging, rows: seq<Group>, d: Shelf, key: string -> string, out: seq<Group>, g: Group)
    requires MergeOk(s, rows, d, key) && DistinctGroups(rows) && SameRows(s.survivors, out) && Keyed(d) && g in rows
    ensures RowOutcome(g, out, d, key)
  {
    SurvivorIsRow(s, rows, d, key, out, g);
    assert Handled(s, d, g.id) && Respelled(s, d, key, g);
    if g.id in d {
      assert g in s.survivors ==> SurvivorOk(s, d, key, g);
    } else if g.id in s.remap {
      RemappedTo(s, rows, d, key, out, g);
      RemappedIsNoSurvivor(s, rows, d, key, out, g);
      assert HoldsName(out, d, s.remap[g.id], g, key);
    } else {
      KeeperHoldsName(s, rows, d, key, out, g);
      assert HoldsName(out, d, g.id, g, key);
    }
  }

  lemma RemappedIsNoSurvivor(s: Merging, rows: seq<Group>, d: Shelf, key: string -> string, out: seq<Group>, g: Group)
    requires MergeOk(s, rows, d, key) && SameRows(s.survivors, out) && Keyed(d)
    requires g.id in s.remap && s.remap[g.id] in Shelve(out, d)
    ensures g !in s.survivors && s.remap[g.id] != g.id
  {
    assert g in s.survivors ==> SurvivorOk(s, d, key, g);
    AfterHas(s, rows, d, key, out, g.id);
    assert SavedOk(s, d, key, g.id);
    forall r | r in s.survivors ensures r.id != g.id {
      assert SurvivorOk(s, d, key, r);
    }
  }

  lemma KeeperHoldsName(s: Merging, rows: seq<Group>, d: Shelf, key: string -> string, out: seq<Group>, g: Group)
    requires MergeOk(s, rows, d, key) && DistinctGroups(rows) && SameRows(s.survivors, out) && Keyed(d)
    requires g in rows && g.id !in d && g.id !in s.remap
    ensures g in s.survivors && g.id in Shelve(out, d) && key(Shelve(out, d)[g.id].name) == key(g.name)
  {
    assert Handled(s, d, g.id);
    var r :| r in s.survivors && r.id == g.id;
    SameById(rows, r, g);
    AfterHas(s, rows, d, key, out, g.id);
    SurvivorName(s, rows, d, key, out, Shelve(out, d)[g.id]) by {
      ShelvedIs(out, d, g.id);
    }
    ShelvedName(s, d, key, out, g.id, key(g.name)) by {
      assert SurvivorOk(s, d, key, g);
      forall q | q in s.survivors && q.id == g.id ensures key(q.name) == key(g.name) {
        assert q in rows;
        SameById(rows, q, g);
      }
    }
  }

  /** The file has a row for this saved group that spells its folded name differently. */
  ghost predicate Relabels(rows: seq<Group>, d: Shelf, x: Id, key: string -> string)
    requires x in d
  {
    exists g :: g in rows && g.id == x && key(g.name) == key(d[x].name) && g.name != d[x].name
  }

  /** A saved label changes exactly then: its folding is kept, its spelling is the file's. */
  lemma LabelExactly(s: Merging, rows: seq<Group>, d: Shelf, key: string -> string, out: seq<Group>, x: Id)
    requires MergeOk(s, rows, d, key) && SameRows(s.survivors, out) && DistinctGroups(out) && x in d
    ensures x in Shelve(out, d) && (Shelve(out, d)[x].name != d[x].name <==> Relabels(rows, d, x, key))
  {
    ShelvedIs(out, d, x);
    if Relabels(rows, d, x, key) {
      var g :| g in rows && g.id == x && key(g.name) == key(d[x].name) && g.name != d[x].name;
      assert Respelled(s, d, key, g);
      var i :| 0 <= i < |out| && s.survivors[i] == g;
      assert out[i] in out && out[i].id == x;
      SameById(out, Shelve(out, d)[x], out[i]);
    } else if g :| g in out && g.id == x && Shelve(out, d)[x] == g {
      var i :| 0 <= i < |out| && out[i] == g;
      assert s.survivors[i] in rows && SurvivorOk(s, d, key, s.survivors[i]);
    }
  }

  /** `mergeGroups`. */
  method MergeGroups(incoming: seq<Group>, existing: seq<Group>, hosts: seq<Host>, key: string -> string)
    returns (groups: seq<Group>, moved: seq<Host>, merged: nat, keptNames: nat)
    requires DistinctGroups(incoming) && DistinctGroups(existing)
    requires UniqueNames(Shelve(existing, map[]), key)
    ensures |groups| + merged + keptNames == |incoming| && DistinctGroups(groups)
    ensures keptNames == |KeptRows(incoming, Shelve(existing, map[]), key)|
    ensures forall g | g in incoming :: RowOutcome(g, groups, Shelve(existing, map[]), key)
    ensures var d := Shelve(existing, map[]); var after := Shelve(groups, d);
            && Keyed(after) && UniqueNames(after, key)
            && (forall x | x in d :: x in after && key(after[x].name) == key(d[x].name))
            && (forall x | x in d :: after[x].name != d[x].name <==> Relabels(incoming, d, x, key))
            && (forall g | g in groups :: RowLanded(g, incoming, d, after, key))
            && |moved| == |hosts|
            && (forall i | 0 <= i < |hosts| :: HostLanded(hosts[i], moved[i], incoming, d, after, key))
  {
    var s := MergeRows(incoming, existing, key);
    groups := RepointGroups(s.survivors, s.remap);
    moved := RepointHosts(hosts, s.remap);
    merged, keptNames := |s.remap|, s.kept;
    ghost var d := Shelve(existing, map[]);
    ShelfIsKeyed(existing);
    MergedShelf(s, incoming, d, key, groups);
    RowsComeOut(s, incoming, d, key, groups);
    RowsLand(s, incoming, d, key, groups);
    forall i | 0 <= i < |hosts| ensures HostLanded(hosts[i], moved[i], incoming, d, Shelve(groups, d), key) {
      RepointLands(s, incoming, d, key, groups, hosts[i].group);
    }
  }

  lemma RowsComeOut(s: Merging, rows: seq<Group>, d: Shelf, key: string -> string, out: seq<Group>)
    requires MergeOk(s, rows, d, key) && SameRows(s.survivors, out) && Keyed(d) && DistinctGroups(rows)
    requires DistinctGroups(out)
    ensures forall x | x in d ::
              x in Shelve(out, d) && (Shelve(out, d)[x].name != d[x].name <==> Relabels(rows, d, x, key))
    ensures forall g | g in rows :: RowOutcome(g, out, d, key)
  {
    forall x | x in d
      ensures x in Shelve(out, d) && (Shelve(out, d)[x].name != d[x].name <==> Relabels(rows, d, x, key))
    {
      LabelExactly(s, rows, d, key, out, x);
    }
    forall g | g in rows ensures RowOutcome(g, out, d, key) {
      RowComesOut(s, rows, d, key, out, g);
    }
  }

  lemma RowsLand(s: Merging, rows: seq<Group>, d: Shelf, key: string -> string, out: seq<Group>)
    requires MergeOk(s, rows, d, key) && SameRows(s.survivors, out) && Keyed(d) && DistinctGroups(rows)
    requires out == RepointGroups(s.survivors, s.remap)
    ensures forall g | g in out :: RowLanded(g, rows, d, Shelve(out, d), key)
  {
    forall g | g in out ensures RowLanded(g, rows, d, Shelve(out, d), key) {
      var i :| 0 <= i < |out| && out[i] == g;
      RowLands(s, rows, d, key, out, i);
    }
  }

  lemma RowLands(s: Merging, rows: seq<Group>, d: Shelf, key: string -> string, out: seq<Group>, i: nat)
    requires MergeOk(s, rows, d, key) && SameRows(s.survivors, out) && Keyed(d) && DistinctGroups(rows)
    requires i < |out| && out[i] == RepointGroup(s.survivors[i], s.remap)
    ensures RowLanded(out[i], rows, d, Shelve(out, d), key)
  {
    RepointLands(s, rows, d, key, out, s.survivors[i].parent);
    assert s.survivors[i] in rows;
  }

  function RepointGroups(gs: seq<Group>, remap: map<Id, Id>): (r: seq<Group>)
    ensures |r| == |gs| && forall i | 0 <= i < |gs| :: r[i] == RepointGroup(gs[i], remap)
  {
    if gs == [] then [] else [RepointGroup(gs[0], remap)] + RepointGroups(gs[1..], remap)
  }

  function RepointHosts(hs: seq<Host>, remap: map<Id, Id>): (r: seq<Host>)
    ensures |r| == |hs| && forall i | 0 <= i < |hs| :: r[i] == RepointHost(hs[i], remap)
  {
    if hs == [] then [] else [RepointHost(hs[0], remap)] + RepointHosts(hs[1..], remap)
  }

  /** One saved group and the file's row for it, spelled otherwise: under any folding that
      equates the two spellings the merge takes the file's. */
  lemma CaseRewritesLabel(key: string -> string)
    requires key("Prod") == key("prod")
    ensures var saved, row := Group("g", "prod", None, None, ""), Group("g", "Prod", None, None, "");
            var s := MergeRow(Merging(map[key("prod") := "g"], [], map[], 0), row, map["g" := saved], key);
            && s.survivors == [row] && s.kept == 0 && s.remap == map[]
            && Shelve(s.survivors, map["g" := saved])["g"].name == "Prod"
            && "Prod" != "prod" && Relabels([row], map["g" := saved], "g", key)
  {
    var row := Group("g", "Prod", None, None, "");
    assert "Prod"[0] != "prod"[0];
    assert row in [row];
    assert [row][..0] == [];
  }
}
