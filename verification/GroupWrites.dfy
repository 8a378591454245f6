/**
 Writing an import's groups (`orderGroupWrites` in `backup/file.ts`, `upsertGroup` in
 `hosts/store.ts`): pointers resolved over the file and the saved groups together,
 parents ordered first, each write judged against the store as it stands then.
 */
module GroupWrites {
  import opened Records
  import opened GroupTree
  import opened GroupMerge

  function Pointers(d: Shelf): Parents {
    map x | x in d :: d[x].parent
  }

  // ------------------------------------------------------------------- one write

  /** Only an edge that is changing, and not merely cleared, is checked. */
  predicate ParentChanges(d: Shelf, g: Group) {
    g.parent.Some? && g.parent != Up(Pointers(d), g.id)
  }

  ghost predicate ClosesCycle(d: Shelf, g: Group) {
    ParentChanges(d, g) && OnCycle(Pointers(d)[g.id := g.parent], g.id)
  }

  predicate NameFree(d: Shelf, g: Group, key: string -> string) {
    key(g.name) != "" && forall x | x in d && x != g.id :: key(d[x].name) != key(g.name)
  }

  /** A default that is changing has to name an identity that exists. */
  predicate DefaultOk(d: Shelf, g: Group, identities: set<Id>) {
    g.identity.Some? && !(g.id in d && d[g.id].identity == g.identity) ==> g.identity.value in identities
  }

  ghost predicate GroupWriteOk(d: Shelf, g: Group, identities: set<Id>, key: string -> string) {
    && NameFree(d, g, key) && DefaultOk(d, g, identities)
    && (ParentChanges(d, g) ==> g.parent.value != g.id && g.parent.value in d)
    && !ClosesCycle(d, g)
  }

  /** What the store asks of one write, in full. */
  lemma GroupWriteAsks(d: Shelf, g: Group, identities: set<Id>, key: string -> string)
    ensures GroupWriteOk(d, g, identities, key) <==>
              && key(g.name) != "" && (forall x | x in d && x != g.id :: key(d[x].name) != key(g.name))
              && (g.parent.Some? && !(g.id in d && d[g.id].parent == g.parent) ==>
                    && g.parent.value != g.id && g.parent.value in d
                    && !OnCycle(Pointers(d)[g.id := g.parent], g.id))
              && (g.identity.Some? && !(g.id in d && d[g.id].identity == g.identity) ==>
                    g.identity.value in identities)
  {
  }

  /** `upsertGroup`: refused for a blank name or one another group has, for a new parent
      that is the group itself, is not there or closes a cycle, and for a new default
      that names no identity; an edge or a default that is not changing is not judged. */
  method UpsertGroup(d: Shelf, g: Group, identities: set<Id>, key: string -> string) returns (ok: bool, next: Shelf)
    ensures ok <==> GroupWriteOk(d, g, identities, key)
    ensures next == if ok then d[g.id := g] else d
  {
    if !NameFree(d, g, key) {
      return false, d;
    }
    if ParentChanges(d, g) {
      if g.parent.value == g.id || g.parent.value !in d {
        return false, d;
      }
      var candidate := Pointers(d)[g.id := g.parent];
      var parent := EffectiveParentId(g.id, candidate);
      if parent != g.parent {
        return false, d;
      }
    }
    if !DefaultOk(d, g, identities) {
      return false, d;
    }
    return true, d[g.id := g];
  }

  /** No accepted write puts a group on a cycle it was not on already. */
  lemma WriteAddsNoCycle(d: Shelf, g: Group, u: Id)
    requires !ClosesCycle(d, g) && OnCycle(Pointers(d[g.id := g]), u)
    ensures OnCycle(Pointers(d), u)
  {
    var p, q := Pointers(d), Pointers(d[g.id := g]);
    assert q == p[g.id := g.parent];
    var n: nat :| n > 0 && Climb(q, u, n) == Some(u);
    if m: nat :| m < n && Climb(q, u, m) == Some(g.id) {
      RotateCycle(q, u, n, m);
      if g.parent.None? {
        assert false;
      } else {
        assert Up(p, g.id) == g.parent;
        SamePointers(p, q, u, n);
      }
    } else {
      ClimbAgrees(q, p, u, n);
    }
  }

  lemma SamePointers(p: Parents, q: Parents, u: Id, n: nat)
    requires forall x :: Up(p, x) == Up(q, x)
    ensures Climb(p, u, n) == Climb(q, u, n)
  {
    ClimbAgrees(q, p, u, n);
  }

  /** Every group a cycle passes is on it. */
  lemma RotateCycle(q: Parents, u: Id, n: nat, m: nat)
    requires m < n && Climb(q, u, n) == Some(u) && Climb(q, u, m).Some?
    ensures OnCycle(q, Climb(q, u, m).value) && Up(q, Climb(q, u, m).value).Some?
  {
    ClimbAdds(q, u, n, m);
    ClimbAdds(q, u, m, n);
    assert m + n == n + m;
    ClimbStays(q, u, m + 1, n);
  }

  // -------------------------------------------------------------------- the order

  /** The pointers of the file and the saved groups together. */
  function Combined(incoming: seq<Group>, d: Shelf): Parents {
    Pointers(Shelve(incoming, d))
  }

  /** One row as it will be written: its parent resolved. */
  ghost function Resolved(g: Group, p: Parents): Group {
    g.(parent := Effective(p, g.id))
  }

  /** The pointers that stay inside a batch of rows. */
  function Within(batch: map<Id, Group>): Parents {
    map x | x in batch :: if batch[x].parent.Some? && batch[x].parent.value in batch then batch[x].parent else None
  }

  ghost predicate RowAt(out: seq<Group>, id: Id) {
    exists i :: 0 <= i < |out| && out[i].id == id
  }

  ghost predicate ParentFirst(out: seq<Group>, batch: map<Id, Group>, i: nat)
    requires i < |out|
  {
    out[i].parent.Some? && out[i].parent.value in batch ==> RowAt(out[..i], out[i].parent.value)
  }

  /** Rows of the batch, none twice, each after its parent. */
  ghost predicate InOrder(out: seq<Group>, batch: map<Id, Group>) {
    && DistinctGroups(out)
    && (forall g | g in out :: g.id in batch && batch[g.id] == g)
    && (forall i | 0 <= i < |out| :: ParentFirst(out, batch, i))
  }

  ghost predicate Emitted(out: seq<Group>, emitted: set<Id>) {
    forall x :: x in emitted <==> RowAt(out, x)
  }

  /** What a visit to `id` may add: `id` and the rows above it. */
  ghost predicate AddsAbove(out: seq<Group>, more: seq<Group>, batch: map<Id, Group>, id: Id) {
    && out <= more
    && forall i | |out| <= i < |more| :: AtOrAbove(Within(batch), id, more[i].id)
  }

  lemma PushKeeps(out: seq<Group>, batch: map<Id, Group>, emitted: set<Id>, g: Group)
    requires InOrder(out, batch) && Emitted(out, emitted) && g.id in batch && batch[g.id] == g && g.id !in emitted
    requires g.parent.Some? && g.parent.value in batch ==> g.parent.value in emitted
    ensures InOrder(out + [g], batch) && Emitted(out + [g], emitted + {g.id})
  {
    var more := out + [g];
    assert forall i | 0 <= i < |out| :: more[..i] == out[..i];
    assert more[..|out|] == out;
    forall i | 0 <= i < |more| ensures ParentFirst(more, batch, i) {
      if i < |out| {
        assert ParentFirst(out, batch, i);
      }
    }
    forall x | RowAt(more, x) ensures x in emitted + {g.id} {
      var i :| 0 <= i < |more| && more[i].id == x;
      assert i < |out| ==> RowAt(out, x);
    }
    assert more[|out|].id == g.id;
    forall x | x in emitted ensures RowAt(more, x) {
      var i :| 0 <= i < |out| && out[i].id == x;
      assert more[i].id == x;
    }
    forall i, j | 0 <= i < j < |more| ensures more[i].id != more[j].id {
      if j == |out| {
        assert RowAt(out, more[i].id);
      }
    }
  }

  /** `visit`: the parent first, if it is one of these rows. `path` are the rows below
      `id` on the way here; it only bounds the recursion. */
  method Visit(id: Id, batch: map<Id, Group>, emitted: set<Id>, out: seq<Group>, ghost path: set<Id>)
    returns (done: set<Id>, more: seq<Group>)
    requires Acyclic(Within(batch)) && InOrder(out, batch) && Emitted(out, emitted)
    requires forall x | x in batch :: batch[x].id == x
    requires id !in path && forall b | b in path :: AtOrAbove(Within(batch), b, id)
    ensures InOrder(more, batch) && Emitted(more, done)
    ensures emitted <= done && (id in batch ==> id in done)
    ensures AddsAbove(out, more, batch, id)
    decreases |batch.Keys - path|
  {
    done, more := emitted, out;
    if id !in batch || id in emitted {
      return;
    }
    var g := batch[id];
    assert Climb(Within(batch), id, 0) == Some(id);
    if g.parent.Some? && g.parent.value in batch {
      VisitUp(batch, id, path);
      done, more := Visit(g.parent.value, batch, emitted, out, path + {id});
      AddedAbove(out, more, batch, id);
    }
    NotYet(batch, id, out, more, emitted, done);
    PushKeeps(more, batch, done, g);
    done := done + {id};
    more := more + [g];
  }

  /** The parent is not among the rows below it, and the measure drops. */
  lemma VisitUp(batch: map<Id, Group>, id: Id, path: set<Id>)
    requires Acyclic(Within(batch)) && id in batch && batch[id].parent.Some? && batch[id].parent.value in batch
    requires id !in path && forall b | b in path :: AtOrAbove(Within(batch), b, id)
    ensures batch[id].parent.value !in path + {id}
    ensures forall b | b in path + {id} :: AtOrAbove(Within(batch), b, batch[id].parent.value)
    ensures |batch.Keys - (path + {id})| < |batch.Keys - path|
  {
    var w, y := Within(batch), batch[id].parent.value;
    assert Up(w, id) == Some(y);
    assert Climb(w, id, 0) == Some(id);
    forall b | b in path + {id} ensures AtOrAbove(w, b, y) && b != y {
      OneUp(w, b, id);
      if b == y {
        CycleUp(w, id, y);
      }
    }
    Spent(batch.Keys, path, id);
  }

  /** Whatever is at or above the parent is above the row. */
  lemma AddedAbove(out: seq<Group>, more: seq<Group>, batch: map<Id, Group>, id: Id)
    requires id in batch && batch[id].parent.Some? && batch[id].parent.value in batch
    requires AddsAbove(out, more, batch, batch[id].parent.value)
    ensures AddsAbove(out, more, batch, id)
  {
    var w, y := Within(batch), batch[id].parent.value;
    forall i | |out| <= i < |more| ensures AtOrAbove(w, id, more[i].id) {
      AboveParent(w, id, y, more[i].id);
    }
  }

  /** Visiting the rows above a row has not written the row itself. */
  lemma NotYet(batch: map<Id, Group>, id: Id, out: seq<Group>, more: seq<Group>, emitted: set<Id>, done: set<Id>)
    requires Acyclic(Within(batch)) && id in batch && id !in emitted && Emitted(out, emitted) && Emitted(more, done)
    requires out == more || (Up(Within(batch), id).Some? && AddsAbove(out, more, batch, Up(Within(batch), id).value))
    ensures id !in done
  {
    if id in done {
      assert RowAt(more, id);
      var i :| 0 <= i < |more| && more[i].id == id;
      if i < |out| {
        assert RowAt(out, id);
      } else {
        CycleUp(Within(batch), id, Up(Within(batch), id).value);
      }
    }
  }

  ghost predicate IsBatch(batch: map<Id, Group>, incoming: seq<Group>, p: Parents) {
    && (forall g | g in incoming :: g.id in batch && batch[g.id] == Resolved(g, p))
    && (forall x | x in batch :: batch[x].id == x && exists g :: g in incoming && g.id == x)
  }

  /** Pointers inside a resolved batch never cycle. */
  lemma BatchIsForest(batch: map<Id, Group>, incoming: seq<Group>, p: Parents)
    requires IsBatch(batch, incoming, p) && forall x | x in batch :: x in p
    ensures Acyclic(Within(batch))
  {
    EffectiveIsForest(p);
    var w, e := Within(batch), EffectiveAll(p);
    forall x ensures !OnCycle(w, x) {
      if OnCycle(w, x) {
        var n: nat :| n > 0 && Climb(w, x, n) == Some(x);
        BatchClimb(batch, incoming, p, x, n);
        assert OnCycle(e, x);
      }
    }
  }

  lemma {:induction false} BatchClimb(batch: map<Id, Group>, incoming: seq<Group>, p: Parents, x: Id, n: nat)
    requires IsBatch(batch, incoming, p) && forall x | x in batch :: x in p
    requires Climb(Within(batch), x, n).Some?
    ensures Climb(EffectiveAll(p), x, n) == Climb(Within(batch), x, n)
  {
    if n > 0 {
      BatchClimb(batch, incoming, p, x, n - 1);
      var y := Climb(Within(batch), x, n - 1).value;
      assert y in batch;
      var g :| g in incoming && g.id == y;
      assert batch[y] == Resolved(g, p);
    }
  }

  method ResolveBatch(incoming: seq<Group>, p: Parents) returns (batch: map<Id, Group>)
    requires DistinctGroups(incoming)
    ensures IsBatch(batch, incoming, p)
  {
    batch := map[];
    for i := 0 to |incoming|
      invariant IsBatch(batch, incoming[..i], p)
    {
      var parent := EffectiveParentId(incoming[i].id, p);
      var g := incoming[i].(parent := parent);
      BatchGrows(batch, incoming, p, i);
      batch := batch[g.id := g];
    }
    assert incoming[..|incoming|] == incoming;
  }

  lemma BatchGrows(batch: map<Id, Group>, incoming: seq<Group>, p: Parents, i: nat)
    requires DistinctGroups(incoming) && i < |incoming| && IsBatch(batch, incoming[..i], p)
    ensures IsBatch(batch[incoming[i].id := Resolved(incoming[i], p)], incoming[..i + 1], p)
  {
    var g := incoming[i];
    assert incoming[..i + 1] == incoming[..i] + [g];
    assert g in incoming[..i + 1];
    forall r | r in incoming[..i] ensures r.id != g.id {
      var j :| 0 <= j < i && incoming[..i][j] == r;
      assert incoming[j] == r;
    }
  }

  /** `y` is one of the first `n` rows or stands above one, through rows of the batch. */
  ghost predicate Needed(incoming: seq<Group>, batch: map<Id, Group>, n: nat, y: Id) {
    exists k :: 0 <= k < n && k < |incoming| && AtOrAbove(Within(batch), incoming[k].id, y)
  }

  /** Nothing is written ahead of row `i` but what an earlier row, or it, needed. */
  ghost predicate Eager(out: seq<Group>, incoming: seq<Group>, batch: map<Id, Group>, i: nat)
    requires i < |incoming|
  {
    forall q, j | 0 <= j < q < |out| && out[q].id == incoming[i].id :: Needed(incoming, batch, i + 1, out[j].id)
  }

  ghost predicate IsOrder(out: seq<Group>, incoming: seq<Group>, batch: map<Id, Group>) {
    && InOrder(out, batch)
    && (forall i | 0 <= i < |incoming| :: RowAt(out, incoming[i].id) && Eager(out, incoming, batch, i))
  }

  lemma EagerStays(out: seq<Group>, more: seq<Group>, incoming: seq<Group>, batch: map<Id, Group>, m: nat)
    requires m < |incoming| && Eager(out, incoming, batch, m) && RowAt(out, incoming[m].id)
    requires out <= more && DistinctGroups(more)
    ensures Eager(more, incoming, batch, m) && RowAt(more, incoming[m].id)
  {
    var q :| 0 <= q < |out| && out[q].id == incoming[m].id;
    assert more[q] == out[q];
    forall r, j | 0 <= j < r < |more| && more[r].id == incoming[m].id
      ensures Needed(incoming, batch, m + 1, more[j].id)
    {
      assert r == q;
      assert out[j] == more[j];
    }
  }

  lemma NeededGrows(out: seq<Group>, more: seq<Group>, incoming: seq<Group>, batch: map<Id, Group>, i: nat)
    requires i < |incoming| && AddsAbove(out, more, batch, incoming[i].id)
    requires forall j | 0 <= j < |out| :: Needed(incoming, batch, i, out[j].id)
    ensures forall j | 0 <= j < |more| :: Needed(incoming, batch, i + 1, more[j].id)
  {
    forall j | 0 <= j < |more| ensures Needed(incoming, batch, i + 1, more[j].id) {
      if j < |out| {
        assert more[j] == out[j];
      }
    }
  }

  /** The state of the loop after `n` rows. */
  ghost predicate Sofar(out: seq<Group>, incoming: seq<Group>, batch: map<Id, Group>, n: nat)
    requires n <= |incoming|
  {
    && (forall j | 0 <= j < |out| :: Needed(incoming, batch, n, out[j].id))
    && (forall m | 0 <= m < n :: RowAt(out, incoming[m].id) && Eager(out, incoming, batch, m))
  }

  lemma SofarGrows(out: seq<Group>, more: seq<Group>, incoming: seq<Group>, batch: map<Id, Group>, n: nat)
    requires n < |incoming| && Sofar(out, incoming, batch, n) && DistinctGroups(more)
    requires AddsAbove(out, more, batch, incoming[n].id) && RowAt(more, incoming[n].id)
    ensures Sofar(more, incoming, batch, n + 1)
  {
    NeededGrows(out, more, incoming, batch, n);
    EagerNow(more, incoming, batch, n);
    forall m | 0 <= m < n ensures RowAt(more, incoming[m].id) && Eager(more, incoming, batch, m) {
      EagerStays(out, more, incoming, batch, m);
    }
  }

  lemma EagerNow(out: seq<Group>, incoming: seq<Group>, batch: map<Id, Group>, n: nat)
    requires n < |incoming| && forall j | 0 <= j < |out| :: Needed(incoming, batch, n + 1, out[j].id)
    ensures Eager(out, incoming, batch, n)
  {
  }

  /** A batch that `visit` can walk. */
  ghost predicate Walkable(batch: map<Id, Group>) {
    Acyclic(Within(batch)) && forall x | x in batch :: batch[x].id == x
  }

  /** The loop of `orderGroupWrites`. */
  method OrderBatch(incoming: seq<Group>, batch: map<Id, Group>) returns (out: seq<Group>)
    requires Walkable(batch) && RowIds(incoming) <= batch.Keys
    ensures IsOrder(out, incoming, batch)
  {
    var emitted: set<Id> := {};
    out := [];
    var i := 0;
    while i < |incoming|
      invariant 0 <= i <= |incoming|
      invariant InOrder(out, batch) && Emitted(out, emitted) && Sofar(out, incoming, batch, i)
    {
      emitted, out := VisitNext(incoming, i, batch, emitted, out);
      i := i + 1;
    }
    Finished(out, incoming, batch);
  }

  method VisitNext(incoming: seq<Group>, i: nat, batch: map<Id, Group>, emitted: set<Id>, out: seq<Group>)
    returns (done: set<Id>, more: seq<Group>)
    requires Walkable(batch) && i < |incoming| && RowIds(incoming) <= batch.Keys
    requires InOrder(out, batch) && Emitted(out, emitted) && Sofar(out, incoming, batch, i)
    ensures InOrder(more, batch) && Emitted(more, done) && Sofar(more, incoming, batch, i + 1)
  {
    done, more := Visit(incoming[i].id, batch, emitted, out, {});
    assert incoming[i].id in RowIds(incoming);
    SofarGrows(out, more, incoming, batch, i);
  }

  lemma Finished(out: seq<Group>, incoming: seq<Group>, batch: map<Id, Group>)
    requires InOrder(out, batch) && Sofar(out, incoming, batch, |incoming|)
    ensures IsOrder(out, incoming, batch)
  {
  }

  /** `orderGroupWrites`. */
  method OrderGroupWrites(incoming: seq<Group>, d: Shelf) returns (out: seq<Group>, ghost batch: map<Id, Group>)
    requires DistinctGroups(incoming)
    ensures IsBatch(batch, incoming, Combined(incoming, d)) && IsOrder(out, incoming, batch)
    ensures |out| == |incoming| && RowIds(out) == RowIds(incoming)
  {
    var p := Combined(incoming, d);
    var pending := ResolveBatch(incoming, p);
    forall x | x in pending ensures x in p {
      ShelvedIs(incoming, d, x);
    }
    BatchIsForest(pending, incoming, p);
    out := OrderBatch(incoming, pending);
    batch := pending;
    SameLength(out, incoming, batch, p);
  }

  function RowIds(gs: seq<Group>): set<Id> {
    set g | g in gs :: g.id
  }

  lemma SameLength(out: seq<Group>, incoming: seq<Group>, batch: map<Id, Group>, p: Parents)
    requires IsBatch(batch, incoming, p) && IsOrder(out, incoming, batch) && DistinctGroups(incoming)
    ensures |out| == |incoming| && RowIds(out) == RowIds(incoming)
  {
    SameIdSets(out, incoming, batch, p);
    IdCount(out);
    IdCount(incoming);
  }

  lemma SameIdSets(out: seq<Group>, incoming: seq<Group>, batch: map<Id, Group>, p: Parents)
    requires IsBatch(batch, incoming, p) && IsOrder(out, incoming, batch)
    ensures RowIds(out) == RowIds(incoming)
  {
    forall x ensures x in RowIds(out) <==> x in RowIds(incoming) {
      SameIds(out, incoming, batch, p, x);
    }
  }

  lemma SameIds(out: seq<Group>, incoming: seq<Group>, batch: map<Id, Group>, p: Parents, x: Id)
    requires IsBatch(batch, incoming, p) && IsOrder(out, incoming, batch)
    ensures x in RowIds(out) <==> x in RowIds(incoming)
  {
    if x in RowIds(incoming) {
      var r :| r in incoming && r.id == x;
      var i :| 0 <= i < |incoming| && incoming[i] == r;
      assert RowAt(out, x);
      var j :| 0 <= j < |out| && out[j].id == x;
      assert out[j] in out;
    }
  }

  lemma {:induction false} IdCount(gs: seq<Group>)
    requires DistinctGroups(gs)
    ensures |RowIds(gs)| == |gs|
  {
    if gs != [] {
      var n := |gs| - 1;
      IdCount(gs[..n]);
      assert gs == gs[..n] + [gs[n]];
      forall g | g in gs[..n] ensures g.id != gs[n].id {
        var i :| 0 <= i < n && gs[..n][i] == g;
        assert gs[i] == g;
      }
      assert RowIds(gs) == RowIds(gs[..n]) + {gs[n].id};
    }
  }
}
