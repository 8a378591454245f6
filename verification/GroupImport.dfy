/**
 The group half of an import, write by write: which writes the store can refuse, why,
 and what the stored forest looks like afterwards.
 */
module GroupImport {
  import opened Records
  import opened GroupTree
  import opened GroupMerge
  import opened GroupWrites

  /** What the merge and the ordering hand to the write loop. */
  ghost predicate Writable(out: seq<Group>, d: Shelf, identities: set<Id>, key: string -> string) {
    && DistinctGroups(out) && Keyed(d) && UniqueNames(Shelve(out, d), key)
    && (forall x | x in d :: x in Shelve(out, d) && key(Shelve(out, d)[x].name) == key(d[x].name))
    && (forall i | 0 <= i < |out| :: key(out[i].name) != "" && ParentReady(out, d, i) && DefaultIn(out[i], identities))
  }

  predicate DefaultIn(g: Group, identities: set<Id>) {
    g.identity.Some? ==> g.identity.value in identities
  }

  /** A row's parent is saved, or written before it. */
  ghost predicate ParentReady(out: seq<Group>, d: Shelf, i: nat)
    requires i < |out|
  {
    var y := out[i].parent;
    y.Some? ==> y.value != out[i].id && (y.value in d || RowAt(out[..i], y.value))
  }

  lemma {:induction false} ShelvedRow(gs: seq<Group>, d: Shelf, i: nat)
    requires DistinctGroups(gs) && i < |gs|
    ensures gs[i].id in Shelve(gs, d) && Shelve(gs, d)[gs[i].id] == gs[i]
  {
    var n := |gs| - 1;
    if i < n {
      ShelvedRow(gs[..n], d, i);
      assert gs[..n][i] == gs[i];
    }
  }

  /** Part of the rows laid over the store: each group is its written row, or as saved. */
  lemma PartWritten(out: seq<Group>, d: Shelf, i: nat, x: Id)
    requires DistinctGroups(out) && i <= |out|
    ensures x in Shelve(out[..i], d) <==> x in d || RowAt(out[..i], x)
    ensures x in Shelve(out[..i], d) && RowAt(out[..i], x) ==>
              x in Shelve(out, d) && Shelve(out[..i], d)[x] == Shelve(out, d)[x]
    ensures x in Shelve(out[..i], d) && !RowAt(out[..i], x) ==> Shelve(out[..i], d)[x] == d[x]
  {
    ShelvedIs(out[..i], d, x);
    if RowAt(out[..i], x) {
      var j :| 0 <= j < i && out[..i][j].id == x;
      ShelvedRow(out[..i], d, j);
      ShelvedRow(out, d, j);
      assert out[..i][j] in out[..i];
    }
  }

  /** The folded label of every group stored mid-import is its final one. */
  lemma LabelIsFinal(out: seq<Group>, d: Shelf, identities: set<Id>, key: string -> string, i: nat, x: Id)
    requires Writable(out, d, identities, key) && i <= |out| && x in Shelve(out[..i], d)
    ensures x in Shelve(out, d) && key(Shelve(out[..i], d)[x].name) == key(Shelve(out, d)[x].name)
  {
    PartWritten(out, d, i, x);
  }

  lemma NameIsFree(out: seq<Group>, d: Shelf, identities: set<Id>, key: string -> string, i: nat)
    requires Writable(out, d, identities, key) && i < |out|
    ensures NameFree(Shelve(out[..i], d), out[i], key)
  {
    ShelvedRow(out, d, i);
    forall x | x in Shelve(out[..i], d) && x != out[i].id
      ensures key(Shelve(out[..i], d)[x].name) != key(out[i].name)
    {
      LabelIsFinal(out, d, identities, key, i, x);
    }
  }

  /** While nothing was refused, a row is refused only for closing a cycle. */
  lemma OnlyCyclesRefuse(out: seq<Group>, d: Shelf, identities: set<Id>, key: string -> string, i: nat)
    requires Writable(out, d, identities, key) && i < |out|
    ensures GroupWriteOk(Shelve(out[..i], d), out[i], identities, key) <==> !ClosesCycle(Shelve(out[..i], d), out[i])
  {
    NameIsFree(out, d, identities, key, i);
    assert ParentReady(out, d, i);
    if out[i].parent.Some? {
      PartWritten(out, d, i, out[i].parent.value);
    }
  }

  /** Row `i`, laid over what stands before it, closes a cycle through itself. */
  ghost predicate Blocked(out: seq<Group>, d: Shelf, i: nat)
    requires i < |out|
  {
    ClosesCycle(Shelve(out[..i], d), out[i])
  }

  ghost predicate NoneBlocked(out: seq<Group>, d: Shelf) {
    forall i | 0 <= i < |out| :: !Blocked(out, d, i)
  }

  ghost predicate NoNewCycle(d: Shelf, after: Shelf) {
    forall u :: OnCycle(Pointers(after), u) ==> OnCycle(Pointers(d), u)
  }

  /** A store some of the rows have been written to: each group is as saved or its own
      row, everything saved is there, and so is every row that was not refused. */
  ghost predicate Mixed(store: Shelf, d: Shelf, out: seq<Group>, n: nat, refused: seq<Group>)
    requires n <= |out|
  {
    && (forall x | x in store :: MixedAt(store, d, out, x))
    && (forall x | x in d :: x in store)
    && (forall i | 0 <= i < n && out[i] !in refused :: out[i].id in store && store[out[i].id] == out[i])
    && (forall g | g in refused :: g in out)
  }

  ghost predicate MixedAt(store: Shelf, d: Shelf, out: seq<Group>, x: Id)
    requires x in store
  {
    (x in d && store[x] == d[x]) || (exists i :: 0 <= i < |out| && out[i] == store[x] && out[i].id == x)
  }

  /** Whatever was refused, folded names stay unique and saved ones keep their folding. */
  lemma MixedNames(store: Shelf, d: Shelf, out: seq<Group>, identities: set<Id>, key: string -> string, n: nat,
                   refused: seq<Group>)
    requires Writable(out, d, identities, key) && n <= |out| && Mixed(store, d, out, n, refused)
    ensures UniqueNames(store, key)
    ensures forall x | x in d :: x in store && key(store[x].name) == key(d[x].name)
  {
    forall x | x in store ensures x in Shelve(out, d) && key(store[x].name) == key(Shelve(out, d)[x].name) {
      assert MixedAt(store, d, out, x);
      if !(x in d && store[x] == d[x]) {
        var i :| 0 <= i < |out| && out[i] == store[x] && out[i].id == x;
        ShelvedRow(out, d, i);
      }
    }
  }

  lemma MixedNext(store: Shelf, d: Shelf, out: seq<Group>, n: nat, refused: seq<Group>)
    requires DistinctGroups(out) && n < |out| && Mixed(store, d, out, n, refused)
    ensures Mixed(store[out[n].id := out[n]], d, out, n + 1, refused)
    ensures Mixed(store, d, out, n + 1, refused + [out[n]])
  {
    var next := store[out[n].id := out[n]];
    forall x | x in next ensures MixedAt(next, d, out, x) {
      if x != out[n].id {
        assert MixedAt(store, d, out, x);
      }
    }
    assert out[n] in out;
  }

  /** The store after these rows are handed to it in order, each taken if the store as
      it stands by then takes it, and the rows it did not take. */
  ghost function Wrote(out: seq<Group>, d: Shelf, identities: set<Id>, key: string -> string): Shelf {
    if out == [] then d
    else
      var g, before := out[|out| - 1], Wrote(out[..|out| - 1], d, identities, key);
      if GroupWriteOk(before, g, identities, key) then before[g.id := g] else before
  }

  ghost function NotTaken(out: seq<Group>, d: Shelf, identities: set<Id>, key: string -> string): seq<Group> {
    if out == [] then []
    else
      var g, before := out[|out| - 1], Wrote(out[..|out| - 1], d, identities, key);
      NotTaken(out[..|out| - 1], d, identities, key)
      + if GroupWriteOk(before, g, identities, key) then [] else [g]
  }

  ghost predicate AtTurn(out: seq<Group>, d: Shelf, identities: set<Id>, key: string -> string, i: nat, store: Shelf,
                         refused: seq<Group>)
    requires i <= |out|
  {
    store == Wrote(out[..i], d, identities, key) && refused == NotTaken(out[..i], d, identities, key)
  }

  lemma FirstTurn(out: seq<Group>, d: Shelf, identities: set<Id>, key: string -> string)
    ensures AtTurn(out, d, identities, key, 0, d, [])
  {
  }

  lemma WroteNext(out: seq<Group>, d: Shelf, identities: set<Id>, key: string -> string, i: nat, store: Shelf,
                  refused: seq<Group>)
    requires i < |out| && AtTurn(out, d, identities, key, i, store, refused)
    ensures if GroupWriteOk(store, out[i], identities, key)
            then AtTurn(out, d, identities, key, i + 1, store[out[i].id := out[i]], refused)
            else AtTurn(out, d, identities, key, i + 1, store, refused + [out[i]])
  {
    assert out[..i + 1][..i] == out[..i];
  }

  lemma TurnsDone(out: seq<Group>, d: Shelf, identities: set<Id>, key: string -> string, store: Shelf,
                  refused: seq<Group>)
    requires AtTurn(out, d, identities, key, |out|, store, refused)
    ensures store == Wrote(out, d, identities, key) && refused == NotTaken(out, d, identities, key)
  {
    assert out[..|out|] == out;
  }

  /** The write loop, each refusal contained. Nothing is refused exactly when no row is
      blocked; whatever is refused, every other row is stored, folded names stay unique,
      and no group ends on a cycle it was not on before. */
  method WriteGroups(out: seq<Group>, d: Shelf, identities: set<Id>, key: string -> string)
    returns (store: Shelf, refused: seq<Group>)
    requires Writable(out, d, identities, key)
    ensures store == Wrote(out, d, identities, key) && refused == NotTaken(out, d, identities, key)
    ensures refused == [] <==> NoneBlocked(out, d)
    ensures refused == [] ==> store == Shelve(out, d)
    ensures Mixed(store, d, out, |out|, refused) && NoNewCycle(d, store)
    ensures UniqueNames(store, key) && forall x | x in d :: x in store && key(store[x].name) == key(d[x].name)
  {
    store, refused := d, [];
    LoopStart(out, d);
    FirstTurn(out, d, identities, key);
    var i := 0;
    while i < |out|
      invariant 0 <= i <= |out| && Looping(out, d, identities, key, i, store, refused)
    {
      store, refused := WriteRow(out, d, identities, key, i, store, refused);
      i := i + 1;
    }
    LoopDone(out, d, store, refused);
    TurnsDone(out, d, identities, key, store, refused);
    MixedNames(store, d, out, identities, key, |out|, refused);
  }

  /** The body of the loop. */
  method WriteRow(out: seq<Group>, ghost d: Shelf, identities: set<Id>, key: string -> string, i: nat, before: Shelf,
                  refusedBefore: seq<Group>)
    returns (store: Shelf, refused: seq<Group>)
    requires Writable(out, d, identities, key) && i < |out|
    requires Looping(out, d, identities, key, i, before, refusedBefore)
    ensures Looping(out, d, identities, key, i + 1, store, refused)
  {
    TurnTaken(out, d, identities, key, i, before, refusedBefore);
    var g := out[i];
    refused := refusedBefore;
    var ok, next := UpsertGroup(before, g, identities, key);
    if !ok {
      refused := refused + [g];
    }
    store := next;
  }

  ghost predicate Looping(out: seq<Group>, d: Shelf, identities: set<Id>, key: string -> string, i: nat, store: Shelf,
                          refused: seq<Group>)
    requires i <= |out|
  {
    LoopOk(out, d, i, store, refused) && AtTurn(out, d, identities, key, i, store, refused)
  }

  lemma TurnTaken(out: seq<Group>, d: Shelf, identities: set<Id>, key: string -> string, i: nat, store: Shelf,
                  refused: seq<Group>)
    requires Writable(out, d, identities, key) && i < |out| && Looping(out, d, identities, key, i, store, refused)
    ensures if GroupWriteOk(store, out[i], identities, key)
            then Looping(out, d, identities, key, i + 1, store[out[i].id := out[i]], refused)
            else Looping(out, d, identities, key, i + 1, store, refused + [out[i]])
  {
    WroteNext(out, d, identities, key, i, store, refused);
    LoopNext(out, d, identities, key, i, store, refused);
  }

  ghost predicate LoopOk(out: seq<Group>, d: Shelf, i: nat, store: Shelf, refused: seq<Group>)
    requires i <= |out|
  {
    Sofar(out, d, i, store, |refused|) && NoNewCycle(d, store) && Mixed(store, d, out, i, refused)
  }

  lemma LoopStart(out: seq<Group>, d: Shelf)
    ensures LoopOk(out, d, 0, d, [])
  {
    assert out[..0] == [];
  }

  lemma LoopNext(out: seq<Group>, d: Shelf, identities: set<Id>, key: string -> string, i: nat, store: Shelf,
                 refused: seq<Group>)
    requires Writable(out, d, identities, key) && i < |out| && LoopOk(out, d, i, store, refused)
    ensures if GroupWriteOk(store, out[i], identities, key)
            then LoopOk(out, d, i + 1, store[out[i].id := out[i]], refused)
            else LoopOk(out, d, i + 1, store, refused + [out[i]])
  {
    SofarNext(out, d, identities, key, i, store, |refused|);
    MixedNext(store, d, out, i, refused);
    if GroupWriteOk(store, out[i], identities, key) {
      KeepsNoNewCycle(d, store, out[i]);
    }
  }

  lemma LoopDone(out: seq<Group>, d: Shelf, store: Shelf, refused: seq<Group>)
    requires LoopOk(out, d, |out|, store, refused)
    ensures refused == [] <==> NoneBlocked(out, d)
    ensures refused == [] ==> store == Shelve(out, d)
    ensures Mixed(store, d, out, |out|, refused) && NoNewCycle(d, store)
  {
    assert out[..|out|] == out;
  }

  /** The loop after `i` rows: all written and none blocked, or some row blocked. */
  ghost predicate Sofar(out: seq<Group>, d: Shelf, i: nat, store: Shelf, refused: nat)
    requires i <= |out|
  {
    if refused == 0 then store == Shelve(out[..i], d) && forall j | 0 <= j < i :: !Blocked(out, d, j)
    else !NoneBlocked(out, d)
  }

  lemma SofarNext(out: seq<Group>, d: Shelf, identities: set<Id>, key: string -> string, i: nat, store: Shelf,
                  refused: nat)
    requires Writable(out, d, identities, key) && i < |out| && Sofar(out, d, i, store, refused)
    ensures GroupWriteOk(store, out[i], identities, key) ==> Sofar(out, d, i + 1, store[out[i].id := out[i]], refused)
    ensures !GroupWriteOk(store, out[i], identities, key) ==> Sofar(out, d, i + 1, store, refused + 1)
  {
    if refused == 0 {
      OnlyCyclesRefuse(out, d, identities, key, i);
      assert out[..i + 1][..i] == out[..i];
      assert Blocked(out, d, i) <==> !GroupWriteOk(store, out[i], identities, key);
    }
  }

  lemma KeepsNoNewCycle(d: Shelf, store: Shelf, g: Group)
    requires NoNewCycle(d, store) && !ClosesCycle(store, g)
    ensures NoNewCycle(d, store[g.id := g])
  {
    forall u | OnCycle(Pointers(store[g.id := g]), u) ensures OnCycle(Pointers(d), u) {
      WriteAddsNoCycle(store, g, u);
    }
  }

  // ----------------------------------------------------------- what an order gives

  /** The rows of an order are the batch's. */
  lemma OrderIsWritable(out: seq<Group>, incoming: seq<Group>, d: Shelf, batch: map<Id, Group>, i: nat)
    requires IsBatch(batch, incoming, Combined(incoming, d)) && IsOrder(out, incoming, batch) && i < |out|
    ensures ParentReady(out, d, i)
    ensures exists g :: g in incoming && out[i] == Resolved(g, Combined(incoming, d))
  {
    var p := Combined(incoming, d);
    assert out[i] in out;
    var x := out[i].id;
    var g :| g in incoming && g.id == x;
    assert out[i] == Resolved(g, p);
    assert ParentFirst(out, batch, i);
    if out[i].parent.Some? {
      var y := out[i].parent.value;
      ShelvedIs(incoming, d, y);
      assert Climb(p, x, 0) == Some(x);
      assert Climb(p, x, 1) == Up(p, x);
      assert y != x;
    }
  }

  /** The rows, the saved groups they go over, and the order they are written in. */
  ghost predicate Planned(out: seq<Group>, incoming: seq<Group>, d: Shelf, batch: map<Id, Group>) {
    && IsBatch(batch, incoming, Combined(incoming, d)) && IsOrder(out, incoming, batch)
    && DistinctGroups(incoming) && Keyed(d)
  }

  /** The planned store, group by group: a row of the batch has its resolved parent, and
      any other group the pointer it was saved with. Every such edge is a combined one. */
  lemma PlannedEdge(out: seq<Group>, incoming: seq<Group>, d: Shelf, batch: map<Id, Group>, x: Id)
    requires Planned(out, incoming, d, batch)
    ensures var r, p := Pointers(Shelve(out, d)), Combined(incoming, d);
            && (Up(r, x).Some? ==> Up(r, x) == Up(p, x))
            && (RowAt(out, x) ==> Up(r, x) == Effective(p, x))
            && (!RowAt(out, x) ==> Up(r, x) == Up(Pointers(d), x))
  {
    ShelvedIs(incoming, d, x);
    assert out[..|out|] == out;
    PartWritten(out, d, |out|, x);
    if RowAt(out, x) {
      var i :| 0 <= i < |out| && out[i].id == x;
      ShelvedRow(out, d, i);
      OrderIsWritable(out, incoming, d, batch, i);
    }
  }

  /** Where one map of pointers leads, the other led. */
  ghost predicate SubPointers(r: Parents, p: Parents) {
    forall x | Up(r, x).Some? :: Up(r, x) == Up(p, x)
  }

  lemma {:induction false} SubClimb(r: Parents, p: Parents, x: Id, n: nat)
    requires SubPointers(r, p) && Climb(r, x, n).Some?
    ensures Climb(p, x, n) == Climb(r, x, n)
  {
    if n > 0 {
      SubClimb(r, p, x, n - 1);
    }
  }

  lemma PlannedPointers(out: seq<Group>, incoming: seq<Group>, d: Shelf, batch: map<Id, Group>)
    requires Planned(out, incoming, d, batch)
    ensures SubPointers(Pointers(Shelve(out, d)), Combined(incoming, d))
  {
    forall x | Up(Pointers(Shelve(out, d)), x).Some?
      ensures Up(Pointers(Shelve(out, d)), x) == Up(Combined(incoming, d), x)
    {
      PlannedEdge(out, incoming, d, batch, x);
    }
  }

  lemma ResolvedIsOffCycle(r: Parents, p: Parents, x: Id)
    requires SubPointers(r, p) && Up(r, x) == Effective(p, x)
    ensures !OnCycle(r, x)
  {
    if OnCycle(r, x) {
      var n: nat :| n > 0 && Climb(r, x, n) == Some(x);
      SubClimb(r, p, x, n);
      ClimbStays(r, x, 1, n);
    }
  }

  lemma ParentIsStored(out: seq<Group>, d: Shelf, i: nat)
    requires DistinctGroups(out) && i < |out| && ParentReady(out, d, i) && out[i].parent.Some?
    ensures out[i].parent.value in Shelve(out, d)
  {
    var y := out[i].parent.value;
    assert out[..|out|] == out;
    PartWritten(out, d, |out|, y);
    if RowAt(out[..i], y) {
      var j :| 0 <= j < i && out[..i][j].id == y;
      assert out[j].id == y;
    }
  }

  /** Once everything is written, no written group lies on a cycle, and the parent of
      each is its effective one, and stored. */
  lemma WrittenIsSound(out: seq<Group>, incoming: seq<Group>, d: Shelf, batch: map<Id, Group>, i: nat)
    requires Planned(out, incoming, d, batch) && i < |out|
    ensures !OnCycle(Pointers(Shelve(out, d)), out[i].id)
    ensures out[i].id in Shelve(out, d) && Shelve(out, d)[out[i].id] == out[i]
    ensures out[i].parent == Effective(Combined(incoming, d), out[i].id)
    ensures out[i].parent.Some? ==> out[i].parent.value in Shelve(out, d)
  {
    assert RowAt(out, out[i].id);
    ShelvedRow(out, d, i);
    PlannedEdge(out, incoming, d, batch, out[i].id);
    PlannedPointers(out, incoming, d, batch);
    ResolvedIsOffCycle(Pointers(Shelve(out, d)), Combined(incoming, d), out[i].id);
    OrderIsWritable(out, incoming, d, batch, i);
    if out[i].parent.Some? {
      ParentIsStored(out, d, i);
    }
  }

  // ------------------------------------------------------------ when none is blocked

  /** Every row above this one in the planned store is written before it, or keeps the
      parent it is saved with. */
  ghost predicate RowsAboveReady(out: seq<Group>, d: Shelf, i: nat)
    requires i < |out|
  {
    forall a | && AtOrAbove(Pointers(Shelve(out, d)), out[i].id, a) && a != out[i].id
               && RowAt(out, a) && !RowAt(out[..i], a) ::
      Up(Pointers(d), a) == Up(Pointers(Shelve(out, d)), a)
  }

  /** The pointers row `i` is judged against agree with the planned ones above it. */
  lemma JudgedEdge(out: seq<Group>, d: Shelf, i: nat, a: Id)
    requires DistinctGroups(out) && i < |out| && RowsAboveReady(out, d, i)
    requires AtOrAbove(Pointers(Shelve(out, d)), out[i].id, a)
    ensures Up(Pointers(Shelve(out[..i], d))[out[i].id := out[i].parent], a) == Up(Pointers(Shelve(out, d)), a)
  {
    ShelvedRow(out, d, i);
    PartWritten(out, d, i, a);
    assert out[..|out|] == out;
    PartWritten(out, d, |out|, a);
  }

  lemma {:induction false} JudgedClimb(out: seq<Group>, d: Shelf, i: nat, n: nat)
    requires DistinctGroups(out) && i < |out| && RowsAboveReady(out, d, i)
    ensures Climb(Pointers(Shelve(out[..i], d))[out[i].id := out[i].parent], out[i].id, n)
         == Climb(Pointers(Shelve(out, d)), out[i].id, n)
  {
    if n > 0 {
      JudgedClimb(out, d, i, n - 1);
      var at := Climb(Pointers(Shelve(out, d)), out[i].id, n - 1);
      if at.Some? {
        JudgedEdge(out, d, i, at.value);
      }
    }
  }

  /** Such a row is never refused. */
  lemma ReadyIsNotBlocked(out: seq<Group>, incoming: seq<Group>, d: Shelf, batch: map<Id, Group>, i: nat)
    requires Planned(out, incoming, d, batch) && i < |out| && RowsAboveReady(out, d, i)
    ensures !Blocked(out, d, i)
  {
    var q := Pointers(Shelve(out[..i], d))[out[i].id := out[i].parent];
    if OnCycle(q, out[i].id) {
      var n: nat :| n > 0 && Climb(q, out[i].id, n) == Some(out[i].id);
      JudgedClimb(out, d, i, n);
      WrittenIsSound(out, incoming, d, batch, i);
    }
  }

  /** No saved group that the file leaves alone hangs under one the file writes. */
  ghost predicate NoSavedChild(out: seq<Group>, d: Shelf) {
    forall x | x in d && !RowAt(out, x) && d[x].parent.Some? :: !RowAt(out, d[x].parent.value)
  }

  /** A row that stands over one already written is written too. */
  lemma OneAbove(out: seq<Group>, incoming: seq<Group>, d: Shelf, batch: map<Id, Group>, i: nat, b: Id, a: Id)
    requires Planned(out, incoming, d, batch) && i < |out| && NoSavedChild(out, d)
    requires Up(Pointers(Shelve(out, d)), b) == Some(a) && RowAt(out, a)
    requires b == out[i].id || (RowAt(out, b) ==> RowAt(out[..i], b))
    ensures RowAt(out[..i], a)
  {
    if b == out[i].id {
      OneAboveAt(out, incoming, d, batch, i, i, a);
    } else {
      ChildIsRow(out, incoming, d, batch, b, a);
      var j := RowIndex(out, i, b);
      OneAboveAt(out, incoming, d, batch, j, i, a);
    }
  }

  ghost function RowIndex(out: seq<Group>, i: nat, b: Id): (j: nat)
    requires i <= |out| && RowAt(out[..i], b)
    ensures j < i && out[j].id == b
  {
    var j :| 0 <= j < i && out[..i][j].id == b;
    j
  }

  lemma OneAboveAt(out: seq<Group>, incoming: seq<Group>, d: Shelf, batch: map<Id, Group>, j: nat, i: nat, a: Id)
    requires Planned(out, incoming, d, batch) && j <= i < |out|
    requires Up(Pointers(Shelve(out, d)), out[j].id) == Some(a) && RowAt(out, a)
    ensures RowAt(out[..i], a)
  {
    ParentIsEarlier(out, incoming, d, batch, j, a);
    EarlierStays(out, j, i, a);
  }

  lemma ChildIsRow(out: seq<Group>, incoming: seq<Group>, d: Shelf, batch: map<Id, Group>, b: Id, a: Id)
    requires Planned(out, incoming, d, batch) && NoSavedChild(out, d)
    requires Up(Pointers(Shelve(out, d)), b) == Some(a) && RowAt(out, a)
    ensures RowAt(out, b)
  {
    PlannedEdge(out, incoming, d, batch, b);
  }

  lemma EarlierStays(out: seq<Group>, j: nat, i: nat, a: Id)
    requires j <= i <= |out| && RowAt(out[..j], a)
    ensures RowAt(out[..i], a)
  {
    var k :| 0 <= k < j && out[..j][k].id == a;
    assert out[..i][k].id == a;
  }

  /** Then climbing from a row passes written rows only, until it leaves them for good. */
  lemma {:induction false} AboveIsWritten(out: seq<Group>, incoming: seq<Group>, d: Shelf, batch: map<Id, Group>,
                                          i: nat, n: nat)
    requires Planned(out, incoming, d, batch) && i < |out| && NoSavedChild(out, d) && n > 0
    ensures var at := Climb(Pointers(Shelve(out, d)), out[i].id, n);
            at.Some? && RowAt(out, at.value) ==> RowAt(out[..i], at.value)
  {
    var at := Climb(Pointers(Shelve(out, d)), out[i].id, n);
    if at.Some? && RowAt(out, at.value) {
      var b := Climb(Pointers(Shelve(out, d)), out[i].id, n - 1).value;
      if n > 1 {
        AboveIsWritten(out, incoming, d, batch, i, n - 1);
      }
      OneAbove(out, incoming, d, batch, i, b, at.value);
    }
  }

  lemma ParentIsEarlier(out: seq<Group>, incoming: seq<Group>, d: Shelf, batch: map<Id, Group>, i: nat, y: Id)
    requires Planned(out, incoming, d, batch) && i < |out| && RowAt(out, y)
    requires Up(Pointers(Shelve(out, d)), out[i].id) == Some(y)
    ensures RowAt(out[..i], y)
  {
    ShelvedRow(out, d, i);
    assert out[i].parent == Some(y);
    var j :| 0 <= j < |out| && out[j].id == y;
    assert out[j] in out;
    assert ParentFirst(out, batch, i);
  }

  /** The order never fails an import that writes no parent of a group it leaves alone. */
  lemma NoSavedChildNeverBlocks(out: seq<Group>, incoming: seq<Group>, d: Shelf, batch: map<Id, Group>)
    requires Planned(out, incoming, d, batch) && NoSavedChild(out, d)
    ensures NoneBlocked(out, d)
  {
    forall i | 0 <= i < |out| ensures !Blocked(out, d, i) {
      forall a | AtOrAbove(Pointers(Shelve(out, d)), out[i].id, a) && RowAt(out, a) && a != out[i].id
        ensures RowAt(out[..i], a)
      {
        var n: nat :| Climb(Pointers(Shelve(out, d)), out[i].id, n) == Some(a);
        AboveIsWritten(out, incoming, d, batch, i, n);
      }
      ReadyIsNotBlocked(out, incoming, d, batch, i);
    }
  }

  // ------------------------------------------------------------------ the whole pass

  /** Ordering changes parents and positions; ids and names are the rows' own. */
  lemma OrderedNames(out: seq<Group>, rows: seq<Group>, d: Shelf, batch: map<Id, Group>, x: Id)
    requires Planned(out, rows, d, batch)
    ensures x in Shelve(out, d) <==> x in Shelve(rows, d)
    ensures x in Shelve(out, d) ==> Shelve(out, d)[x].name == Shelve(rows, d)[x].name
  {
    assert out[..|out|] == out;
    PartWritten(out, d, |out|, x);
    if RowAt(out, x) {
      var i :| 0 <= i < |out| && out[i].id == x;
      OrderedRow(out, rows, d, batch, i);
    } else {
      NotARow(out, rows, d, batch, x);
    }
  }

  lemma OrderedRow(out: seq<Group>, rows: seq<Group>, d: Shelf, batch: map<Id, Group>, i: nat)
    requires Planned(out, rows, d, batch) && i < |out|
    ensures out[i].id in Shelve(rows, d) && Shelve(rows, d)[out[i].id].name == out[i].name
    ensures out[i].id in Shelve(out, d) && Shelve(out, d)[out[i].id] == out[i]
  {
    ShelvedRow(out, d, i);
    OrderIsWritable(out, rows, d, batch, i);
    var g :| g in rows && out[i] == Resolved(g, Combined(rows, d));
    var j :| 0 <= j < |rows| && rows[j] == g;
    ShelvedRow(rows, d, j);
  }

  lemma NotARow(out: seq<Group>, rows: seq<Group>, d: Shelf, batch: map<Id, Group>, x: Id)
    requires IsOrder(out, rows, batch) && !RowAt(out, x)
    ensures Lookup(Shelve(rows, d), x) == Lookup(d, x)
  {
    ShelvedIs(rows, d, x);
    forall g | g in rows ensures g.id != x {
      var j :| 0 <= j < |rows| && rows[j] == g;
      assert RowAt(out, rows[j].id);
    }
  }

  lemma PlannedIsWritable(out: seq<Group>, rows: seq<Group>, d: Shelf, batch: map<Id, Group>, identities: set<Id>,
                          key: string -> string)
    requires Planned(out, rows, d, batch) && UniqueNames(Shelve(rows, d), key)
    requires forall x | x in d :: x in Shelve(rows, d) && key(Shelve(rows, d)[x].name) == key(d[x].name)
    requires forall g | g in rows :: key(g.name) != "" && DefaultIn(g, identities)
    ensures Writable(out, d, identities, key)
  {
    forall x ensures x in Shelve(out, d) <==> x in Shelve(rows, d)
             ensures x in Shelve(out, d) ==> Shelve(out, d)[x].name == Shelve(rows, d)[x].name
    {
      OrderedNames(out, rows, d, batch, x);
    }
    forall i | 0 <= i < |out|
      ensures key(out[i].name) != "" && ParentReady(out, d, i) && DefaultIn(out[i], identities)
    {
      OrderIsWritable(out, rows, d, batch, i);
    }
  }

  /** `resolveGroupDefaults`: a default that names no identity is dropped. */
  function ResolveGroupDefaults(gs: seq<Group>, identities: set<Id>): (r: seq<Group>)
    ensures |r| == |gs|
    ensures forall i | 0 <= i < |gs| ::
              r[i] == gs[i].(identity := if gs[i].identity.Some? && gs[i].identity.value in identities
                                         then gs[i].identity else None)
  {
    if gs == [] then []
    else
      var g := if DefaultIn(gs[0], identities) then gs[0] else gs[0].(identity := None);
      [g] + ResolveGroupDefaults(gs[1..], identities)
  }

  ghost predicate SameNames(a: Shelf, b: Shelf) {
    forall x :: (x in a <==> x in b) && (x in a ==> a[x].name == b[x].name && a[x].id == b[x].id)
  }

  lemma {:induction false} ShelveSameNames(a: seq<Group>, b: seq<Group>, d: Shelf)
    requires |a| == |b| && forall i | 0 <= i < |a| :: a[i].id == b[i].id && a[i].name == b[i].name
    ensures SameNames(Shelve(a, d), Shelve(b, d))
  {
    if a != [] {
      ShelveSameNames(a[..|a| - 1], b[..|b| - 1], d);
    }
  }

  lemma SameNamesKeep(a: Shelf, b: Shelf, d: Shelf, key: string -> string)
    requires SameNames(a, b) && UniqueNames(a, key)
    requires forall x | x in d :: x in a && key(a[x].name) == key(d[x].name)
    ensures UniqueNames(b, key) && forall x | x in d :: x in b && key(b[x].name) == key(d[x].name)
  {
    assert forall x | x in b :: x in a && b[x].name == a[x].name;
  }

  /** A group that was planned is stored, or its row was refused. */
  ghost predicate StoredOrRefused(x: Id, d: Shelf, out: seq<Group>, store: Shelf, refused: seq<Group>) {
    x in Shelve(out, d) && x !in store ==> exists g :: g in refused && g.id == x
  }

  /** Where a host's group stands once the writes are done: as the merge repointed it, at
      a group that is stored, or at one whose row the store refused. */
  ghost predicate Filed(h: Host, m: Host, incoming: seq<Group>, d: Shelf, out: seq<Group>, store: Shelf,
                        refused: seq<Group>, key: string -> string) {
    && HostLanded(h, m, incoming, d, Shelve(out, d), key)
    && (m.group.Some? ==> StoredOrRefused(m.group.value, d, out, store, refused))
  }

  lemma FiledOrRefused(out: seq<Group>, rows: seq<Group>, d: Shelf, batch: map<Id, Group>, incoming: seq<Group>,
                       h: Host, m: Host, key: string -> string, after: Shelf, store: Shelf, refused: seq<Group>)
    requires Planned(out, rows, d, batch) && SameNames(after, Shelve(rows, d))
    requires HostLanded(h, m, incoming, d, after, key) && Mixed(store, d, out, |out|, refused)
    ensures Filed(h, m, incoming, d, out, store, refused, key)
  {
    if m.group.None? {
      LandsNowhere(h, m, incoming, d, after, Shelve(out, d), key);
    } else {
      PlannedName(out, rows, d, batch, after, m.group.value);
      LandsSame(h, m, incoming, d, after, Shelve(out, d), key);
      MissingIsRefused(out, d, store, refused, m.group.value);
    }
  }

  lemma PlannedName(out: seq<Group>, rows: seq<Group>, d: Shelf, batch: map<Id, Group>, after: Shelf, x: Id)
    requires Planned(out, rows, d, batch) && SameNames(after, Shelve(rows, d))
    ensures x in after ==> x in Shelve(out, d) && Shelve(out, d)[x].name == after[x].name
  {
    OrderedNames(out, rows, d, batch, x);
  }

  lemma LandsNowhere(h: Host, m: Host, incoming: seq<Group>, d: Shelf, a: Shelf, b: Shelf, key: string -> string)
    requires HostLanded(h, m, incoming, d, a, key) && m.group.None?
    ensures HostLanded(h, m, incoming, d, b, key)
  {
  }

  lemma LandsSame(h: Host, m: Host, incoming: seq<Group>, d: Shelf, a: Shelf, b: Shelf, key: string -> string)
    requires HostLanded(h, m, incoming, d, a, key) && m.group.Some?
    requires m.group.value in a ==> m.group.value in b && b[m.group.value].name == a[m.group.value].name
    ensures HostLanded(h, m, incoming, d, b, key)
  {
  }

  lemma MissingIsRefused(out: seq<Group>, d: Shelf, store: Shelf, refused: seq<Group>, x: Id)
    requires DistinctGroups(out) && Mixed(store, d, out, |out|, refused)
    ensures StoredOrRefused(x, d, out, store, refused)
  {
    if x in Shelve(out, d) && x !in store {
      assert out[..|out|] == out;
      PartWritten(out, d, |out|, x);
      var i :| 0 <= i < |out| && out[i].id == x;
      assert out[i] in refused;
    }
  }

  /** A stored default names an identity that exists, or is the one already saved there. */
  ghost predicate DefaultStands(store: Shelf, d: Shelf, identities: set<Id>, x: Id) {
    x in store ==> DefaultIn(store[x], identities) || (x in d && store[x].identity == d[x].identity)
  }

  lemma DefaultsStand(store: Shelf, d: Shelf, out: seq<Group>, refused: seq<Group>, identities: set<Id>, x: Id)
    requires Mixed(store, d, out, |out|, refused) && forall g | g in out :: DefaultIn(g, identities)
    ensures DefaultStands(store, d, identities, x)
  {
    if x in store && !(x in d && store[x] == d[x]) {
      assert MixedAt(store, d, out, x);
      var i :| 0 <= i < |out| && out[i] == store[x];
      assert out[i] in out;
    }
  }

  lemma NonBlankRows(rows: seq<Group>, incoming: seq<Group>, d: Shelf, key: string -> string)
    requires forall g | g in rows :: RowLanded(g, incoming, d, Shelve(rows, d), key)
    requires forall g | g in incoming :: key(g.name) != ""
    ensures forall g | g in rows :: key(g.name) != ""
  {
    forall g | g in rows ensures key(g.name) != "" {
      assert RowLanded(g, incoming, d, Shelve(rows, d), key);
    }
  }

  lemma DefaultsKeepNames(groups: seq<Group>, d: Shelf, identities: set<Id>, key: string -> string)
    requires DistinctGroups(groups) && UniqueNames(Shelve(groups, d), key)
    requires forall x | x in d :: x in Shelve(groups, d) && key(Shelve(groups, d)[x].name) == key(d[x].name)
    requires forall g | g in groups :: key(g.name) != ""
    ensures var rows := ResolveGroupDefaults(groups, identities);
            && DistinctGroups(rows)
            && SameNames(Shelve(groups, d), Shelve(rows, d)) && UniqueNames(Shelve(rows, d), key)
            && (forall x | x in d :: x in Shelve(rows, d) && key(Shelve(rows, d)[x].name) == key(d[x].name))
            && (forall g | g in rows :: key(g.name) != "" && DefaultIn(g, identities))
  {
    var rows := ResolveGroupDefaults(groups, identities);
    ShelveSameNames(groups, rows, d);
    SameNamesKeep(Shelve(groups, d), Shelve(rows, d), d, key);
    forall g | g in rows ensures key(g.name) != "" && DefaultIn(g, identities) {
      var i :| 0 <= i < |rows| && rows[i] == g;
      assert groups[i] in groups;
    }
  }

  /** What a row says of itself: all but its parent and its default. */
  function Labels(gs: seq<Group>): set<(Id, string, string)> {
    set g | g in gs :: (g.id, g.name, g.details)
  }

  lemma HasIff(gs: seq<Group>, g: Group)
    ensures Has(gs, g) <==> (g.id, g.name, g.details) in Labels(gs)
    ensures (exists r :: r in gs && r.id == g.id) <==> g.id in RowIds(gs)
  {
  }

  /** The rows written carry the merged rows' ids, names and details, and no others. */
  lemma OrderKeepsRows(out: seq<Group>, groups: seq<Group>, rows: seq<Group>, d: Shelf, batch: map<Id, Group>,
                       identities: set<Id>)
    requires Planned(out, rows, d, batch) && rows == ResolveGroupDefaults(groups, identities)
    ensures Labels(out) == Labels(groups) && RowIds(out) == RowIds(groups)
  {
    forall g | g in groups ensures (g.id, g.name, g.details) in Labels(out) && g.id in RowIds(out) {
      GroupIsOut(out, groups, rows, d, batch, identities, g);
    }
    forall o | o in out ensures (o.id, o.name, o.details) in Labels(groups) && o.id in RowIds(groups) {
      OutIsGroup(out, groups, rows, d, batch, identities, o);
    }
    SameLabels(out, groups);
  }

  lemma SameLabels(out: seq<Group>, groups: seq<Group>)
    requires forall g | g in groups :: (g.id, g.name, g.details) in Labels(out) && g.id in RowIds(out)
    requires forall o | o in out :: (o.id, o.name, o.details) in Labels(groups) && o.id in RowIds(groups)
    ensures Labels(out) == Labels(groups) && RowIds(out) == RowIds(groups)
  {
  }

  lemma GroupIsOut(out: seq<Group>, groups: seq<Group>, rows: seq<Group>, d: Shelf, batch: map<Id, Group>,
                   identities: set<Id>, g: Group)
    requires Planned(out, rows, d, batch) && rows == ResolveGroupDefaults(groups, identities) && g in groups
    ensures (g.id, g.name, g.details) in Labels(out) && g.id in RowIds(out)
  {
    var i :| 0 <= i < |groups| && groups[i] == g;
    assert rows[i] in rows && RowAt(out, rows[i].id);
    var j :| 0 <= j < |out| && out[j].id == rows[i].id;
    OutIsRow(out, rows, d, batch, rows[i], j);
    assert out[j] in out;
  }

  lemma OutIsGroup(out: seq<Group>, groups: seq<Group>, rows: seq<Group>, d: Shelf, batch: map<Id, Group>,
                   identities: set<Id>, o: Group)
    requires Planned(out, rows, d, batch) && rows == ResolveGroupDefaults(groups, identities) && o in out
    ensures (o.id, o.name, o.details) in Labels(groups) && o.id in RowIds(groups)
  {
    OutIsWritten(out, groups, rows, d, batch, identities, o);
  }

  /** A row as it is written: its parent read over the file and the store together, its
      default kept if it names one of these identities. */
  ghost function WrittenRow(g: Group, groups: seq<Group>, d: Shelf, identities: set<Id>): Group {
    g.(parent := Effective(Combined(groups, d), g.id),
       identity := if g.identity.Some? && g.identity.value in identities then g.identity else None)
  }

  ghost predicate RowWritten(o: Group, groups: seq<Group>, d: Shelf, identities: set<Id>) {
    exists g :: g in groups && o == WrittenRow(g, groups, d, identities)
  }

  lemma CombinedSnoc(rows: seq<Group>, d: Shelf)
    requires rows != []
    ensures var n := |rows| - 1; Combined(rows, d) == Combined(rows[..n], d)[rows[n].id := rows[n].parent]
  {
  }

  lemma {:induction false} DefaultsKeepPointers(groups: seq<Group>, rows: seq<Group>, d: Shelf)
    requires |rows| == |groups| && forall i | 0 <= i < |rows| :: rows[i] == groups[i].(identity := rows[i].identity)
    ensures Combined(rows, d) == Combined(groups, d)
  {
    if groups != [] {
      var n := |groups| - 1;
      DefaultsKeepPointers(groups[..n], rows[..n], d);
      CombinedSnoc(rows, d);
      CombinedSnoc(groups, d);
    }
  }

  lemma OutIsWritten(out: seq<Group>, groups: seq<Group>, rows: seq<Group>, d: Shelf, batch: map<Id, Group>,
                     identities: set<Id>, o: Group)
    requires Planned(out, rows, d, batch) && rows == ResolveGroupDefaults(groups, identities) && o in out
    ensures RowWritten(o, groups, d, identities)
  {
    var i := RowOf(out, rows, d, batch, o);
    DefaultsResolved(groups, rows, d, identities, i);
    WrittenIs(groups, d, identities, i, rows[i], o);
  }

  lemma DefaultsResolved(groups: seq<Group>, rows: seq<Group>, d: Shelf, identities: set<Id>, i: nat)
    requires rows == ResolveGroupDefaults(groups, identities) && i < |rows|
    ensures |rows| == |groups| && Combined(rows, d) == Combined(groups, d)
    ensures rows[i] == groups[i].(identity := if DefaultIn(groups[i], identities) then groups[i].identity else None)
  {
    DefaultsKeepPointers(groups, rows, d);
  }

  lemma WrittenIs(groups: seq<Group>, d: Shelf, identities: set<Id>, i: nat, r: Group, o: Group)
    requires i < |groups| && o == Resolved(r, Combined(groups, d))
    requires r == groups[i].(identity := if DefaultIn(groups[i], identities) then groups[i].identity else None)
    ensures RowWritten(o, groups, d, identities)
  {
    assert groups[i] in groups && o == WrittenRow(groups[i], groups, d, identities);
  }

  lemma RowOf(out: seq<Group>, rows: seq<Group>, d: Shelf, batch: map<Id, Group>, o: Group) returns (i: nat)
    requires Planned(out, rows, d, batch) && o in out
    ensures i < |rows| && o == Resolved(rows[i], Combined(rows, d))
  {
    var j :| 0 <= j < |out| && out[j] == o;
    OrderIsWritable(out, rows, d, batch, j);
    var r :| r in rows && out[j] == Resolved(r, Combined(rows, d));
    i :| 0 <= i < |rows| && rows[i] == r;
  }

  lemma OutIsRow(out: seq<Group>, rows: seq<Group>, d: Shelf, batch: map<Id, Group>, r: Group, j: nat)
    requires Planned(out, rows, d, batch) && r in rows && j < |out| && out[j].id == r.id
    ensures out[j] == Resolved(r, Combined(rows, d))
  {
    assert out[j] in out;
  }

  /** What becomes of one row of the file, told of the rows written and the store planned. */
  lemma OutcomeInOut(g: Group, groups: seq<Group>, out: seq<Group>, d: Shelf, key: string -> string)
    requires RowOutcome(g, groups, d, key) && Labels(out) == Labels(groups) && RowIds(out) == RowIds(groups)
    requires SameNames(Shelve(groups, d), Shelve(out, d))
    ensures RowOutcome(g, out, d, key)
  {
    HasIff(groups, g);
    HasIff(out, g);
    if g.id !in d {
      var y :| y in Shelve(groups, d) && HoldsName(groups, d, y, g, key);
      assert HoldsName(out, d, y, g, key);
    }
  }

  lemma OutSameNames(out: seq<Group>, groups: seq<Group>, rows: seq<Group>, d: Shelf, batch: map<Id, Group>)
    requires Planned(out, rows, d, batch) && SameNames(Shelve(groups, d), Shelve(rows, d)) && Keyed(d)
    ensures SameNames(Shelve(groups, d), Shelve(out, d))
  {
    forall x
      ensures x in Shelve(groups, d) <==> x in Shelve(out, d)
      ensures x in Shelve(groups, d) ==>
                Shelve(groups, d)[x].name == Shelve(out, d)[x].name && Shelve(groups, d)[x].id == Shelve(out, d)[x].id
    {
      OrderedNames(out, rows, d, batch, x);
      ShelvedIs(out, d, x);
      ShelvedIs(rows, d, x);
    }
  }

  /** The write half: defaults resolved against the identities that landed, rows
      ordered and written. */
  method WriteMerged(groups: seq<Group>, d: Shelf, identities: set<Id>, key: string -> string)
    returns (store: Shelf, refused: seq<Group>, out: seq<Group>, ghost rows: seq<Group>, ghost batch: map<Id, Group>)
    requires DistinctGroups(groups) && Keyed(d) && UniqueNames(Shelve(groups, d), key)
    requires forall x | x in d :: x in Shelve(groups, d) && key(Shelve(groups, d)[x].name) == key(d[x].name)
    requires forall g | g in groups :: key(g.name) != ""
    ensures Planned(out, rows, d, batch) && |out| == |groups| && SameNames(Shelve(groups, d), Shelve(rows, d))
    ensures refused == [] <==> NoneBlocked(out, d)
    ensures NoSavedChild(out, d) ==> refused == []
    ensures refused == [] ==> store == Shelve(out, d)
    ensures Mixed(store, d, out, |out|, refused) && NoNewCycle(d, store) && UniqueNames(store, key)
    ensures forall x | x in d :: x in store && key(store[x].name) == key(d[x].name)
    ensures forall x :: DefaultStands(store, d, identities, x)
    ensures Labels(out) == Labels(groups) && RowIds(out) == RowIds(groups)
    ensures forall o | o in out :: RowWritten(o, groups, d, identities)
    ensures store == Wrote(out, d, identities, key) && refused == NotTaken(out, d, identities, key)
    ensures SameNames(Shelve(groups, d), Shelve(out, d))
  {
    var resolved := ResolveGroupDefaults(groups, identities);
    rows := resolved;
    DefaultsKeepNames(groups, d, identities, key);
    out, batch := OrderGroupWrites(resolved, d);
    PlannedIsWritable(out, rows, d, batch, identities, key);
    OrderKeepsRows(out, groups, rows, d, batch, identities);
    OutSameNames(out, groups, rows, d, batch);
    forall o | o in out ensures RowWritten(o, groups, d, identities) {
      OutIsWritten(out, groups, rows, d, batch, identities, o);
    }
    store, refused := WriteGroups(out, d, identities, key);
    forall x ensures DefaultStands(store, d, identities, x) {
      DefaultsStand(store, d, out, refused, identities, x);
    }
    if NoSavedChild(out, d) {
      NoSavedChildNeverBlocks(out, rows, d, batch);
    }
  }

  /** Merge, order and write: the groups of one import. */
  method ImportGroups(incoming: seq<Group>, existing: seq<Group>, hosts: seq<Host>, identities: set<Id>,
                      key: string -> string)
    returns (store: Shelf, moved: seq<Host>, merged: nat, keptNames: nat, refused: seq<Group>, out: seq<Group>,
             ghost rows: seq<Group>, ghost batch: map<Id, Group>, ghost plan: seq<Group>)
    requires DistinctGroups(incoming) && DistinctGroups(existing)
    requires UniqueNames(Shelve(existing, map[]), key)
    requires forall g | g in incoming :: key(g.name) != ""
    ensures Planned(out, rows, Shelve(existing, map[]), batch)
    ensures |out| + merged + keptNames == |incoming| && keptNames == |KeptRows(incoming, Shelve(existing, map[]), key)|
    ensures forall g | g in incoming :: RowOutcome(g, out, Shelve(existing, map[]), key)
    ensures var d := Shelve(existing, map[]);
            && (forall g | g in plan :: RowLanded(g, incoming, d, Shelve(plan, d), key))
            && RowIds(out) == RowIds(plan) && (forall o | o in out :: RowWritten(o, plan, d, identities))
            && store == Wrote(out, d, identities, key) && refused == NotTaken(out, d, identities, key)
    ensures refused == [] <==> NoneBlocked(out, Shelve(existing, map[]))
    ensures NoSavedChild(out, Shelve(existing, map[])) ==> refused == []
    ensures var d := Shelve(existing, map[]);
            && Mixed(store, d, out, |out|, refused) && NoNewCycle(d, store) && UniqueNames(store, key)
            && (forall x | x in d :: x in store && key(store[x].name) == key(d[x].name))
            && |moved| == |hosts|
            && (forall i | 0 <= i < |hosts| :: Filed(hosts[i], moved[i], incoming, d, out, store, refused, key))
  {
    ghost var d := Shelve(existing, map[]);
    ShelfIsKeyed(existing);
    var groups;
    groups, moved, merged, keptNames := MergeGroups(incoming, existing, hosts, key);
    plan := groups;
    NonBlankRows(groups, incoming, d, key);
    store, refused, out, rows, batch := WriteMerged(groups, Shelve(existing, map[]), identities, key);
    forall g | g in incoming ensures RowOutcome(g, out, d, key) {
      OutcomeInOut(g, groups, out, d, key);
    }
    forall i | 0 <= i < |hosts| ensures Filed(hosts[i], moved[i], incoming, d, out, store, refused, key) {
      FiledOrRefused(out, rows, d, batch, incoming, hosts[i], moved[i], key, Shelve(groups, d), store, refused);
    }
  }

  // -------------------------------------------------------- a chain through the store

  /** Saved: `e` under `a` under `b`. */
  function SavedChain(a: Id, b: Id, e: Id): Shelf {
    map[a := Group(a, "A", Some(b), None, ""),
        b := Group(b, "B", None, None, ""),
        e := Group(e, "E", Some(a), None, "")]
  }

  /** The file: `b` under `e`, `a` a root, in this order. */
  function Turned(a: Id, b: Id, e: Id): seq<Group> {
    [Group(b, "B", Some(e), None, ""), Group(a, "A", None, None, "")]
  }

  lemma TurnedPointers(a: Id, b: Id, e: Id)
    requires a != b && b != e && a != e
    ensures Combined(Turned(a, b, e), SavedChain(a, b, e)) == map[a := None, b := Some(e), e := Some(a)]
  {
    var d, t := SavedChain(a, b, e), Turned(a, b, e);
    assert t[..1] == [t[0]] && t[..1][..0] == [];
    assert Shelve(t[..0], d) == d;
    assert Shelve(t[..1], d) == d[b := t[0]];
    assert Shelve(t, d) == d[b := t[0]][a := t[1]];
  }

  lemma TurnedIsForest(a: Id, b: Id, e: Id)
    requires a != b && b != e && a != e
    ensures Effective(map[a := None, b := Some(e), e := Some(a)], b) == Some(e)
  {
    var p: Parents := map[a := None, b := Some(e), e := Some(a)];
    assert Climb(p, b, 0) == Some(b);
    assert Climb(p, b, 1) == Some(e);
    assert Climb(p, b, 2) == Some(a);
    assert Climb(p, b, 3) == None;
    forall n: nat | n > 0 ensures Climb(p, b, n) != Some(b) {
      if n > 2 && Climb(p, b, n).Some? {
        ClimbStays(p, b, 3, n);
      }
    }
  }

  /** A row with no parent in the batch has nothing above it there. */
  lemma {:induction false} AloneInBatch(w: Parents, x: Id, n: nat)
    requires Up(w, x) == None && Climb(w, x, n).Some?
    ensures Climb(w, x, n) == Some(x)
  {
    if n > 0 {
      AloneInBatch(w, x, n - 1);
    }
  }

  /** An eager order starts with a first row that needs nothing. */
  lemma FirstComesFirst(out: seq<Group>, incoming: seq<Group>, batch: map<Id, Group>)
    requires IsOrder(out, incoming, batch) && incoming != [] && Up(Within(batch), incoming[0].id) == None
    ensures out != [] && out[0].id == incoming[0].id
  {
    assert RowAt(out, incoming[0].id) && Eager(out, incoming, batch, 0);
    var q :| 0 <= q < |out| && out[q].id == incoming[0].id;
    if q > 0 {
      assert Needed(incoming, batch, 1, out[0].id);
      var n: nat :| Climb(Within(batch), incoming[0].id, n) == Some(out[0].id);
      AloneInBatch(Within(batch), incoming[0].id, n);
    }
  }

  lemma TurnBlocks(a: Id, b: Id, e: Id)
    requires a != b && b != e && a != e
    ensures ClosesCycle(SavedChain(a, b, e), Group(b, "B", Some(e), None, ""))
  {
    var q := Pointers(SavedChain(a, b, e))[b := Some(e)];
    assert Climb(q, b, 0) == Some(b);
    assert Climb(q, b, 1) == Some(e);
    assert Climb(q, b, 2) == Some(a);
    assert Climb(q, b, 3) == Some(b);
  }

  /** The order looks only at parents inside the file: `b` is written first, while `a`
      still hangs under it in the store, and is refused as a cycle, although the planned
      store has none. */
  lemma SavedGroupBetween(a: Id, b: Id, e: Id, out: seq<Group>, batch: map<Id, Group>)
    requires a != b && b != e && a != e
    requires Planned(out, Turned(a, b, e), SavedChain(a, b, e), batch)
    ensures Blocked(out, SavedChain(a, b, e), 0)
    ensures !NoneBlocked(out, SavedChain(a, b, e)) && !NoSavedChild(out, SavedChain(a, b, e))
    ensures Acyclic(Pointers(Shelve(out, SavedChain(a, b, e))))
  {
    var t, d := Turned(a, b, e), SavedChain(a, b, e);
    TurnedFirst(a, b, e, out, batch);
    assert out[..0] == [] && Shelve(out[..0], d) == d;
    TurnBlocks(a, b, e);
    assert Blocked(out, d, 0);
    if NoSavedChild(out, d) {
      NoSavedChildNeverBlocks(out, t, d, batch);
    }
    TurnedAcyclic(a, b, e, out, batch);
  }

  lemma TurnedFirst(a: Id, b: Id, e: Id, out: seq<Group>, batch: map<Id, Group>)
    requires a != b && b != e && a != e
    requires Planned(out, Turned(a, b, e), SavedChain(a, b, e), batch)
    ensures out != [] && out[0] == Turned(a, b, e)[0]
  {
    var t, d := Turned(a, b, e), SavedChain(a, b, e);
    TurnedBatch(a, b, e, batch);
    FirstComesFirst(out, t, batch);
    assert out[0] in out;
  }

  lemma TurnedBatch(a: Id, b: Id, e: Id, batch: map<Id, Group>)
    requires a != b && b != e && a != e
    requires IsBatch(batch, Turned(a, b, e), Combined(Turned(a, b, e), SavedChain(a, b, e)))
    ensures b in batch && batch[b] == Turned(a, b, e)[0] && Up(Within(batch), b) == None
  {
    var t := Turned(a, b, e);
    TurnedPointers(a, b, e);
    TurnedIsForest(a, b, e);
    assert t[0] in t;
    assert e !in batch by {
      assert forall g | g in t :: g.id != e;
    }
  }

  lemma TurnedAcyclic(a: Id, b: Id, e: Id, out: seq<Group>, batch: map<Id, Group>)
    requires a != b && b != e && a != e
    requires Planned(out, Turned(a, b, e), SavedChain(a, b, e), batch)
    ensures Acyclic(Pointers(Shelve(out, SavedChain(a, b, e))))
  {
    var t, d := Turned(a, b, e), SavedChain(a, b, e);
    var r, p := Pointers(Shelve(out, d)), Combined(t, d);
    PlannedPointers(out, t, d, batch);
    TurnedPointers(a, b, e);
    forall x ensures !OnCycle(r, x) {
      if OnCycle(r, x) {
        var n: nat :| n > 0 && Climb(r, x, n) == Some(x);
        SubClimb(r, p, x, n);
        TurnedEnds(p, a, b, e, x, n);
      }
    }
  }

  lemma TurnedEnds(p: Parents, a: Id, b: Id, e: Id, x: Id, n: nat)
    requires a != b && b != e && a != e && p == map[a := None, b := Some(e), e := Some(a)] && n > 0
    ensures Climb(p, x, n) != Some(x)
  {
    assert Climb(p, x, 0) == Some(x);
    assert Climb(p, x, 1) == Up(p, x);
    if n == 2 {
      assert Climb(p, x, 2) != Some(x);
    } else if n > 2 && Climb(p, x, n).Some? {
      ClimbStays(p, x, 3, n);
      ClimbStays(p, x, 2, n);
    }
  }
}
