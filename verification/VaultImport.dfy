/**
 The credential passes of an import (`backup/file.ts`): which identities survive, what
 each host row's binding may become, and why nothing the writes do afterwards can
 release an account this machine holds.
 */
module VaultImport {
  import opened Records
  import opened HostStore
  import opened Vault

  // ------------------------------------------------------------------- identities

  /** What becomes of one incoming identity: kept whole, kept without a key it does not
      authenticate with, or skipped. */
  ghost predicate NormalOf(i: Identity, keys: set<Id>, r: Option<Identity>) {
    && (KeyRefOk(i, keys) ==> r == Some(i))
    && (!KeyRefOk(i, keys) && i.mode != Key ==> r == Some(i.(keyId := None)))
    && (!KeyRefOk(i, keys) && i.mode == Key ==> r == None)
  }

  /** The survivors of a list, in order. */
  ghost predicate NormalList(ins: seq<Identity>, keys: set<Id>, outs: seq<Identity>, withoutKeys: nat, keysDropped: nat)
  {
    if ins == [] then outs == [] && withoutKeys == 0 && keysDropped == 0
    else
      var i := ins[|ins| - 1];
      var rest := ins[..|ins| - 1];
      if KeyRefOk(i, keys) then
        |outs| > 0 && outs[|outs| - 1] == i && NormalList(rest, keys, outs[..|outs| - 1], withoutKeys, keysDropped)
      else if i.mode == Key then withoutKeys > 0 && NormalList(rest, keys, outs, withoutKeys - 1, keysDropped)
      else
        && |outs| > 0 && outs[|outs| - 1] == i.(keyId := None) && keysDropped > 0
        && NormalList(rest, keys, outs[..|outs| - 1], withoutKeys, keysDropped - 1)
  }

  /** `normaliseIdentityKeys`. */
  method NormaliseIdentityKeys(identities: seq<Identity>, keys: set<Id>, existingKeys: set<Id>)
    returns (outs: seq<Identity>, withoutKeys: nat, keysDropped: nat)
    ensures NormalList(identities, keys + existingKeys, outs, withoutKeys, keysDropped)
  {
    var willExist := existingKeys + keys;
    outs, withoutKeys, keysDropped := [], 0, 0;
    for n := 0 to |identities|
      invariant NormalList(identities[..n], willExist, outs, withoutKeys, keysDropped)
    {
      var i := identities[n];
      assert identities[..n + 1][..n] == identities[..n];
      if i.keyId.Some? && i.keyId.value in willExist {
        outs := outs + [i];
      } else if i.mode == Key {
        withoutKeys := withoutKeys + 1;
      } else if i.keyId.Some? {
        keysDropped := keysDropped + 1;
        outs := outs + [i.(keyId := None)];
      } else {
        outs := outs + [i];
      }
    }
    assert identities[..|identities|] == identities;
    assert willExist == keys + existingKeys;
  }

  /** Every survivor is one the vault accepts, is its own row but for a dropped key, and
      never trades key auth for another mode; the counts account for every row. */
  lemma {:induction false} NormalisedIsClosed(ins: seq<Identity>, keys: set<Id>, outs: seq<Identity>,
                                              withoutKeys: nat, keysDropped: nat)
    requires NormalList(ins, keys, outs, withoutKeys, keysDropped)
    ensures forall o | o in outs :: KeyRefOk(o, keys) && exists i :: i in ins && NormalOf(i, keys, Some(o))
    ensures |outs| + withoutKeys == |ins|
    ensures forall i | i in ins && !(i.mode == Key && !KeyRefOk(i, keys)) ::
              exists o :: o in outs && NormalOf(i, keys, Some(o))
    decreases |ins|
  {
    if ins != [] {
      var n := |ins| - 1;
      var i := ins[n];
      assert ins == ins[..n] + [i];
      if KeyRefOk(i, keys) || i.mode != Key {
        var m := |outs| - 1;
        assert outs == outs[..m] + [outs[m]];
        var before := if KeyRefOk(i, keys) then keysDropped else keysDropped - 1;
        NormalisedIsClosed(ins[..n], keys, outs[..m], withoutKeys, before);
        assert NormalOf(i, keys, Some(outs[m]));
      } else {
        NormalisedIsClosed(ins[..n], keys, outs, withoutKeys - 1, keysDropped);
      }
    }
  }

  ghost predicate DistinctIdentities(rows: seq<Identity>) {
    forall i, j | 0 <= i < j < |rows| :: rows[i].id != rows[j].id
  }

  /** Skipping rows repeats none. */
  lemma {:induction false} NormalisedIsDistinct(ins: seq<Identity>, keys: set<Id>, outs: seq<Identity>,
                                                withoutKeys: nat, keysDropped: nat)
    requires NormalList(ins, keys, outs, withoutKeys, keysDropped) && DistinctIdentities(ins)
    ensures DistinctIdentities(outs)
    ensures forall o | o in outs :: exists i :: i in ins && i.id == o.id
    decreases |ins|
  {
    if ins != [] {
      var n := |ins| - 1;
      var i := ins[n];
      assert ins == ins[..n] + [i];
      if KeyRefOk(i, keys) || i.mode != Key {
        var m := |outs| - 1;
        assert outs == outs[..m] + [outs[m]];
        var before := if KeyRefOk(i, keys) then keysDropped else keysDropped - 1;
        NormalisedIsDistinct(ins[..n], keys, outs[..m], withoutKeys, before);
        OneMoreIsDistinct(ins, outs[..m], n);
      } else {
        NormalisedIsDistinct(ins[..n], keys, outs, withoutKeys - 1, keysDropped);
      }
    }
  }

  /** What becomes of one identity of the file, in the list that is kept. */
  ghost predicate IdentityOutcome(i: Identity, keys: set<Id>, kept: seq<Identity>) {
    && (KeyRefOk(i, keys) ==> i in kept)
    && (!KeyRefOk(i, keys) && i.mode != Key ==> i.(keyId := None) in kept)
    && (!KeyRefOk(i, keys) && i.mode == Key ==> forall o | o in kept :: o.id != i.id)
  }

  lemma IdentityComesOut(ins: seq<Identity>, keys: set<Id>, outs: seq<Identity>, i: Identity)
    requires DistinctIdentities(ins) && i in ins
    requires forall o | o in outs :: exists j :: j in ins && NormalOf(j, keys, Some(o))
    requires forall j | j in ins && !(j.mode == Key && !KeyRefOk(j, keys)) ::
               exists o :: o in outs && NormalOf(j, keys, Some(o))
    ensures IdentityOutcome(i, keys, outs)
  {
    if KeyRefOk(i, keys) || i.mode != Key {
      var o :| o in outs && NormalOf(i, keys, Some(o));
    } else {
      forall o | o in outs ensures o.id != i.id {
        var j :| j in ins && NormalOf(j, keys, Some(o));
        SameIdentity(ins, i, j);
      }
    }
  }

  lemma SameIdentity(ins: seq<Identity>, i: Identity, j: Identity)
    requires DistinctIdentities(ins) && i in ins && j in ins
    ensures i.id == j.id ==> i == j
  {
  }

  lemma OneMoreIsDistinct(ins: seq<Identity>, outs: seq<Identity>, n: nat)
    requires DistinctIdentities(ins) && n < |ins|
    requires forall o | o in outs :: exists i :: i in ins[..n] && i.id == o.id
    ensures forall o | o in outs :: o.id != ins[n].id
  {
    forall o | o in outs ensures o.id != ins[n].id {
      var i :| i in ins[..n] && i.id == o.id;
      var j :| 0 <= j < n && ins[..n][j] == i;
      assert ins[j].id == o.id;
    }
  }

  // ------------------------------------------------------------------ host bindings

  predicate SameProtocol(a: Host, b: Host) {
    a.Ssh? <==> b.Ssh?
  }

  /** `refuseProtocolConflicts`. */
  function RefuseProtocolConflicts(incoming: seq<Host>, saved: Disk): (r: seq<Host>)
    ensures forall h :: h in r <==> h in incoming && (h.id in saved ==> SameProtocol(h, saved[h.id]))
    ensures |r| <= |incoming|
  {
    if incoming == [] then []
    else
      var rest := RefuseProtocolConflicts(incoming[..|incoming| - 1], saved);
      var h := incoming[|incoming| - 1];
      assert incoming == incoming[..|incoming| - 1] + [h];
      if h.id in saved && !SameProtocol(h, saved[h.id]) then rest else rest + [h]
  }

  /** Row by row, in the file's order. */
  lemma RefusedInOrder(rows: seq<Host>, h: Host, saved: Disk)
    ensures RefuseProtocolConflicts(rows + [h], saved)
         == RefuseProtocolConflicts(rows, saved) + if h.id in saved && !SameProtocol(h, saved[h.id]) then [] else [h]
  {
    var all := rows + [h];
    assert all[..|all| - 1] == rows && all[|all| - 1] == h;
  }

  lemma SnocDistinct(rows: seq<Host>, h: Host)
    requires DistinctHosts(rows) && forall r | r in rows :: r.id != h.id
    ensures DistinctHosts(rows + [h])
  {
  }

  lemma EarlierRowsDiffer(rows: seq<Host>, n: nat, h: Host)
    requires DistinctHosts(rows) && n < |rows| && h in rows[..n]
    ensures h.id != rows[n].id
  {
    var j :| 0 <= j < n && rows[..n][j] == h;
    assert rows[j] == h;
  }

  lemma {:induction false} RefusedRowsAreDistinct(incoming: seq<Host>, saved: Disk)
    requires DistinctHosts(incoming)
    ensures DistinctHosts(RefuseProtocolConflicts(incoming, saved))
  {
    if incoming != [] {
      var n := |incoming| - 1;
      var rest := RefuseProtocolConflicts(incoming[..n], saved);
      RefusedRowsAreDistinct(incoming[..n], saved);
      forall h | h in rest ensures h.id != incoming[n].id {
        EarlierRowsDiffer(incoming, n, h);
      }
      SnocDistinct(rest, incoming[n]);
    }
  }

  /** An inline binding with nothing in it. */
  function BlankInline(h: Host): Credential {
    Inline(h.id, "", Password, false, false, false)
  }

  /** One row of `resolveIdentityBindings`. */
  function ResolveBinding(h: Host, saved: Option<Host>, identityIds: set<Id>): Host {
    if h.cred.Bound? && saved.None? && h.cred.identityId in identityIds then h
    else if h.cred.Inline? && !(saved.Some? && saved.value.cred.Bound?) then h
    else h.(cred := if saved.Some? && SameProtocol(h, saved.value) then saved.value.cred else BlankInline(h))
  }

  /** The file's binding was honoured: the same kind, and the same identity. */
  predicate Honoured(h: Host, r: Host) {
    (h.cred.Bound? <==> r.cred.Bound?) && (h.cred.Bound? ==> h.cred == r.cred)
  }

  /** A binding the file brought to a host this machine did not have. */
  predicate Applied(r: Host, saved: Option<Host>) {
    r.cred.Bound? && saved.None?
  }

  function DroppedCount(hs: seq<Host>, rs: seq<Host>): nat
    requires |hs| == |rs|
  {
    if hs == [] then 0
    else var n := |hs| - 1; DroppedCount(hs[..n], rs[..n]) + if Honoured(hs[n], rs[n]) then 0 else 1
  }

  function AppliedCount(rs: seq<Host>, saved: Disk): nat {
    if rs == [] then 0
    else var n := |rs| - 1; AppliedCount(rs[..n], saved) + if Applied(rs[n], Lookup(saved, rs[n].id)) then 1 else 0
  }

  /** What a resolved row is: the file's in all but its credential. Over a saved host an
      inline row keeps the file's own credential unless the saved host is bound, and every
      other row takes the saved one; a new host keeps what the file says, unless that is
      an identity that will not exist, when it is blank. A saved host of the other protocol
      (which the import has refused by then) lends no credential. */
  ghost predicate Settled(h: Host, r: Host, saved: Option<Host>, identityIds: set<Id>) {
    && r == h.(cred := r.cred)
    && (saved.Some? && SameProtocol(h, saved.value) ==>
          if h.cred.Inline? && saved.value.cred.Inline? then r.cred == h.cred else r.cred == saved.value.cred)
    && (saved.None? ==>
          if h.cred.Inline? || h.cred.identityId in identityIds then r.cred == h.cred
          else r.cred == Inline(h.id, "", Password, false, false, false))
    && (saved.Some? && !SameProtocol(h, saved.value) ==>
          if h.cred.Inline? && saved.value.cred.Inline? then r.cred == h.cred
          else r.cred == Inline(h.id, "", Password, false, false, false))
  }

  /** The three outcomes: applied, kept and counted in neither, kept and dropped. */
  lemma BindingSettles(h: Host, known: Option<Host>, identityIds: set<Id>)
    ensures var r := ResolveBinding(h, known, identityIds);
            var applies := h.cred.Bound? && known.None? && h.cred.identityId in identityIds;
            var keeps := !applies && (h.cred.Bound? || (known.Some? && known.value.cred.Bound?));
            && Settled(h, r, known, identityIds) && r.id == h.id
            && (Applied(r, known) <==> applies)
            && ((known.Some? ==> SameProtocol(h, known.value)) ==>
                  (Honoured(h, r) <==> !(keeps && !(h.cred.Bound? && r.cred == h.cred))))
  {
  }

  lemma CountNext(hs: seq<Host>, rs: seq<Host>, saved: Disk, i: nat, r: Host)
    requires i < |hs| && |rs| == i
    ensures DroppedCount(hs[..i + 1], rs + [r]) == DroppedCount(hs[..i], rs) + if Honoured(hs[i], r) then 0 else 1
    ensures AppliedCount(rs + [r], saved)
         == AppliedCount(rs, saved) + if Applied(r, Lookup(saved, r.id)) then 1 else 0
  {
    assert hs[..i + 1][..i] == hs[..i];
    assert (rs + [r])[..i] == rs;
  }

  /** What `refuseProtocolConflicts` leaves. */
  ghost predicate NoConflicts(hs: seq<Host>, saved: Disk) {
    forall i | 0 <= i < |hs| && hs[i].id in saved :: SameProtocol(hs[i], saved[hs[i].id])
  }

  /** `resolveIdentityBindings`. */
  method ResolveIdentityBindings(incoming: seq<Host>, saved: Disk, identityIds: set<Id>)
    returns (outs: seq<Host>, applied: nat, dropped: nat)
    ensures |outs| == |incoming|
    ensures forall i | 0 <= i < |outs| :: Settled(incoming[i], outs[i], Lookup(saved, incoming[i].id), identityIds)
    ensures applied == AppliedCount(outs, saved)
    ensures NoConflicts(incoming, saved) ==> dropped == DroppedCount(incoming, outs)
  {
    outs, applied, dropped := [], 0, 0;
    for i := 0 to |incoming|
      invariant |outs| == i
      invariant forall j | 0 <= j < i :: Settled(incoming[j], outs[j], Lookup(saved, incoming[j].id), identityIds)
      invariant applied == AppliedCount(outs, saved)
      invariant NoConflicts(incoming, saved) ==> dropped == DroppedCount(incoming[..i], outs)
    {
      var h := incoming[i];
      var known := Lookup(saved, h.id);
      var r := ResolveBinding(h, known, identityIds);
      BindingSettles(h, known, identityIds);
      if h.cred.Bound? && known.None? && h.cred.identityId in identityIds {
        applied := applied + 1;
      } else if h.cred.Bound? || (known.Some? && known.value.cred.Bound?) {
        if !(h.cred.Bound? && r.cred == h.cred) {
          dropped := dropped + 1;
        }
      }
      CountNext(incoming, outs, saved, i, r);
      outs := outs + [r];
    }
    assert incoming[..|incoming|] == incoming;
  }

  // ----------------------------------------------------------- nothing is released

  /** A write of `r` over `s` can still name every account `s` could. */
  predicate Agrees(r: Host, s: Host) {
    SameProtocol(r, s) && (r.cred.Bound? <==> s.cred.Bound?)
  }

  ghost predicate AllAgree(rows: seq<Host>, d: Disk) {
    forall i | 0 <= i < |rows| && rows[i].id in d :: Agrees(rows[i], d[rows[i].id])
  }

  /** One host write of an import: a row, the fields just landed, and whether the store
      took it. */
  datatype HostWrite = HostWrite(row: nat, already: set<Field>, taken: bool)

  function ApplyWrite(w: World, rows: seq<Host>, x: HostWrite): World {
    if x.row >= |rows| || !x.taken then w
    else
      var h := rows[x.row];
      ReleaseFields(PersistHost(w, h, x.already), h.id, StaleFields(h, Lookup(w.hosts, h.id)))
  }

  function ApplyWrites(w: World, rows: seq<Host>, xs: seq<HostWrite>): World {
    if xs == [] then w else ApplyWrite(ApplyWrites(w, rows, xs[..|xs| - 1]), rows, xs[|xs| - 1])
  }

  lemma AgreeingReleasesNothing(w: World, rows: seq<Host>, x: HostWrite)
    requires AllAgree(rows, w.hosts) && DistinctHosts(rows)
    ensures ApplyWrite(w, rows, x).keychain == w.keychain
    ensures AllAgree(rows, ApplyWrite(w, rows, x).hosts)
    ensures x.row < |rows| && x.taken ==> StoredAs(ApplyWrite(w, rows, x).hosts, rows[x.row])
    ensures forall i | 0 <= i < |rows| && !(x.taken && x.row == i) ::
              Lookup(ApplyWrite(w, rows, x).hosts, rows[i].id) == Lookup(w.hosts, rows[i].id)
    ensures forall y | y !in HostIds(rows) :: Lookup(ApplyWrite(w, rows, x).hosts, y) == Lookup(w.hosts, y)
  {
    if x.row < |rows| && x.taken {
      assert rows[x.row] in rows;
      var h := rows[x.row];
      assert StaleFields(h, Lookup(w.hosts, h.id)) == {};
      assert HostAccounts(h.id, {}) == {};
    }
  }

  /** Some taken write was of this row. */
  ghost predicate Took(rows: seq<Host>, xs: seq<HostWrite>, i: nat) {
    exists x :: x in xs && x.taken && x.row == i
  }

  /** A row as stored, whatever its flags. */
  ghost predicate StoredAs(d: Disk, h: Host) {
    && h.id in d && d[h.id] == h.(cred := d[h.id].cred) && (h.cred.Bound? ==> d[h.id].cred == h.cred)
    && (h.cred.Inline? ==> d[h.id].cred.Inline? && d[h.id].cred.user == h.cred.user && d[h.id].cred.mode == h.cred.mode)
  }

  /** Any sequence of writes of such rows, in any order, repeated or refused, leaves the
      whole keychain as it was, stores every row a write took, and touches no other host. */
  lemma {:induction false} WritesReleaseNothing(w: World, rows: seq<Host>, xs: seq<HostWrite>)
    requires AllAgree(rows, w.hosts) && DistinctHosts(rows)
    ensures ApplyWrites(w, rows, xs).keychain == w.keychain
    ensures AllAgree(rows, ApplyWrites(w, rows, xs).hosts)
    ensures forall i | 0 <= i < |rows| :: if Took(rows, xs, i) then StoredAs(ApplyWrites(w, rows, xs).hosts, rows[i])
              else Lookup(ApplyWrites(w, rows, xs).hosts, rows[i].id) == Lookup(w.hosts, rows[i].id)
    ensures forall x | x !in HostIds(rows) :: Lookup(ApplyWrites(w, rows, xs).hosts, x) == Lookup(w.hosts, x)
  {
    if xs != [] {
      var n := |xs| - 1;
      WritesReleaseNothing(w, rows, xs[..n]);
      AgreeingReleasesNothing(ApplyWrites(w, rows, xs[..n]), rows, xs[n]);
      assert xs == xs[..n] + [xs[n]];
      forall i | 0 <= i < |rows|
        ensures Took(rows, xs, i) <==> Took(rows, xs[..n], i) || (xs[n].taken && xs[n].row == i)
      {
      }
    }
  }

  /** Every row after both passes agrees with the record saved under its id. */
  lemma ResolvedRowsAgree(incoming: seq<Host>, outs: seq<Host>, saved: Disk, identityIds: set<Id>)
    requires NoConflicts(incoming, saved) && DistinctHosts(incoming) && |outs| == |incoming|
    requires forall i | 0 <= i < |outs| :: Settled(incoming[i], outs[i], Lookup(saved, incoming[i].id), identityIds)
    ensures AllAgree(outs, saved) && DistinctHosts(outs)
  {
    forall i | 0 <= i < |outs| ensures outs[i].id == incoming[i].id {
      assert Settled(incoming[i], outs[i], Lookup(saved, incoming[i].id), identityIds);
    }
    forall i | 0 <= i < |outs| && outs[i].id in saved ensures Agrees(outs[i], saved[outs[i].id]) {
      assert Settled(incoming[i], outs[i], Lookup(saved, incoming[i].id), identityIds);
    }
  }

  /** A row's binding is this machine's own, or a new host's to an identity of the set. */
  ghost predicate BindingIn(r: Host, saved: Disk, identityIds: set<Id>) {
    r.cred.Bound? ==>
      if r.id in saved then saved[r.id].cred == r.cred else r.cred.identityId in identityIds
  }

  lemma SettledIsClosed(h: Host, r: Host, saved: Disk, identityIds: set<Id>)
    requires Settled(h, r, Lookup(saved, h.id), identityIds) && (h.id in saved ==> SameProtocol(h, saved[h.id]))
    ensures BindingIn(r, saved, identityIds)
  {
  }

  /** The two host passes. */
  method ResolveHosts(hosts: seq<Host>, saved: Disk, identityIds: set<Id>)
    returns (kinds: seq<Host>, rows: seq<Host>, applied: nat, dropped: nat)
    requires DistinctHosts(hosts)
    ensures kinds == RefuseProtocolConflicts(hosts, saved) && |rows| == |kinds|
    ensures forall i | 0 <= i < |rows| ::
              rows[i] == kinds[i].(cred := rows[i].cred) && BindingIn(rows[i], saved, identityIds)
    ensures forall i | 0 <= i < |rows| :: Settled(kinds[i], rows[i], Lookup(saved, kinds[i].id), identityIds)
    ensures AllAgree(rows, saved) && DistinctHosts(rows)
    ensures applied == AppliedCount(rows, saved) && dropped == DroppedCount(kinds, rows)
  {
    kinds := RefuseProtocolConflicts(hosts, saved);
    RefusedRowsAreDistinct(hosts, saved);
    rows, applied, dropped := ResolveIdentityBindings(kinds, saved, identityIds);
    assert NoConflicts(kinds, saved) by {
      assert forall i | 0 <= i < |kinds| :: kinds[i] in kinds;
    }
    ResolvedRowsAgree(kinds, rows, saved, identityIds);
    forall i | 0 <= i < |rows|
      ensures rows[i] == kinds[i].(cred := rows[i].cred) && BindingIn(rows[i], saved, identityIds)
    {
      SettledIsClosed(kinds[i], rows[i], saved, identityIds);
    }
  }

  /** The credential passes in their order: identities first, then protocols, then
      bindings against what survived. */
  method ResolveCredentials(identities: seq<Identity>, keys: set<Id>, existingKeys: set<Id>,
                            existingIdentities: set<Id>,
                            hosts: seq<Host>, saved: Disk)
    returns (kept: seq<Identity>, kinds: seq<Host>, rows: seq<Host>, applied: nat, dropped: nat)
    requires DistinctHosts(hosts)
    ensures forall i | i in kept :: KeyRefOk(i, keys + existingKeys)
    ensures DistinctIdentities(identities) ==> DistinctIdentities(kept)
    ensures DistinctIdentities(identities) ==>
              forall i | i in identities :: IdentityOutcome(i, keys + existingKeys, kept)
    ensures kinds == RefuseProtocolConflicts(hosts, saved) && |rows| == |kinds|
    ensures forall i | 0 <= i < |rows| ::
              && rows[i] == kinds[i].(cred := rows[i].cred)
              && BindingIn(rows[i], saved, (set x | x in kept :: x.id) + existingIdentities)
              && Settled(kinds[i], rows[i], Lookup(saved, kinds[i].id),
                         (set x | x in kept :: x.id) + existingIdentities)
    ensures AllAgree(rows, saved) && DistinctHosts(rows)
    ensures applied == AppliedCount(rows, saved) && dropped == DroppedCount(kinds, rows)
  {
    var withoutKeys, keysDropped;
    kept, withoutKeys, keysDropped := NormaliseIdentityKeys(identities, keys, existingKeys);
    NormalisedIsClosed(identities, keys + existingKeys, kept, withoutKeys, keysDropped);
    if DistinctIdentities(identities) {
      NormalisedIsDistinct(identities, keys + existingKeys, kept, withoutKeys, keysDropped);
      forall i | i in identities ensures IdentityOutcome(i, keys + existingKeys, kept) {
        IdentityComesOut(identities, keys + existingKeys, kept, i);
      }
    }
    var identityIds := (set i | i in kept :: i.id) + existingIdentities;
    kinds, rows, applied, dropped := ResolveHosts(hosts, saved, identityIds);
  }
}
