/**
 The import as one operation, from the raw payload to the four stores and the keychain,
 and what holds of all of them together however many of its writes failed.
 */
module WholeImport {
  import opened Records
  import opened HostStore
  import opened JumpChains
  import opened HostImport
  import opened Vault
  import opened VaultImport
  import opened BackupImport
  import M = GroupMerge
  import G = GroupImport
  import W = GroupWrites

  /** What one import did: the identities and rows its passes let through, what its
      writes saved, what the keychain step was asked for and wrote, and what of its
      answer the flag passes recorded. */
  datatype Report = Report(
    kept: seq<Identity>, rows: seq<Host>, moved: seq<Host>, order: seq<Host>,
    savedKeys: map<Id, VaultKey>, savedIdentities: map<Id, Identity>,
    asked: seq<Account>, written: set<Account>, recorded: set<Account>)

  // ------------------------------------------------------------------ the host rows

  /** Rows ready for the reference passes: each is a file row that agrees in protocol and
      kind of binding with the record saved under its id. */
  ghost predicate Ready(rows: seq<Host>, saved: Disk, identityIds: set<Id>) {
    && DistinctHosts(rows) && AllAgree(rows, saved)
    && forall i | 0 <= i < |rows| :: Sanitized(rows[i]) && BindingIn(rows[i], saved, identityIds)
  }

  /** Repointing a group changes nothing of that. */
  lemma RepointedIsReady(rows: seq<Host>, moved: seq<Host>, saved: Disk, identityIds: set<Id>)
    requires Ready(rows, saved, identityIds) && |moved| == |rows|
    requires forall i | 0 <= i < |rows| :: moved[i] == rows[i].(group := moved[i].group)
    ensures Ready(moved, saved, identityIds)
  {
  }

  lemma ResolvedIsReady(kinds: seq<Host>, rows: seq<Host>, hosts: seq<Host>, saved: Disk, identityIds: set<Id>)
    requires forall h | h in hosts :: Sanitized(h)
    requires kinds == RefuseProtocolConflicts(hosts, saved) && |rows| == |kinds|
    requires forall i | 0 <= i < |rows| ::
               rows[i] == kinds[i].(cred := rows[i].cred) && BindingIn(rows[i], saved, identityIds)
    requires AllAgree(rows, saved) && DistinctHosts(rows)
    ensures Ready(rows, saved, identityIds)
  {
    forall i | 0 <= i < |rows| ensures Sanitized(rows[i]) {
      assert kinds[i] in kinds;
    }
  }

  /** The file's row is one this machine can take: no host of the other protocol is saved
      under its id. */
  predicate Takes(h: Host, saved: Disk) {
    h.id in saved ==> SameProtocol(h, saved[h.id])
  }

  /** A row is some row of the file this machine can take, its credential settled. */
  ghost predicate RowFrom(hosts: seq<Host>, row: Host, saved: Disk, identityIds: set<Id>) {
    exists h :: h in hosts && Takes(h, saved) && Settled(h, row, Lookup(saved, h.id), identityIds)
  }

  /** The rows are those of the file this machine can take, all of them and no others. */
  ghost predicate RowsFromFile(hosts: seq<Host>, rows: seq<Host>, saved: Disk, identityIds: set<Id>) {
    && (forall h | h in hosts :: Takes(h, saved) <==> h.id in HostIds(rows))
    && (forall i | 0 <= i < |rows| :: RowFrom(hosts, rows[i], saved, identityIds))
  }

  lemma KindsAreTheFile(hosts: seq<Host>, kinds: seq<Host>, rows: seq<Host>, saved: Disk, identityIds: set<Id>)
    requires kinds == RefuseProtocolConflicts(hosts, saved) && |rows| == |kinds| && DistinctHosts(hosts)
    requires forall i | 0 <= i < |rows| :: Settled(kinds[i], rows[i], Lookup(saved, kinds[i].id), identityIds)
    ensures RowsFromFile(hosts, rows, saved, identityIds)
  {
    forall i | 0 <= i < |rows| ensures RowFrom(hosts, rows[i], saved, identityIds) {
      assert kinds[i] in kinds;
      assert Settled(kinds[i], rows[i], Lookup(saved, kinds[i].id), identityIds);
    }
    forall h | h in hosts ensures Takes(h, saved) <==> h.id in HostIds(rows) {
      TakenIffRow(hosts, kinds, rows, saved, identityIds, h);
    }
  }

  lemma TakenIffRow(hosts: seq<Host>, kinds: seq<Host>, rows: seq<Host>, saved: Disk, identityIds: set<Id>, h: Host)
    requires kinds == RefuseProtocolConflicts(hosts, saved) && |rows| == |kinds| && DistinctHosts(hosts) && h in hosts
    requires forall i | 0 <= i < |rows| :: Settled(kinds[i], rows[i], Lookup(saved, kinds[i].id), identityIds)
    ensures Takes(h, saved) <==> h.id in HostIds(rows)
  {
    if Takes(h, saved) {
      assert h in kinds;
      var i :| 0 <= i < |kinds| && kinds[i] == h;
      assert Settled(kinds[i], rows[i], Lookup(saved, kinds[i].id), identityIds);
      assert rows[i] in rows;
    }
    if h.id in HostIds(rows) {
      var i :| 0 <= i < |rows| && rows[i].id == h.id;
      assert Settled(kinds[i], rows[i], Lookup(saved, kinds[i].id), identityIds);
      assert kinds[i] in kinds && kinds[i].id == h.id;
      SameHost(hosts, kinds[i], h);
    }
  }

  lemma SameHost(hosts: seq<Host>, a: Host, b: Host)
    requires DistinctHosts(hosts) && a in hosts && b in hosts && a.id == b.id
    ensures a == b
  {
  }

  /** A row in write order is one of them with at most its reference cleared. */
  lemma OrderedRowIs(rows: seq<Host>, saved: Disk, order: seq<Host>, h: Host, cap: nat) returns (i: nat)
    requires Emitted(Overlay(Cleared(rows, saved, cap), map[]), HostIds(rows), order) && h in order
    ensures i < |rows| && h.id == rows[i].id && h.cred == rows[i].cred && h.group == rows[i].group
    ensures SameProtocol(h, rows[i]) && h.details == rows[i].details
    ensures ReferenceOf(h) == ReferenceOf(rows[i]) || ReferenceOf(h) == ""
  {
    var cleared := Cleared(rows, saved, cap);
    assert h.id in HostIds(order);
    OverlayKeys(cleared, map[]);
    OverlayIsRow(cleared, map[], h.id);
    i :| 0 <= i < |cleared| && cleared[i] == h;
    ClearedExactly(rows, saved, cap, i);
  }

  // ------------------------------------------------------------------- what is kept

  /** A flag that is set stands over an account that is there. */
  ghost predicate HostBacked(w: World, x: Id) {
    x in w.hosts && w.hosts[x].cred.Inline? ==>
      forall f | f in SecretFields(w.hosts[x]) && Flag(w.hosts[x].cred, f) :: HostAccount(x, f) in w.keychain
  }

  ghost predicate VaultBacked(w: World, x: Id) {
    && (x in w.identities && w.identities[x].hasPassword ==> Account(VaultService, x, PasswordField) in w.keychain)
    && (x in w.keys && w.keys[x].hasPrivateKey ==> Account(VaultService, x, PrivateKeyField) in w.keychain)
    && (x in w.keys && w.keys[x].hasPassphrase ==> Account(VaultService, x, PassphraseField) in w.keychain)
  }

  ghost predicate FlagsBacked(w: World) {
    forall x :: HostBacked(w, x) && VaultBacked(w, x)
  }

  /** The stores after an import, in terms of what it saved, wrote and recorded: what
      the host writes released is gone from the keychain, and what landed is in it. */
  ghost predicate Stored(w: World, secrets: Keychain, rep: Report, v: World, claims: map<Id, set<Field>>) {
    && v.keys == KeysAfter(w.keys, rep.savedKeys, rep.recorded)
    && v.identities == IdentitiesAfter(w.identities, rep.savedIdentities, rep.recorded)
    && rep.recorded <= rep.written <= secrets.Keys
    && v.keychain == (w.keychain - Released(rep.order, w.hosts)) + LandedValues(secrets, rep.written)
    && Flagged(v.hosts, w.hosts, rep.order, claims, |rep.order|, rep.recorded)
  }

  function LandedValues(secrets: Keychain, written: set<Account>): Keychain {
    map a | a in written && a in secrets :: secrets[a]
  }

  /** The rows were ready, and their order is the one the import computes. */
  ghost predicate Ordered(rep: Report, saved: Disk, identityIds: set<Id>, cap: nat) {
    Ready(rep.moved, saved, identityIds) && PlannedOrder(rep.order, rep.moved, saved, cap)
  }

  lemma OrderedRowAgrees(rep: Report, saved: Disk, identityIds: set<Id>, cap: nat, h: Host)
    requires Ordered(rep, saved, identityIds, cap) && h in rep.order && h.id in saved
    ensures Agrees(h, saved[h.id]) && (h.cred.Bound? ==> h.cred == saved[h.id].cred)
  {
    var i := OrderedRowIs(rep.moved, saved, rep.order, h, cap);
    assert Agrees(rep.moved[i], saved[h.id]) && BindingIn(rep.moved[i], saved, identityIds);
  }

  /** No host write of an import releases an account: through the protocol filter, the
      binding pass, the group repoint and the clearing passes, a row over a saved host
      can still name every account that host owned. */
  lemma ImportReleasesNothing(rep: Report, saved: Disk, identityIds: set<Id>, cap: nat)
    requires Ordered(rep, saved, identityIds, cap)
    ensures Released(rep.order, saved) == {}
  {
    forall h | h in rep.order ensures StaleFields(h, Lookup(saved, h.id)) == {} {
      if h.id in saved {
        OrderedRowAgrees(rep, saved, identityIds, cap, h);
      }
    }
  }

  /** And exactly there it matters: a row that does not agree with the inline host saved
      under its id would release an account. */
  lemma ReleasedIff(rows: seq<Host>, saved: Disk)
    ensures Released(rows, saved) == {} <==>
              forall h | h in rows && h.id in saved :: SecretFields(saved[h.id]) <= SecretFields(h)
  {
    if Released(rows, saved) == {} {
      forall h | h in rows && h.id in saved ensures SecretFields(saved[h.id]) <= SecretFields(h) {
        forall f | f in SecretFields(saved[h.id]) ensures f in SecretFields(h) {
          assert f in StaleFields(h, Lookup(saved, h.id)) ==> HostAccount(h.id, f) in Released(rows, saved);
        }
      }
    }
  }

  /** So every account held before is held after, and only what landed is changed. */
  lemma NothingReleased(w: World, secrets: Keychain, rep: Report, v: World, claims: map<Id, set<Field>>,
                        identityIds: set<Id>, cap: nat, a: Account)
    requires Stored(w, secrets, rep, v, claims) && Ordered(rep, w.hosts, identityIds, cap)
    ensures Lookup(v.keychain, a) == if a in rep.written then Lookup(secrets, a) else Lookup(w.keychain, a)
    ensures a in w.keychain ==> a in v.keychain
  {
    ImportReleasesNothing(rep, w.hosts, identityIds, cap);
  }

  /** A flag of a written record was claimed now or by the record before it. */
  lemma FlagComesFrom(h: Host, stored: Option<Host>, already: set<Field>, f: Field)
    requires var r := NextRecord(h, stored, already); r.cred.Inline? && f in SecretFields(r) && Flag(r.cred, f)
    ensures f in already || StoredFlag(stored, f)
  {
  }

  /** Nothing held is lost and everything recorded has landed. */
  ghost predicate Grew(w: World, v: World, recorded: set<Account>) {
    forall a :: a in w.keychain || a in recorded ==> a in v.keychain
  }

  lemma RowIsBacked(w: World, rep: Report, v: World, claims: map<Id, set<Field>>, h: Host)
    requires Flagged(v.hosts, w.hosts, rep.order, claims, |rep.order|, rep.recorded) && h in rep.order
    requires HostBacked(w, h.id) && Grew(w, v, rep.recorded)
    ensures HostBacked(v, h.id)
  {
    FlaggedAs(v.hosts, w.hosts, rep.order, claims, rep.recorded, h);
    var r := v.hosts[h.id];
    if r.cred.Inline? {
      forall f | f in SecretFields(r) && Flag(r.cred, f) ensures HostAccount(h.id, f) in v.keychain {
        FlagComesFrom(h, Lookup(w.hosts, h.id), ReportedFields(h, rep.recorded), f);
        StoredIsBacked(w, h.id, f);
      }
    }
  }

  lemma StoredIsBacked(w: World, x: Id, f: Field)
    requires HostBacked(w, x)
    ensures StoredFlag(Lookup(w.hosts, x), f) ==> HostAccount(x, f) in w.keychain
  {
  }

  lemma OtherIsBacked(w: World, rep: Report, v: World, claims: map<Id, set<Field>>, x: Id)
    requires Flagged(v.hosts, w.hosts, rep.order, claims, |rep.order|, rep.recorded) && x !in HostIds(rep.order)
    requires HostBacked(w, x) && Grew(w, v, rep.recorded)
    ensures HostBacked(v, x)
  {
    assert Lookup(v.hosts, x) == Lookup(w.hosts, x);
  }

  lemma VaultIsBacked(w: World, rep: Report, v: World, x: Id)
    requires v.keys == KeysAfter(w.keys, rep.savedKeys, rep.recorded)
    requires v.identities == IdentitiesAfter(w.identities, rep.savedIdentities, rep.recorded)
    requires VaultBacked(w, x) && Grew(w, v, rep.recorded)
    ensures VaultBacked(v, x)
  {
  }

  /** No import makes a record claim a credential that is not there: not by a flag its
      passes set, and not by releasing an account a flag stands over. */
  lemma FlagsStayBacked(w: World, secrets: Keychain, rep: Report, v: World, claims: map<Id, set<Field>>,
                        identityIds: set<Id>, cap: nat)
    requires Stored(w, secrets, rep, v, claims) && Ordered(rep, w.hosts, identityIds, cap) && FlagsBacked(w)
    ensures FlagsBacked(v)
  {
    forall a | a in w.keychain || a in rep.recorded ensures a in v.keychain {
      NothingReleased(w, secrets, rep, v, claims, identityIds, cap, a);
    }
    forall x ensures HostBacked(v, x) && VaultBacked(v, x) {
      assert HostBacked(w, x) && VaultBacked(w, x);
      VaultIsBacked(w, rep, v, x);
      if x in HostIds(rep.order) {
        var h :| h in rep.order && h.id == x;
        RowIsBacked(w, rep, v, claims, h);
      } else {
        OtherIsBacked(w, rep, v, claims, x);
      }
    }
  }

  /** A host's flags are the truth: each is set exactly while its account is there. */
  ghost predicate HostTrue(w: World, x: Id) {
    x in w.hosts && w.hosts[x].cred.Inline? ==>
      forall f | CanOwn(w.hosts[x], f) :: Flag(w.hosts[x].cred, f) <==> HostAccount(x, f) in w.keychain
  }

  /** The flag of a written row, and the account under it, each told of what was there
      before and what this import did. */
  lemma FlagAndAccount(w: World, secrets: Keychain, rep: Report, v: World, claims: map<Id, set<Field>>,
                       identityIds: set<Id>, cap: nat, h: Host, f: Field)
    requires Stored(w, secrets, rep, v, claims) && Ordered(rep, w.hosts, identityIds, cap)
    requires h in rep.order && CanOwn(h, f)
    ensures var before := h.id in w.hosts && CanOwn(w.hosts[h.id], f) && Flag(w.hosts[h.id].cred, f);
            && h.id in v.hosts && v.hosts[h.id].cred.Inline?
            && (Flag(v.hosts[h.id].cred, f) <==> before || HostAccount(h.id, f) in rep.recorded)
            && (HostAccount(h.id, f) in v.keychain <==>
                  HostAccount(h.id, f) in w.keychain || HostAccount(h.id, f) in rep.written)
  {
    FlaggedAs(v.hosts, w.hosts, rep.order, claims, rep.recorded, h);
    NothingReleased(w, secrets, rep, v, claims, identityIds, cap, HostAccount(h.id, f));
  }

  /** Everything that landed at a new account of this row was recorded. */
  ghost predicate NewsRecorded(w: World, rep: Report, h: Host, f: Field) {
    HostAccount(h.id, f) !in w.keychain && HostAccount(h.id, f) in rep.written ==> HostAccount(h.id, f) in rep.recorded
  }

  lemma FlagStaysTrue(w: World, secrets: Keychain, rep: Report, v: World, claims: map<Id, set<Field>>,
                      identityIds: set<Id>, cap: nat, h: Host, f: Field)
    requires Stored(w, secrets, rep, v, claims) && Ordered(rep, w.hosts, identityIds, cap)
    requires h in rep.order && CanOwn(h, f) && h.id in w.hosts && CanOwn(w.hosts[h.id], f)
    requires Flag(w.hosts[h.id].cred, f) <==> HostAccount(h.id, f) in w.keychain
    ensures h.id in v.hosts && v.hosts[h.id].cred.Inline?
    ensures (Flag(v.hosts[h.id].cred, f) <==> HostAccount(h.id, f) in v.keychain) <==> NewsRecorded(w, rep, h, f)
  {
    FlagAndAccount(w, secrets, rep, v, claims, identityIds, cap, h, f);
    assert rep.recorded <= rep.written;
  }

  lemma RowCanOwn(w: World, rep: Report, v: World, claims: map<Id, set<Field>>, identityIds: set<Id>, cap: nat, h: Host)
    requires Ordered(rep, w.hosts, identityIds, cap) && h in rep.order && h.id in w.hosts
    requires Flagged(v.hosts, w.hosts, rep.order, claims, |rep.order|, rep.recorded)
    ensures h.id in v.hosts
    ensures forall f :: (CanOwn(v.hosts[h.id], f) <==> CanOwn(h, f)) && (CanOwn(w.hosts[h.id], f) <==> CanOwn(h, f))
  {
    OrderedRowAgrees(rep, w.hosts, identityIds, cap, h);
    FlaggedAs(v.hosts, w.hosts, rep.order, claims, rep.recorded, h);
  }

  /** A saved host whose flags were the truth keeps true flags exactly when everything
      that landed at a new account of its own was recorded. */
  lemma FlagsStayTrue(w: World, secrets: Keychain, rep: Report, v: World, claims: map<Id, set<Field>>,
                      identityIds: set<Id>, cap: nat, h: Host)
    requires Stored(w, secrets, rep, v, claims) && Ordered(rep, w.hosts, identityIds, cap)
    requires h in rep.order && h.id in w.hosts && HostTrue(w, h.id)
    ensures HostTrue(v, h.id) <==> forall f | CanOwn(h, f) :: NewsRecorded(w, rep, h, f)
  {
    RowCanOwn(w, rep, v, claims, identityIds, cap, h);
    forall f | CanOwn(h, f)
      ensures v.hosts[h.id].cred.Inline?
      ensures (Flag(v.hosts[h.id].cred, f) <==> HostAccount(h.id, f) in v.keychain) <==> NewsRecorded(w, rep, h, f)
    {
      FlagStaysTrue(w, secrets, rep, v, claims, identityIds, cap, h, f);
    }
    TrueIff(v, h, w, rep);
  }

  lemma TrueIff(v: World, h: Host, w: World, rep: Report)
    requires h.id in v.hosts && forall f :: CanOwn(v.hosts[h.id], f) <==> CanOwn(h, f)
    requires forall f | CanOwn(h, f) ::
               && v.hosts[h.id].cred.Inline?
               && ((Flag(v.hosts[h.id].cred, f) <==> HostAccount(h.id, f) in v.keychain)
                   <==> NewsRecorded(w, rep, h, f))
    ensures HostTrue(v, h.id) <==> forall f | CanOwn(h, f) :: NewsRecorded(w, rep, h, f)
  {
    assert v.hosts[h.id].cred.Inline? <==> CanOwn(h, PasswordField);
  }

  /** Every row is stored, and is one the host store would take again. */
  lemma RowsAreAcceptable(rep: Report, w: World, v: World, identityIds: set<Id>, claims: map<Id, set<Field>>,
                          cap: nat, h: Host)
    requires Ordered(rep, w.hosts, identityIds, cap) && h in rep.order
    requires Flagged(v.hosts, w.hosts, rep.order, claims, |rep.order|, rep.recorded)
    ensures h.id in v.hosts && Acceptable(v.hosts[h.id], v.hosts, cap)
  {
    var cleared := Cleared(rep.moved, w.hosts, cap);
    FinalChain(Overlay(cleared, map[]), Overlay(cleared, w.hosts), w.hosts, rep.order, h, v.hosts, claims, cap);
  }

  /** Every host saved before is still there, of its protocol and its kind of binding,
      and still bound to the identity it was bound to. */
  ghost predicate StillThere(w: World, v: World, x: Id) {
    x in w.hosts ==>
      && x in v.hosts && Agrees(v.hosts[x], w.hosts[x])
      && (w.hosts[x].cred.Bound? ==> v.hosts[x].cred == w.hosts[x].cred)
  }

  lemma NextKeepsKind(h: Host, stored: Option<Host>, already: set<Field>)
    ensures var r := NextRecord(h, stored, already);
            SameProtocol(r, h) && (r.cred.Bound? <==> h.cred.Bound?) && (h.cred.Bound? ==> r == h)
  {
  }

  lemma SavedHostsStay(rep: Report, w: World, v: World, identityIds: set<Id>, claims: map<Id, set<Field>>, cap: nat,
                       x: Id)
    requires Ordered(rep, w.hosts, identityIds, cap)
    requires Flagged(v.hosts, w.hosts, rep.order, claims, |rep.order|, rep.recorded)
    ensures StillThere(w, v, x)
  {
    if x in w.hosts {
      if x in HostIds(rep.order) {
        var h :| h in rep.order && h.id == x;
        FlaggedAs(v.hosts, w.hosts, rep.order, claims, rep.recorded, h);
        OrderedRowAgrees(rep, w.hosts, identityIds, cap, h);
        NextKeepsKind(h, Lookup(w.hosts, x), ReportedFields(h, rep.recorded));
      } else {
        assert Lookup(v.hosts, x) == Lookup(w.hosts, x);
      }
    }
  }

  /** A host the import bound is bound to an identity that is stored, or to one of the
      file's whose own write failed. */
  ghost predicate BindingStands(h: Host, w: World, v: World, rep: Report) {
    h.cred.Bound? && h.id !in w.hosts ==>
      || h.cred.identityId in v.identities
      || exists i :: i in rep.kept && i.id == h.cred.identityId && i.id !in rep.savedIdentities
  }

  lemma BindingsStand(rep: Report, w: World, v: World, cap: nat, h: Host)
    requires Ordered(rep, w.hosts, IdentityIds(rep.kept) + w.identities.Keys, cap) && h in rep.order
    requires v.identities == IdentitiesAfter(w.identities, rep.savedIdentities, rep.recorded)
    ensures BindingStands(h, w, v, rep)
  {
    var i := OrderedRowIs(rep.moved, w.hosts, rep.order, h, cap);
    assert BindingIn(rep.moved[i], w.hosts, IdentityIds(rep.kept) + w.identities.Keys);
  }

  // ------------------------------------------------------------------- the operation

  /** The passes before the first write. */
  method Prepare(p: Payload, w: World, groups: seq<Group>, key: string -> string)
    returns (kept: seq<Identity>, rows: seq<Host>, moved: seq<Host>, merged: seq<Group>)
    requires Clean(p, key) && DistinctGroups(groups) && M.UniqueNames(M.Shelve(groups, map[]), key)
    ensures DistinctIdentities(kept)
    ensures forall i | i in p.identities :: IdentityOutcome(i, KeyIds(p.keys) + w.keys.Keys, kept)
    ensures RowsFromFile(p.hosts, rows, w.hosts, IdentityIds(kept) + w.identities.Keys)
    ensures Ready(moved, w.hosts, IdentityIds(kept) + w.identities.Keys)
    ensures Merges(merged, p.groups, groups, rows, moved, key) && Repointed(rows, moved)
  {
    var kinds, applied, dropped;
    kept, kinds, rows, applied, dropped :=
      ResolveCredentials(p.identities, KeyIds(p.keys), w.keys.Keys, w.identities.Keys, p.hosts, w.hosts);
    KindsAreTheFile(p.hosts, kinds, rows, w.hosts, IdentityIds(kept) + w.identities.Keys);
    ResolvedIsReady(kinds, rows, p.hosts, w.hosts, IdentityIds(kept) + w.identities.Keys);
    var remapped, keptNames;
    merged, moved, remapped, keptNames := M.MergeGroups(p.groups, groups, rows, key);
    RepointedIsReady(rows, moved, w.hosts, IdentityIds(kept) + w.identities.Keys);
  }

  /** What `mergeGroups` hands on. */
  ghost predicate Merges(merged: seq<Group>, incoming: seq<Group>, existing: seq<Group>, rows: seq<Host>,
                         moved: seq<Host>, key: string -> string) {
    var d := M.Shelve(existing, map[]);
    var after := M.Shelve(merged, d);
    && DistinctGroups(merged) && M.UniqueNames(after, key)
    && (forall x | x in d :: x in after && key(after[x].name) == key(d[x].name))
    && (forall g | g in merged :: M.RowLanded(g, incoming, d, after, key))
    && (forall g | g in incoming :: M.RowOutcome(g, merged, d, key))
    && |moved| == |rows|
    && (forall i | 0 <= i < |rows| :: M.HostLanded(rows[i], moved[i], incoming, d, after, key))
  }

  /** What holds of the group store, whatever was refused there. */
  ghost predicate GroupsKept(store: M.Shelf, refused: seq<Group>, out: seq<Group>, d: M.Shelf, incoming: seq<Group>,
                             rows: seq<Host>, moved: seq<Host>, key: string -> string) {
    && G.Mixed(store, d, out, |out|, refused) && G.NoNewCycle(d, store) && M.UniqueNames(store, key)
    && (refused == [] <==> G.NoneBlocked(out, d))
    && (forall g | g in incoming :: M.RowOutcome(g, out, d, key))
    && |moved| == |rows|
    && (forall i | 0 <= i < |rows| :: G.Filed(rows[i], moved[i], incoming, d, out, store, refused, key))
  }

  /** The rows written are the merged ones, resolved, and the store took each it would take
      at its turn. */
  ghost predicate GroupsWritten(store: M.Shelf, refused: seq<Group>, out: seq<Group>, d: M.Shelf, merged: seq<Group>,
                                identities: set<Id>, key: string -> string) {
    && W.RowIds(out) == W.RowIds(merged) && (forall o | o in out :: G.RowWritten(o, merged, d, identities))
    && store == G.Wrote(out, d, identities, key) && refused == G.NotTaken(out, d, identities, key)
  }

  /** WRITE 3. */
  method WriteGroupRows(merged: seq<Group>, p: Payload, groups: seq<Group>, rows: seq<Host>, moved: seq<Host>,
                        identities: set<Id>, key: string -> string)
    returns (store: M.Shelf, refused: seq<Group>, out: seq<Group>)
    requires Clean(p, key) && Merges(merged, p.groups, groups, rows, moved, key)
    ensures GroupsKept(store, refused, out, M.Shelve(groups, map[]), p.groups, rows, moved, key)
    ensures GroupsWritten(store, refused, out, M.Shelve(groups, map[]), merged, identities, key)
    ensures forall x :: G.DefaultStands(store, M.Shelve(groups, map[]), identities, x)
  {
    ghost var d := M.Shelve(groups, map[]);
    M.ShelfIsKeyed(groups);
    G.NonBlankRows(merged, p.groups, d, key);
    ghost var resolved, batch;
    store, refused, out, resolved, batch := G.WriteMerged(merged, M.Shelve(groups, map[]), identities, key);
    forall g | g in p.groups ensures M.RowOutcome(g, out, d, key) {
      G.OutcomeInOut(g, merged, out, d, key);
    }
    forall i | 0 <= i < |rows| ensures G.Filed(rows[i], moved[i], p.groups, d, out, store, refused, key) {
      G.FiledOrRefused(out, resolved, d, batch, p.groups, rows[i], moved[i], key, M.Shelve(merged, d), store, refused);
    }
  }

  /** WRITES 1 and 2, each failure contained. */
  method WriteVault(p: Payload, kept: seq<Identity>, w: World, b: Backend)
    returns (keys: map<Id, VaultKey>, identities: map<Id, Identity>, savedKeys: map<Id, VaultKey>,
             saved: map<Id, Identity>)
    requires DistinctKeys(p.keys) && DistinctIdentities(kept)
    ensures keys == KeysAfter(w.keys, savedKeys, {}) && KeysSaved(p.keys, savedKeys, b.keyFails)
    ensures identities == IdentitiesAfter(w.identities, saved, {})
    ensures IdentitiesSaved(kept, saved, w.keys.Keys + savedKeys.Keys, b.identityFails)
  {
    keys, savedKeys := WriteKeys(p.keys, w.keys, b.keyFails);
    assert keys.Keys == w.keys.Keys + savedKeys.Keys;
    identities, saved := WriteIdentities(kept, w.identities, keys.Keys, b.identityFails);
  }

  /** WRITE 4: the rows in their order, none refused. */
  method WriteRows(moved: seq<Host>, saved: Disk, keychain: Keychain, cap: nat, ghost identityIds: set<Id>)
    returns (d: Disk, kc: Keychain, refused: seq<Host>, order: seq<Host>)
    requires Keyed(saved) && Ready(moved, saved, identityIds)
    ensures refused == [] && PlannedOrder(order, moved, saved, cap) && WrittenSoFar(d, saved, order, map[])
    ensures kc == keychain - Released(order, saved)
  {
    d, kc, refused, order := ImportHosts(moved, saved, keychain, cap);
  }

  /** What the flag passes record of the answer: all of it but for the vault records
      whose flag write fails. */
  function Recorded(asked: seq<Account>, b: Backend): set<Account> {
    set a | a in Reported(asked, b) && !FlagFails(a, b)
  }

  predicate FlagFails(a: Account, b: Backend) {
    a.service == VaultService && a.id in if a.field == PasswordField then b.identityFlagFails else b.keyFlagFails
  }

  function Written(asked: seq<Account>, b: Backend): set<Account> {
    set a | a in asked && a in b.lands
  }

  lemma RecordedIsWritten(asked: seq<Account>, b: Backend, secrets: Keychain)
    requires b.reports <= b.lands <= secrets.Keys
    ensures Recorded(asked, b) <= Written(asked, b) <= secrets.Keys
  {
  }

  /** WRITES 6 and 7 over the hosts: the keychain step, then the flags of what landed. */
  method WriteSecrets(keychain: Keychain, order: seq<Host>, asked: seq<Account>, secrets: Keychain, saved: Disk,
                      stored: Disk,
                      b: Backend, cap: nat, ghost moved: seq<Host>)
    returns (kc: Keychain, landed: set<string>, d: Disk, refused: seq<Host>, ghost claims: map<Id, set<Field>>)
    requires PlannedOrder(order, moved, saved, cap) && WrittenSoFar(stored, saved, order, map[])
    requires b.lands <= secrets.Keys
    ensures Written(asked, b) <= secrets.Keys && kc == keychain + LandedValues(secrets, Written(asked, b))
    ensures LandedFor(landed, Reported(asked, b))
    ensures refused == [] && Flagged(d, saved, order, claims, |order|, Recorded(asked, b))
  {
    kc, landed := KeychainStep(keychain, asked, secrets, b);
    assert kc == keychain + LandedValues(secrets, Written(asked, b));
    ghost var cleared := Cleared(moved, saved, cap);
    d, kc, refused, claims :=
      FlagHosts(order, saved, stored, kc, landed, cap,
                Overlay(cleared, map[]), Overlay(cleared, saved), Reported(asked, b));
    HostFlagsNeverFail(d, saved, order, claims, asked, b);
  }

  lemma HostFlagsNeverFail(d: Disk, saved: Disk, order: seq<Host>, claims: map<Id, set<Field>>, asked: seq<Account>,
                           b: Backend)
    requires Flagged(d, saved, order, claims, |order|, Reported(asked, b))
    ensures Flagged(d, saved, order, claims, |order|, Recorded(asked, b))
  {
    forall h: Host ensures ReportedFields(h, Recorded(asked, b)) == ReportedFields(h, Reported(asked, b)) {
      assert forall f :: HostAccount(h.id, f) in Recorded(asked, b) <==> HostAccount(h.id, f) in Reported(asked, b);
    }
  }

  /** WRITE 7 over the vault. */
  method FlagVault(p: Payload, kept: seq<Identity>, w: World, b: Backend, landed: set<string>, asked: seq<Account>,
                   savedKeys: map<Id, VaultKey>, saved: map<Id, Identity>)
    returns (keys: map<Id, VaultKey>, identities: map<Id, Identity>, refused: seq<Identity>)
    requires DistinctKeys(p.keys) && DistinctIdentities(kept) && LandedFor(landed, Reported(asked, b))
    requires KeysSaved(p.keys, savedKeys, b.keyFails)
    requires IdentitiesSaved(kept, saved, w.keys.Keys + savedKeys.Keys, b.identityFails)
    ensures refused == []
    ensures keys == KeysAfter(w.keys, savedKeys, Recorded(asked, b))
    ensures identities == IdentitiesAfter(w.identities, saved, Recorded(asked, b))
  {
    ghost var reported := Reported(asked, b);
    keys := FlagKeys(p.keys, w.keys, savedKeys, landed, b.keyFlagFails, b.keyFails, reported);
    identities, refused := FlagIdentities(kept, w.identities, saved, w.keys.Keys + savedKeys.Keys, landed,
                                          b.identityFlagFails, b.identityFails, reported);
    RecordedKeysAre(p, w, b, asked, savedKeys);
    RecordedIdentitiesAre(kept, w, b, asked, savedKeys, saved);
  }

  lemma RecordedKeysAre(p: Payload, w: World, b: Backend, asked: seq<Account>, savedKeys: map<Id, VaultKey>)
    requires KeysSaved(p.keys, savedKeys, b.keyFails)
    ensures KeysAfter(w.keys, savedKeys, RecordedOf(Reported(asked, b), KeyIds(p.keys), b.keyFlagFails))
         == KeysAfter(w.keys, savedKeys, Recorded(asked, b))
  {
    forall x | x in savedKeys ensures x in KeyIds(p.keys) {
      assert savedKeys[x] in p.keys && savedKeys[x].id == x;
    }
    KeysAfterAgree(w.keys, savedKeys, RecordedOf(Reported(asked, b), KeyIds(p.keys), b.keyFlagFails),
                   Recorded(asked, b));
  }

  lemma RecordedIdentitiesAre(kept: seq<Identity>, w: World, b: Backend, asked: seq<Account>,
                              savedKeys: map<Id, VaultKey>, saved: map<Id, Identity>)
    requires IdentitiesSaved(kept, saved, w.keys.Keys + savedKeys.Keys, b.identityFails)
    ensures IdentitiesAfter(w.identities, saved, RecordedOf(Reported(asked, b), IdentityIds(kept), b.identityFlagFails))
         == IdentitiesAfter(w.identities, saved, Recorded(asked, b))
  {
    forall x | x in saved ensures x in IdentityIds(kept) {
      assert saved[x] in kept && saved[x].id == x;
    }
    IdentitiesAfterAgree(w.identities, saved, RecordedOf(Reported(asked, b), IdentityIds(kept), b.identityFlagFails),
                         Recorded(asked, b));
  }

  /** WRITES 4, 6 and 7. */
  method WriteHostsAndSecrets(p: Payload, kept: seq<Identity>, rows: seq<Host>, moved: seq<Host>, w: World,
                              b: Backend, cap: nat,
                              savedKeys: map<Id, VaultKey>, saved: map<Id, Identity>, defaults: set<Id>,
                              ghost identityIds: set<Id>)
    returns (v: World, rep: Report, refused: seq<Host>, ghost claims: map<Id, set<Field>>)
    requires Keyed(w.hosts) && Ready(moved, w.hosts, identityIds)
    requires DistinctKeys(p.keys) && DistinctIdentities(kept) && KeysSaved(p.keys, savedKeys, b.keyFails)
    requires IdentitiesSaved(kept, saved, w.keys.Keys + savedKeys.Keys, b.identityFails)
    requires b.reports <= b.lands <= p.secrets.Keys
    ensures refused == [] && PlannedOrder(rep.order, moved, w.hosts, cap) && Stored(w, p.secrets, rep, v, claims)
    ensures rep.kept == kept && rep.rows == rows && rep.moved == moved && v.defaults == defaults
    ensures rep.savedKeys == savedKeys && rep.savedIdentities == saved && Answered(p, w, rep, b)
  {
    var kc, landed, d, order, asked;
    kc, landed, d, order, asked, refused, claims :=
      WriteHostSide(p, kept, moved, w.hosts, w.keychain, b, cap, savedKeys.Keys, saved.Keys, identityIds);
    var keys, identities, _ := FlagVault(p, kept, w, b, landed, asked, savedKeys, saved);
    RecordedIsWritten(asked, b, p.secrets);
    rep := Report(kept, rows, moved, order, savedKeys, saved, asked, Written(asked, b), Recorded(asked, b));
    v := World(kc, d, identities, keys, defaults);
  }

  /** The host writes on either side of the keychain step. */
  method WriteHostSide(p: Payload, kept: seq<Identity>, moved: seq<Host>, hosts: Disk, keychain: Keychain, b: Backend,
                       cap: nat,
                       savedKeys: set<Id>, saved: set<Id>, ghost identityIds: set<Id>)
    returns (kc: Keychain, landed: set<string>, d: Disk, order: seq<Host>, asked: seq<Account>, refused: seq<Host>,
             ghost claims: map<Id, set<Field>>)
    requires Keyed(hosts) && Ready(moved, hosts, identityIds) && b.lands <= p.secrets.Keys
    ensures refused == [] && PlannedOrder(order, moved, hosts, cap)
    ensures asked == References(p, kept, order, savedKeys, saved)
    ensures kc == (keychain - Released(order, hosts)) + LandedValues(p.secrets, Written(asked, b))
    ensures LandedFor(landed, Reported(asked, b)) && Flagged(d, hosts, order, claims, |order|, Recorded(asked, b))
  {
    var again;
    d, kc, refused, order := WriteRows(moved, hosts, keychain, cap, identityIds);
    asked := References(p, kept, order, savedKeys, saved);
    kc, landed, d, again, claims := WriteSecrets(kc, order, asked, p.secrets, hosts, d, b, cap, moved);
    refused := refused + again;
  }

  /** `refs`, in the order their answer is read back in. */
  function References(p: Payload, kept: seq<Identity>, order: seq<Host>, savedKeys: set<Id>,
                      saved: set<Id>): seq<Account> {
    var bound := set h | h in p.hosts && h.cred.Bound? :: h.id;
    KeyRefs(p.keys, savedKeys) + IdentityRefs(kept, saved) + HostRefs(order, bound)
  }

  lemma ReferencesAre(p: Payload, rep: Report, a: Account)
    ensures a in References(p, rep.kept, rep.order, rep.savedKeys.Keys, rep.savedIdentities.Keys) <==> Asked(p, rep, a)
  {
  }

  /** The references handed to the keychain step: of records that landed, and of no row
      that arrived vault-bound. */
  ghost predicate Asked(p: Payload, rep: Report, a: Account) {
    if a.service == HostService
    then (forall h | h in p.hosts && h.id == a.id :: !h.cred.Bound?)
         && exists h :: h in rep.order && h.id == a.id && a.field in SecretFields(h)
    else if a.field == PasswordField
    then a.id in rep.savedIdentities && exists i :: i in rep.kept && i.id == a.id
    else a.id in rep.savedKeys && exists k :: k in p.keys && k.id == a.id
  }

  /** A secret of the file is due: of a key or an identity that was saved, or of a host
      this machine can take that arrived inline and is not bound here. */
  ghost predicate Due(p: Payload, w: World, rep: Report, a: Account) {
    if a.service == HostService
    then exists h :: && h in p.hosts && h.id == a.id && Takes(h, w.hosts) && CanOwn(h, a.field)
                     && !(h.id in w.hosts && w.hosts[h.id].cred.Bound?)
    else if a.field == PasswordField then a.id in rep.savedIdentities else a.id in rep.savedKeys
  }

  /** Afterwards every secret that was due and landed is at its account and no other account
      changed; and what the flags record is what was due and reported. */
  ghost predicate SecretsLanded(p: Payload, w: World, rep: Report, v: World, b: Backend) {
    && (forall a :: Lookup(v.keychain, a)
                    == if Due(p, w, rep, a) && a in b.lands then Lookup(p.secrets, a) else Lookup(w.keychain, a))
    && (forall a :: a in rep.recorded <==> !b.throws && a in b.reports && Due(p, w, rep, a) && !FlagFails(a, b))
  }

  /** The rows are the file's, settled, repointed and ordered. */
  ghost predicate Passed(p: Payload, w: World, rep: Report, identityIds: set<Id>, cap: nat) {
    && RowsFromFile(p.hosts, rep.rows, w.hosts, identityIds) && Repointed(rep.rows, rep.moved)
    && Ordered(rep, w.hosts, identityIds, cap) && DistinctHosts(p.hosts)
  }

  /** A written row owns what the file's row owned, unless a bound host is saved there. */
  lemma SettledOwns(h: Host, row: Host, o: Host, saved: Option<Host>, identityIds: set<Id>, f: Field)
    requires Settled(h, row, saved, identityIds) && (saved.Some? ==> SameProtocol(h, saved.value))
    requires h.cred.Inline? && o.cred == row.cred && SameProtocol(o, row)
    ensures CanOwn(o, f) <==> CanOwn(h, f) && !(saved.Some? && saved.value.cred.Bound?)
  {
  }

  lemma RowFor(p: Payload, w: World, rep: Report, identityIds: set<Id>, cap: nat, h: Host) returns (o: Host, row: Host)
    requires Passed(p, w, rep, identityIds, cap) && h in p.hosts && Takes(h, w.hosts)
    ensures o in rep.order && o.id == h.id && o.cred == row.cred && SameProtocol(o, row)
    ensures Settled(h, row, Lookup(w.hosts, h.id), identityIds)
  {
    o := OrderHas(p.hosts, rep, w.hosts, identityIds, cap, h);
    var i := OrderedRowIs(rep.moved, w.hosts, rep.order, o, cap);
    RowSettles(p.hosts, rep.rows, w.hosts, identityIds, i, h);
    row := rep.rows[i];
  }

  lemma RowBehind(p: Payload, w: World, rep: Report, identityIds: set<Id>, cap: nat, o: Host)
    returns (h: Host, row: Host)
    requires Passed(p, w, rep, identityIds, cap) && o in rep.order
    ensures h in p.hosts && Takes(h, w.hosts) && o.id == h.id && o.cred == row.cred && SameProtocol(o, row)
    ensures Settled(h, row, Lookup(w.hosts, h.id), identityIds)
  {
    var i := OrderedRowIs(rep.moved, w.hosts, rep.order, o, cap);
    assert RowFrom(p.hosts, rep.rows[i], w.hosts, identityIds);
    row := rep.rows[i];
    h :| h in p.hosts && Takes(h, w.hosts) && Settled(h, row, Lookup(w.hosts, h.id), identityIds);
  }

  lemma DueIsAsked(p: Payload, w: World, rep: Report, identityIds: set<Id>, cap: nat, h: Host, f: Field)
    requires Passed(p, w, rep, identityIds, cap)
    requires h in p.hosts && Takes(h, w.hosts) && CanOwn(h, f) && !(h.id in w.hosts && w.hosts[h.id].cred.Bound?)
    ensures Asked(p, rep, HostAccount(h.id, f))
  {
    var o, row := RowFor(p, w, rep, identityIds, cap, h);
    SettledOwns(h, row, o, Lookup(w.hosts, h.id), identityIds, f);
    ArrivedInline(p.hosts, h);
    AskedByRow(p, rep, h, o, f);
  }

  lemma AskedByRow(p: Payload, rep: Report, h: Host, o: Host, f: Field)
    requires o in rep.order && o.id == h.id && CanOwn(o, f)
    requires forall g | g in p.hosts && g.id == h.id :: !g.cred.Bound?
    ensures Asked(p, rep, HostAccount(h.id, f))
  {
  }

  lemma ArrivedInline(hosts: seq<Host>, h: Host)
    requires DistinctHosts(hosts) && h in hosts && h.cred.Inline?
    ensures forall g | g in hosts && g.id == h.id :: !g.cred.Bound?
  {
  }

  lemma AskedIsDue(p: Payload, w: World, rep: Report, identityIds: set<Id>, cap: nat, a: Account)
    requires Passed(p, w, rep, identityIds, cap) && a.service == HostService && Asked(p, rep, a)
    ensures Due(p, w, rep, a)
  {
    var o :| o in rep.order && o.id == a.id && a.field in SecretFields(o);
    var h, row := RowBehind(p, w, rep, identityIds, cap, o);
    SettledOwns(h, row, o, Lookup(w.hosts, h.id), identityIds, a.field);
  }

  lemma HostAskedIffDue(p: Payload, w: World, rep: Report, identityIds: set<Id>, cap: nat, a: Account)
    requires Passed(p, w, rep, identityIds, cap) && a.service == HostService
    ensures Asked(p, rep, a) <==> Due(p, w, rep, a)
  {
    assert a == HostAccount(a.id, a.field);
    if Asked(p, rep, a) {
      AskedIsDue(p, w, rep, identityIds, cap, a);
    } else if Due(p, w, rep, a) {
      var h :| h in p.hosts && h.id == a.id && Takes(h, w.hosts) && CanOwn(h, a.field)
               && !(h.id in w.hosts && w.hosts[h.id].cred.Bound?);
      DueIsAsked(p, w, rep, identityIds, cap, h, a.field);
    }
  }

  lemma VaultAskedIffDue(p: Payload, w: World, rep: Report, b: Backend, a: Account)
    requires KeysSaved(p.keys, rep.savedKeys, b.keyFails) && a.service == VaultService
    requires IdentitiesSaved(rep.kept, rep.savedIdentities, w.keys.Keys + rep.savedKeys.Keys, b.identityFails)
    ensures Asked(p, rep, a) <==> Due(p, w, rep, a)
  {
  }

  lemma AskedIs(p: Payload, w: World, rep: Report, b: Backend, a: Account)
    requires rep.written == Written(rep.asked, b) && rep.recorded == Recorded(rep.asked, b)
    requires rep.asked == References(p, rep.kept, rep.order, rep.savedKeys.Keys, rep.savedIdentities.Keys)
    requires Asked(p, rep, a) <==> Due(p, w, rep, a)
    ensures a in rep.written <==> Due(p, w, rep, a) && a in b.lands
    ensures a in rep.recorded <==> !b.throws && a in b.reports && Due(p, w, rep, a) && !FlagFails(a, b)
  {
    ReferencesAre(p, rep, a);
  }

  /** What was asked, landed and recorded of one import, given the answers of the backend. */
  ghost predicate Answered(p: Payload, w: World, rep: Report, b: Backend) {
    && KeysSaved(p.keys, rep.savedKeys, b.keyFails)
    && IdentitiesSaved(rep.kept, rep.savedIdentities, w.keys.Keys + rep.savedKeys.Keys, b.identityFails)
    && rep.written == Written(rep.asked, b) && rep.recorded == Recorded(rep.asked, b)
    && rep.asked == References(p, rep.kept, rep.order, rep.savedKeys.Keys, rep.savedIdentities.Keys)
  }

  lemma SecretLands(p: Payload, w: World, rep: Report, b: Backend, identityIds: set<Id>, cap: nat, a: Account)
    requires Passed(p, w, rep, identityIds, cap) && Answered(p, w, rep, b)
    ensures a in rep.written <==> Due(p, w, rep, a) && a in b.lands
    ensures a in rep.recorded <==> !b.throws && a in b.reports && Due(p, w, rep, a) && !FlagFails(a, b)
  {
    if a.service == HostService {
      HostAskedIffDue(p, w, rep, identityIds, cap, a);
    } else {
      VaultAskedIffDue(p, w, rep, b, a);
    }
    AskedIs(p, w, rep, b, a);
  }

  lemma SecretsLand(p: Payload, w: World, rep: Report, v: World, claims: map<Id, set<Field>>, b: Backend,
                    identityIds: set<Id>, cap: nat)
    requires Passed(p, w, rep, identityIds, cap) && Answered(p, w, rep, b) && Stored(w, p.secrets, rep, v, claims)
    ensures SecretsLanded(p, w, rep, v, b)
  {
    forall a
      ensures Lookup(v.keychain, a)
              == if Due(p, w, rep, a) && a in b.lands then Lookup(p.secrets, a) else Lookup(w.keychain, a)
      ensures a in rep.recorded <==> !b.throws && a in b.reports && Due(p, w, rep, a) && !FlagFails(a, b)
    {
      SecretLands(p, w, rep, b, identityIds, cap, a);
      NothingReleased(w, p.secrets, rep, v, claims, identityIds, cap, a);
    }
  }

  /** All of the file that could be stored is. */
  lemma EverythingLands(p: Payload, w: World, rep: Report, v: World, claims: map<Id, set<Field>>, b: Backend,
                        identityIds: set<Id>, cap: nat)
    requires Passed(p, w, rep, identityIds, cap) && Answered(p, w, rep, b) && Stored(w, p.secrets, rep, v, claims)
    requires DistinctIdentities(rep.kept)
    requires forall i | i in p.identities :: IdentityOutcome(i, KeyIds(p.keys) + w.keys.Keys, rep.kept)
    ensures FileIsStored(p.hosts, w, v, identityIds) && IdentitiesStored(p, w, rep, v, b)
    ensures SecretsLanded(p, w, rep, v, b) && GroupsStand(rep, v)
  {
    FileStored(p.hosts, rep, w, v, claims, identityIds, cap);
    IdentitiesAreStored(p, w, rep, v, b);
    SecretsLand(p, w, rep, v, claims, b, identityIds, cap);
    forall i | 0 <= i < |rep.moved|
      ensures rep.moved[i].id in v.hosts && v.hosts[rep.moved[i].id].group == rep.moved[i].group
    {
      GroupStands(rep, w, v, claims, identityIds, cap, i);
    }
  }

  /** Each host is stored under the group its row was repointed to. */
  ghost predicate GroupsStand(rep: Report, v: World) {
    forall i | 0 <= i < |rep.moved| ::
      rep.moved[i].id in v.hosts && v.hosts[rep.moved[i].id].group == rep.moved[i].group
  }

  lemma GroupStands(rep: Report, w: World, v: World, claims: map<Id, set<Field>>, identityIds: set<Id>, cap: nat,
                    i: nat)
    requires Ordered(rep, w.hosts, identityIds, cap) && i < |rep.moved|
    requires Flagged(v.hosts, w.hosts, rep.order, claims, |rep.order|, rep.recorded)
    ensures rep.moved[i].id in v.hosts && v.hosts[rep.moved[i].id].group == rep.moved[i].group
  {
    var o := MovedIsOrdered(rep, w.hosts, identityIds, cap, i);
    GroupOfOrdered(rep.moved, w.hosts, rep.order, o, identityIds, cap, i);
    FlaggedAs(v.hosts, w.hosts, rep.order, claims, rep.recorded, o);
  }

  lemma GroupOfOrdered(moved: seq<Host>, saved: Disk, order: seq<Host>, o: Host, identityIds: set<Id>, cap: nat,
                       i: nat)
    requires Emitted(Overlay(Cleared(moved, saved, cap), map[]), HostIds(moved), order) && o in order
    requires DistinctHosts(moved) && i < |moved| && o.id == moved[i].id
    ensures o.group == moved[i].group
  {
    var j := OrderedRowIs(moved, saved, order, o, cap);
  }

  lemma MovedIsOrdered(rep: Report, saved: Disk, identityIds: set<Id>, cap: nat, i: nat) returns (o: Host)
    requires Ordered(rep, saved, identityIds, cap) && i < |rep.moved|
    ensures o in rep.order && o.id == rep.moved[i].id
  {
    assert rep.moved[i] in rep.moved;
    assert rep.moved[i].id in HostIds(rep.order);
    o :| o in rep.order && o.id == rep.moved[i].id;
  }

  /** The identities some stored group names as its default. */
  function DefaultsOf(store: M.Shelf): (r: set<Id>)
    ensures forall i :: i in r <==> exists x :: x in store && store[x].identity == Some(i)
  {
    set x | x in store && store[x].identity.Some? :: store[x].identity.value
  }

  /** Every identity this import stored names a stored key, and a closed vault stays so. */
  ghost predicate VaultSound(w: World, rep: Report, v: World) {
    && (forall x | x in rep.savedIdentities :: x in v.identities && KeyRefOk(v.identities[x], v.keys.Keys))
    && (VaultClosed(w.identities, w.keys) ==> VaultClosed(v.identities, v.keys))
  }

  /** Every account is still held, with its value unless this import asked to write it. */
  ghost predicate AccountsKept(p: Payload, w: World, rep: Report, v: World) {
    forall a | a in w.keychain :: a in v.keychain && (v.keychain[a] == w.keychain[a] || Asked(p, rep, a))
  }

  ghost predicate RowsSound(w: World, rep: Report, v: World, cap: nat) {
    forall h | h in rep.order ::
      h.id in v.hosts && Acceptable(v.hosts[h.id], v.hosts, cap) && BindingStands(h, w, v, rep)
  }

  /** Two credentials that differ at most in their presence flags. */
  predicate SameButFlags(a: Credential, b: Credential) {
    if a.Bound? || b.Bound? then a == b else a.owner == b.owner && a.user == b.user && a.mode == b.mode
  }

  /** A stored host is the file's: its id, protocol and details; its reference, unless that
      was cleared; and, but for its flags, the credential the file's row settled on. */
  ghost predicate IsTheFiles(r: Host, h: Host, saved: Disk, identityIds: set<Id>) {
    && r.id == h.id && SameProtocol(r, h) && r.details == h.details
    && (ReferenceOf(r) == ReferenceOf(h) || ReferenceOf(r) == "")
    && exists row :: Settled(h, row, Lookup(saved, h.id), identityIds) && SameButFlags(r.cred, row.cred)
  }

  /** Every row of the file this machine can take is stored, and the host store is
      otherwise what it was. */
  ghost predicate FileIsStored(hosts: seq<Host>, w: World, v: World, identityIds: set<Id>) {
    && (forall h | h in hosts && Takes(h, w.hosts) ::
          h.id in v.hosts && IsTheFiles(v.hosts[h.id], h, w.hosts, identityIds))
    && (forall x | !(exists h :: h in hosts && Takes(h, w.hosts) && h.id == x) ::
          Lookup(v.hosts, x) == Lookup(w.hosts, x))
  }

  /** Hosts keep their ids and everything the group repoint does not touch. */
  ghost predicate Repointed(rows: seq<Host>, moved: seq<Host>) {
    |moved| == |rows| && forall i | 0 <= i < |rows| :: moved[i] == rows[i].(group := moved[i].group)
  }

  lemma StoredIsTheFiles(hosts: seq<Host>, rep: Report, w: World, v: World, claims: map<Id, set<Field>>,
                         identityIds: set<Id>, cap: nat, h: Host)
    requires RowsFromFile(hosts, rep.rows, w.hosts, identityIds) && Repointed(rep.rows, rep.moved)
    requires Ordered(rep, w.hosts, identityIds, cap) && DistinctHosts(hosts)
    requires Flagged(v.hosts, w.hosts, rep.order, claims, |rep.order|, rep.recorded)
    requires h in hosts && Takes(h, w.hosts)
    ensures h.id in v.hosts && IsTheFiles(v.hosts[h.id], h, w.hosts, identityIds)
  {
    var o := OrderHas(hosts, rep, w.hosts, identityIds, cap, h);
    FlaggedAs(v.hosts, w.hosts, rep.order, claims, rep.recorded, o);
    var i := OrderedRowIs(rep.moved, w.hosts, rep.order, o, cap);
    RowSettles(hosts, rep.rows, w.hosts, identityIds, i, h);
    RowIsTheFiles(v.hosts[h.id], o, rep.moved[i], rep.rows[i], h, w.hosts, identityIds,
                  ReportedFields(o, rep.recorded));
  }

  lemma OrderHas(hosts: seq<Host>, rep: Report, saved: Disk, identityIds: set<Id>, cap: nat, h: Host) returns (o: Host)
    requires RowsFromFile(hosts, rep.rows, saved, identityIds) && Repointed(rep.rows, rep.moved)
    requires Ordered(rep, saved, identityIds, cap) && h in hosts && Takes(h, saved)
    ensures o in rep.order && o.id == h.id
  {
    var j := RowWithId(rep.rows, h.id);
    o := MovedIsOrdered(rep, saved, identityIds, cap, j);
  }

  lemma RowWithId(rows: seq<Host>, x: Id) returns (j: nat)
    requires x in HostIds(rows)
    ensures j < |rows| && rows[j].id == x
  {
    j :| 0 <= j < |rows| && rows[j].id == x;
  }

  lemma RowSettles(hosts: seq<Host>, rows: seq<Host>, saved: Disk, identityIds: set<Id>, i: nat, h: Host)
    requires RowsFromFile(hosts, rows, saved, identityIds) && DistinctHosts(hosts)
    requires h in hosts && i < |rows| && rows[i].id == h.id
    ensures Settled(h, rows[i], Lookup(saved, h.id), identityIds)
  {
    assert RowFrom(hosts, rows[i], saved, identityIds);
    var g :| g in hosts && Takes(g, saved) && Settled(g, rows[i], Lookup(saved, g.id), identityIds);
    SameHost(hosts, g, h);
  }

  lemma RowIsTheFiles(r: Host, o: Host, m: Host, row: Host, h: Host, saved: Disk, identityIds: set<Id>,
                      already: set<Field>)
    requires WrittenAs(r, o, Lookup(saved, o.id), already)
    requires o.id == m.id && o.cred == m.cred && o.details == m.details && SameProtocol(o, m)
    requires ReferenceOf(o) == ReferenceOf(m) || ReferenceOf(o) == ""
    requires m == row.(group := m.group) && Settled(h, row, Lookup(saved, h.id), identityIds)
    ensures IsTheFiles(r, h, saved, identityIds)
  {
    assert ReferenceOf(r) == ReferenceOf(o) && ReferenceOf(row) == ReferenceOf(h);
    assert SameButFlags(r.cred, row.cred);
  }

  lemma FileStored(hosts: seq<Host>, rep: Report, w: World, v: World, claims: map<Id, set<Field>>,
                   identityIds: set<Id>, cap: nat)
    requires RowsFromFile(hosts, rep.rows, w.hosts, identityIds) && Repointed(rep.rows, rep.moved)
    requires Ordered(rep, w.hosts, identityIds, cap) && DistinctHosts(hosts)
    requires Flagged(v.hosts, w.hosts, rep.order, claims, |rep.order|, rep.recorded)
    ensures FileIsStored(hosts, w, v, identityIds)
  {
    forall h | h in hosts && Takes(h, w.hosts)
      ensures h.id in v.hosts && IsTheFiles(v.hosts[h.id], h, w.hosts, identityIds)
    {
      StoredIsTheFiles(hosts, rep, w, v, claims, identityIds, cap, h);
    }
    forall x | !(exists h :: h in hosts && Takes(h, w.hosts) && h.id == x)
      ensures Lookup(v.hosts, x) == Lookup(w.hosts, x)
    {
      NotInOrder(hosts, rep, w.hosts, identityIds, cap, x);
    }
  }

  lemma NotInOrder(hosts: seq<Host>, rep: Report, saved: Disk, identityIds: set<Id>, cap: nat, x: Id)
    requires RowsFromFile(hosts, rep.rows, saved, identityIds) && Repointed(rep.rows, rep.moved)
    requires Ordered(rep, saved, identityIds, cap)
    requires !(exists h :: h in hosts && Takes(h, saved) && h.id == x)
    ensures x !in HostIds(rep.order)
  {
    forall o | o in rep.order ensures o.id != x {
      var i := OrderedRowIs(rep.moved, saved, rep.order, o, cap);
      assert RowFrom(hosts, rep.rows[i], saved, identityIds);
    }
  }

  /** Every identity of the file is stored, as its row or without a key it does not
      authenticate with, unless it needs a key that will not exist or its write failed. */
  ghost predicate IdentitiesStored(p: Payload, w: World, rep: Report, v: World, b: Backend) {
    forall i | i in p.identities ::
      && IdentityOutcome(i, KeyIds(p.keys) + w.keys.Keys, rep.kept)
      && (KeyRefOk(i, w.keys.Keys + rep.savedKeys.Keys) && i.id !in b.identityFails ==>
            i.id in v.identities && v.identities[i.id] == i.(hasPassword := v.identities[i.id].hasPassword))
  }

  lemma IdentitiesAreStored(p: Payload, w: World, rep: Report, v: World, b: Backend)
    requires v.identities == IdentitiesAfter(w.identities, rep.savedIdentities, rep.recorded)
    requires KeysSaved(p.keys, rep.savedKeys, b.keyFails) && DistinctIdentities(rep.kept)
    requires IdentitiesSaved(rep.kept, rep.savedIdentities, w.keys.Keys + rep.savedKeys.Keys, b.identityFails)
    requires forall i | i in p.identities :: IdentityOutcome(i, KeyIds(p.keys) + w.keys.Keys, rep.kept)
    ensures IdentitiesStored(p, w, rep, v, b)
  {
    forall i | i in p.identities && KeyRefOk(i, w.keys.Keys + rep.savedKeys.Keys) && i.id !in b.identityFails
      ensures i.id in v.identities && v.identities[i.id] == i.(hasPassword := v.identities[i.id].hasPassword)
    {
      SavedKeysAreTheFile(p, w, rep, b, i);
      assert IdentityOutcome(i, KeyIds(p.keys) + w.keys.Keys, rep.kept);
      SavedIsKept(rep.kept, rep.savedIdentities, w.keys.Keys + rep.savedKeys.Keys, b.identityFails, i);
    }
  }

  lemma SavedKeysAreTheFile(p: Payload, w: World, rep: Report, b: Backend, i: Identity)
    requires KeysSaved(p.keys, rep.savedKeys, b.keyFails) && KeyRefOk(i, w.keys.Keys + rep.savedKeys.Keys)
    ensures KeyRefOk(i, KeyIds(p.keys) + w.keys.Keys)
  {
    forall x | x in rep.savedKeys ensures x in KeyIds(p.keys) {
      assert rep.savedKeys[x] in p.keys && rep.savedKeys[x].id == x;
    }
  }

  lemma SavedIsKept(kept: seq<Identity>, saved: map<Id, Identity>, keys: set<Id>, fails: set<Id>, i: Identity)
    requires IdentitiesSaved(kept, saved, keys, fails) && DistinctIdentities(kept)
    requires i in kept && i.id !in fails && KeyRefOk(i, keys)
    ensures i.id in saved && saved[i.id] == i
  {
    SameIdentity(kept, saved[i.id], i);
  }

  /** What one import promises of the stores it leaves, whatever failed on the way. */
  ghost predicate Sound(p: Payload, w: World, rep: Report, v: World, cap: nat) {
    && VaultSound(w, rep, v) && (FlagsBacked(w) ==> FlagsBacked(v))
    && AccountsKept(p, w, rep, v) && RowsSound(w, rep, v, cap)
    && (forall x :: StillThere(w, v, x))
    && v.defaults <= w.defaults + v.identities.Keys
  }

  /** The file describes the body it carries for this key. */
  ghost predicate FileHonest(p: Payload, rep: Report, x: Id, factsOf: string -> string) {
    x in rep.savedKeys && BodyOf(x) in p.secrets ==> factsOf(p.secrets[BodyOf(x)]) == rep.savedKeys[x].fingerprint
  }

  /** A key record that described its body, under a file that describes its own, still
      describes the one beneath it exactly unless it was overtaken. */
  ghost predicate KeysHonest(p: Payload, w: World, rep: Report, v: World, factsOf: string -> string) {
    forall x | KeyHonest(w.keys, w.keychain, x, factsOf) && FileHonest(p, rep, x, factsOf) ::
      KeyHonest(v.keys, v.keychain, x, factsOf)
      <==> !Overtaken(w.keys, rep.savedKeys, LandedValues(p.secrets, rep.written), rep.recorded, x, 3)
  }

  /** With nothing released, the keychain is the old one and what landed. */
  lemma KeychainGrows(w: World, secrets: Keychain, rep: Report, v: World, claims: map<Id, set<Field>>,
                      identityIds: set<Id>, cap: nat)
    requires Stored(w, secrets, rep, v, claims) && Ordered(rep, w.hosts, identityIds, cap)
    ensures v.keychain == w.keychain + LandedValues(secrets, rep.written)
  {
    ImportReleasesNothing(rep, w.hosts, identityIds, cap);
    LessNothing(w.keychain, Released(rep.order, w.hosts));
  }

  lemma LessNothing(kc: Keychain, gone: set<Account>)
    requires gone == {}
    ensures kc - gone == kc
  {
  }

  lemma KeysStayHonest(p: Payload, w: World, rep: Report, v: World, factsOf: string -> string)
    requires v.keys == KeysAfter(w.keys, rep.savedKeys, rep.recorded) && rep.recorded <= rep.written <= p.secrets.Keys
    requires v.keychain == w.keychain + LandedValues(p.secrets, rep.written)
    requires forall x | BodyOf(x) in rep.written :: x in rep.savedKeys
    ensures KeysHonest(p, w, rep, v, factsOf)
  {
    forall x | KeyHonest(w.keys, w.keychain, x, factsOf) && FileHonest(p, rep, x, factsOf)
      ensures KeyHonest(v.keys, v.keychain, x, factsOf)
              <==> !Overtaken(w.keys, rep.savedKeys, LandedValues(p.secrets, rep.written), rep.recorded, x, 3)
    {
      KeyStaysHonest(p, w, rep, v, x, factsOf);
    }
  }

  lemma KeyStaysHonest(p: Payload, w: World, rep: Report, v: World, x: Id, factsOf: string -> string)
    requires v.keys == KeysAfter(w.keys, rep.savedKeys, rep.recorded) && rep.recorded <= rep.written <= p.secrets.Keys
    requires v.keychain == w.keychain + LandedValues(p.secrets, rep.written)
    requires BodyOf(x) in rep.written ==> x in rep.savedKeys
    requires KeyHonest(w.keys, w.keychain, x, factsOf) && FileHonest(p, rep, x, factsOf)
    ensures KeyHonest(v.keys, v.keychain, x, factsOf)
            <==> !Overtaken(w.keys, rep.savedKeys, LandedValues(p.secrets, rep.written), rep.recorded, x, 3)
  {
    HonestExceptOvertaken(w.keys, rep.savedKeys, w.keychain, LandedValues(p.secrets, rep.written), rep.recorded, x, 3,
                          factsOf);
  }

  /** What an import comes to: the stores sound, keys honest, and all of the file that could
      be stored where it belongs. */
  ghost predicate Promises(p: Payload, w: World, rep: Report, v: World, b: Backend, cap: nat) {
    && Sound(p, w, rep, v, cap) && (forall factsOf :: KeysHonest(p, w, rep, v, factsOf))
    && FileIsStored(p.hosts, w, v, IdentityIds(rep.kept) + w.identities.Keys)
    && IdentitiesStored(p, w, rep, v, b) && SecretsLanded(p, w, rep, v, b) && GroupsStand(rep, v)
  }

  lemma AllPassed(p: Payload, w: World, rep: Report, identityIds: set<Id>, cap: nat, key: string -> string)
    requires Clean(p, key) && RowsFromFile(p.hosts, rep.rows, w.hosts, identityIds) && Repointed(rep.rows, rep.moved)
    requires Ready(rep.moved, w.hosts, identityIds) && PlannedOrder(rep.order, rep.moved, w.hosts, cap)
    ensures Passed(p, w, rep, identityIds, cap)
  {
  }

  lemma PromisesAreKept(p: Payload, w: World, rep: Report, v: World, claims: map<Id, set<Field>>, b: Backend, cap: nat)
    requires Passed(p, w, rep, IdentityIds(rep.kept) + w.identities.Keys, cap) && Answered(p, w, rep, b)
    requires Stored(w, p.secrets, rep, v, claims) && v.defaults <= w.defaults + v.identities.Keys
    requires DistinctIdentities(rep.kept)
    requires forall i | i in p.identities :: IdentityOutcome(i, KeyIds(p.keys) + w.keys.Keys, rep.kept)
    ensures Promises(p, w, rep, v, b, cap)
  {
    EverythingLands(p, w, rep, v, claims, b, IdentityIds(rep.kept) + w.identities.Keys, cap);
    Conclusions(p, w, rep, v, claims, cap, b);
  }

  /** One import, whatever the file holds and however many of its writes fail. */
  method ApplyV3(p: Payload, w: World, groups: seq<Group>, b: Backend, key: string -> string, cap: nat)
    returns (v: World, store: M.Shelf, rep: Report, refusedHosts: seq<Host>, refusedGroups: seq<Group>, out: seq<Group>,
             ghost claims: map<Id, set<Field>>, ghost merged: seq<Group>)
    requires Clean(p, key) && Keyed(w.hosts)
    requires DistinctGroups(groups) && M.UniqueNames(M.Shelve(groups, map[]), key)
    requires w.defaults == DefaultsOf(M.Shelve(groups, map[]))
    requires b.reports <= b.lands <= p.secrets.Keys
    ensures Stored(w, p.secrets, rep, v, claims) && refusedHosts == []
    ensures KeysSaved(p.keys, rep.savedKeys, b.keyFails)
    ensures IdentitiesSaved(rep.kept, rep.savedIdentities, w.keys.Keys + rep.savedKeys.Keys, b.identityFails)
    ensures Promises(p, w, rep, v, b, cap)
    ensures v.defaults == DefaultsOf(store)
    ensures GroupsKept(store, refusedGroups, out, M.Shelve(groups, map[]), p.groups, rep.rows, rep.moved, key)
    ensures Merges(merged, p.groups, groups, rep.rows, rep.moved, key)
    ensures GroupsWritten(store, refusedGroups, out, M.Shelve(groups, map[]), merged, v.identities.Keys, key)
  {
    var kept, rows, moved, rowsToWrite := Prepare(p, w, groups, key);
    merged := rowsToWrite;
    ghost var identityIds := IdentityIds(kept) + w.identities.Keys;
    var keys, identities, savedKeys, saved := WriteVault(p, kept, w, b);
    store, refusedGroups, out := WriteGroupRows(rowsToWrite, p, groups, rows, moved, identities.Keys, key);
    v, rep, refusedHosts, claims :=
      WriteHostsAndSecrets(p, kept, rows, moved, w, b, cap, savedKeys, saved, DefaultsOf(store), identityIds);
    DefaultsAreStored(w, groups, store, identities, v);
    AllPassed(p, w, rep, identityIds, cap, key);
    PromisesAreKept(p, w, rep, v, claims, b, cap);
  }

  /** A default left in the store names a stored identity, or was there before. */
  lemma DefaultsAreStored(w: World, groups: seq<Group>, store: M.Shelf, identities: map<Id, Identity>, v: World)
    requires w.defaults == DefaultsOf(M.Shelve(groups, map[])) && v.defaults == DefaultsOf(store)
    requires identities.Keys == v.identities.Keys
    requires forall x :: G.DefaultStands(store, M.Shelve(groups, map[]), identities.Keys, x)
    ensures v.defaults <= w.defaults + v.identities.Keys
  {
    forall d | d in v.defaults ensures d in w.defaults + v.identities.Keys {
      var x :| x in store && store[x].identity == Some(d);
      assert G.DefaultStands(store, M.Shelve(groups, map[]), identities.Keys, x);
    }
  }

  lemma Conclusions(p: Payload, w: World, rep: Report, v: World, claims: map<Id, set<Field>>, cap: nat, b: Backend)
    requires Stored(w, p.secrets, rep, v, claims) && v.defaults <= w.defaults + v.identities.Keys
    requires Ordered(rep, w.hosts, IdentityIds(rep.kept) + w.identities.Keys, cap)
    requires IdentitiesSaved(rep.kept, rep.savedIdentities, w.keys.Keys + rep.savedKeys.Keys, b.identityFails)
    requires rep.written == Written(rep.asked, b)
    requires rep.asked == References(p, rep.kept, rep.order, rep.savedKeys.Keys, rep.savedIdentities.Keys)
    ensures Sound(p, w, rep, v, cap) && forall factsOf :: KeysHonest(p, w, rep, v, factsOf)
  {
    ghost var identityIds := IdentityIds(rep.kept) + w.identities.Keys;
    VaultStaysClosed(w.identities, w.keys, rep.savedKeys, rep.savedIdentities, rep.recorded);
    if FlagsBacked(w) {
      FlagsStayBacked(w, p.secrets, rep, v, claims, identityIds, cap);
    }
    AccountsAreKept(p, w, rep, v, claims, identityIds, cap, b);
    RowsAreSound(w, rep, v, claims, p.secrets, cap);
    forall x ensures StillThere(w, v, x) {
      SavedHostsStay(rep, w, v, identityIds, claims, cap, x);
    }
    BodiesAreAskedFor(p, rep, b);
    KeychainGrows(w, p.secrets, rep, v, claims, identityIds, cap);
    forall factsOf ensures KeysHonest(p, w, rep, v, factsOf) {
      KeysStayHonest(p, w, rep, v, factsOf);
    }
  }

  lemma AccountsAreKept(p: Payload, w: World, rep: Report, v: World, claims: map<Id, set<Field>>, identityIds: set<Id>,
                        cap: nat, b: Backend)
    requires Stored(w, p.secrets, rep, v, claims) && Ordered(rep, w.hosts, identityIds, cap)
    requires rep.written == Written(rep.asked, b)
    requires rep.asked == References(p, rep.kept, rep.order, rep.savedKeys.Keys, rep.savedIdentities.Keys)
    ensures AccountsKept(p, w, rep, v)
  {
    forall a | a in w.keychain ensures a in v.keychain && (v.keychain[a] == w.keychain[a] || Asked(p, rep, a)) {
      NothingReleased(w, p.secrets, rep, v, claims, identityIds, cap, a);
      ReferencesAre(p, rep, a);
    }
  }

  lemma RowsAreSound(w: World, rep: Report, v: World, claims: map<Id, set<Field>>, secrets: Keychain, cap: nat)
    requires Stored(w, secrets, rep, v, claims)
    requires Ordered(rep, w.hosts, IdentityIds(rep.kept) + w.identities.Keys, cap)
    ensures RowsSound(w, rep, v, cap)
  {
    forall h | h in rep.order
      ensures h.id in v.hosts && Acceptable(v.hosts[h.id], v.hosts, cap) && BindingStands(h, w, v, rep)
    {
      RowsAreAcceptable(rep, w, v, IdentityIds(rep.kept) + w.identities.Keys, claims, cap, h);
      BindingsStand(rep, w, v, cap, h);
    }
  }

  lemma BodiesAreAskedFor(p: Payload, rep: Report, b: Backend)
    requires rep.written == Written(rep.asked, b)
    requires rep.asked == References(p, rep.kept, rep.order, rep.savedKeys.Keys, rep.savedIdentities.Keys)
    ensures forall x | BodyOf(x) in rep.written :: x in rep.savedKeys
  {
    forall x | BodyOf(x) in rep.written ensures x in rep.savedKeys {
      ReferencesAre(p, rep, BodyOf(x));
    }
  }

  /** From the raw payload: nothing is asked of the file at all. */
  method ApplyBackup(raw: Raw, w: World, groups: seq<Group>, b: Backend, key: string -> string, cap: nat)
    returns (p: Payload, v: World, store: M.Shelf, rep: Report, skipped: nat, refusedHosts: seq<Host>,
             refusedGroups: seq<Group>, out: seq<Group>, ghost claims: map<Id, set<Field>>, ghost merged: seq<Group>)
    requires Keyed(w.hosts) && DistinctGroups(groups) && M.UniqueNames(M.Shelve(groups, map[]), key)
    requires w.defaults == DefaultsOf(M.Shelve(groups, map[]))
    requires b.reports <= b.lands <= raw.secrets.Keys
    ensures Clean(p, key) && p.secrets == raw.secrets && Stored(w, raw.secrets, rep, v, claims) && refusedHosts == []
    ensures Promises(p, w, rep, v, b, cap) && Sanitizes(p, raw, key)
    ensures |p.hosts| + |p.groups| + |p.identities| + |p.keys| + skipped
         == |raw.hosts| + |raw.groups| + |raw.identities| + |raw.keys|
    ensures KeysSaved(p.keys, rep.savedKeys, b.keyFails)
    ensures IdentitiesSaved(rep.kept, rep.savedIdentities, w.keys.Keys + rep.savedKeys.Keys, b.identityFails)
    ensures v.defaults == DefaultsOf(store)
    ensures GroupsKept(store, refusedGroups, out, M.Shelve(groups, map[]), p.groups, rep.rows, rep.moved, key)
    ensures Merges(merged, p.groups, groups, rep.rows, rep.moved, key)
    ensures GroupsWritten(store, refusedGroups, out, M.Shelve(groups, map[]), merged, v.identities.Keys, key)
  {
    p, skipped := SanitizePayload(raw, key);
    v, store, rep, refusedHosts, refusedGroups, out, claims, merged := ApplyV3(p, w, groups, b, key, cap);
  }
}
