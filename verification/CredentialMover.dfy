/**
 The calls themselves: `convertHostToVault`, `detachHostFromVault` and the store
 writes they make, step by step over one keychain and two record stores.
 */
module CredentialMover {
  import opened Records
  import opened HostStore
  import opened JumpChains
  import opened Vault
  import opened CredentialMoves

  /** How a host write can go wrong once its checks have passed: the commit throws with
      the record already set, or some stale accounts cannot be cleared afterwards. */
  datatype Fault = NoFault | CommitThrows | StuckAccounts(fields: set<Field>)

  datatype Outcome = Done | Denied(why: Refusal) | Threw

  /** The world one queued host write leaves. */
  function AfterWrite(w: World, h: Host, already: set<Field>, stamp: Stamp, cap: nat, fault: Fault): World {
    var stale := StaleFields(h, Lookup(w.hosts, h.id));
    if !HostWriteOk(w, h, stamp, cap) then w
    else match fault
      case CommitThrows => PersistHost(w, h, already)
      case NoFault => ReleaseFields(PersistHost(w, h, already), h.id, stale)
      case StuckAccounts(left) => ReleaseFields(PersistHost(w, h, already), h.id, stale - left)
  }

  /** Whether that write reports success. */
  predicate WriteThrows(w: World, h: Host, fault: Fault) {
    || fault.CommitThrows?
    || (fault.StuckAccounts? && StaleFields(h, Lookup(w.hosts, h.id)) * fault.fields != {})
  }

  class Mover {
    var keychain: Keychain
    var hosts: Disk
    var identities: map<Id, Identity>
    var keys: map<Id, VaultKey>
    var defaults: set<Id>

    constructor (w: World)
      ensures View() == w
    {
      keychain, hosts, identities, keys, defaults := w.keychain, w.hosts, w.identities, w.keys, w.defaults;
    }

    function View(): World
      reads this
    {
      World(keychain, hosts, identities, keys, defaults)
    }

    /** `copyMoves`: one read-modify-write of the keychain after another. */
    method CopyMoves(moves: seq<Move>) returns (copied: set<Field>)
      requires Independent(moves)
      modifies this`keychain
      ensures keychain == CopyAll(old(keychain), moves)
      ensures copied == CopiedFields(old(keychain), moves)
    {
      copied := {};
      var i := 0;
      while i < |moves|
        invariant 0 <= i <= |moves|
        invariant keychain == CopyAll(old(keychain), moves[..i])
        invariant copied == CopiedFields(old(keychain), moves[..i])
      {
        CopyNext(old(keychain), moves, i);
        if moves[i].source in keychain {
          keychain := keychain[moves[i].target := keychain[moves[i].source]];
          copied := copied + {moves[i].field};
        }
        i := i + 1;
      }
      assert moves[..i] == moves;
    }

    /** `upsertHost`: references, then the stamp, then the record, then the release. */
    method UpsertHost(h: Host, already: set<Field>, stamp: Stamp, cap: nat, fault: Fault) returns (o: Outcome)
      modifies this`hosts, this`keychain
      ensures View() == AfterWrite(old(View()), h, already, stamp, cap, fault)
      ensures !o.Denied? ==> h.id in hosts && WrittenAs(hosts[h.id], h, Lookup(old(hosts), h.id), already)
      ensures o.Denied? <==> !HostWriteOk(old(View()), h, stamp, cap)
      ensures o.Denied? ==> o.why == HostWriteRefused
      ensures o.Threw? <==> HostWriteOk(old(View()), h, stamp, cap) && WriteThrows(old(View()), h, fault)
    {
      var refused := AssertReferences(h, hosts, cap);
      if refused.Some? || StampOf(Lookup(hosts, h.id)) != stamp {
        return Denied(HostWriteRefused);
      }
      var stored := Lookup(hosts, h.id);
      hosts := hosts[h.id := NextRecord(h, stored, already)];
      if fault.CommitThrows? {
        return Threw;
      }
      var stale := StaleFields(h, stored);
      var left := if fault.StuckAccounts? then fault.fields else {};
      keychain := keychain - HostAccounts(h.id, stale - left);
      o := if stale * left != {} then Threw else Done;
    }

    /** `deleteIdentity`: refused while a host or a group default names it. */
    method DeleteIdentity(id: Id)
      modifies this`identities, this`keychain
      ensures View() == DropIdentity(old(View()), id)
    {
      if id in identities && id !in defaults && forall x | x in hosts :: hosts[x].cred != Bound(id) {
        identities := identities - {id};
        keychain := keychain - {Account(VaultService, id, PasswordField)};
      }
    }

    /** `deleteKey`: refused while an identity names it. */
    method DeleteKey(id: Id)
      modifies this`keys, this`keychain
      ensures View() == DropKey(old(View()), id)
    {
      if id in keys && forall i | i in identities :: identities[i].keyId != Some(id) {
        keys := keys - {id};
        keychain := keychain - {Account(VaultService, id, PrivateKeyField), Account(VaultService, id, PassphraseField)};
      }
    }

    /** `undoConvertRecords`: the identity first, or the key's own guard would refuse. */
    method UndoConvert(identityId: Id, minted: Option<Id>)
      modifies this`identities, this`keys, this`keychain
      ensures View() == var undone := DropIdentity(old(View()), identityId);
                        if minted.Some? then DropKey(undone, minted.value) else undone
    {
      DeleteIdentity(identityId);
      if minted.Some? {
        DeleteKey(minted.value);
      }
    }

    /** The copies and the vault records of a convert, steps 5 to 7. */
    method WriteRecords(q: Request) returns (o: Outcome)
      requires PreCheck(q, keys) == None
      modifies this`identities, this`keys, this`keychain
      ensures o.Done? <==> !(Minted(q).Some? && q.choice.name == "")
      ensures o.Done? ==> View() == WithRecords(old(View()), q)
      ensures !o.Done? ==> o == Denied(BlankKeyName)
                           && View() == old(View()).(keychain := CopyAll(old(keychain), Moves(q)))
    {
      ConvertMovesIndependent(q.host, q.identityId, Minted(q));
      var copied := CopyMoves(Moves(q));
      if Minted(q).Some? {
        if q.choice.name == "" {
          return Denied(BlankKeyName);
        }
        keys := keys[q.keyId := NewKey(q, copied)];
      }
      identities := identities[q.identityId := NewIdentity(q, copied)];
      o := Done;
    }

    /** `convertHostToVault`. */
    method ConvertHostToVault(q: Request, cap: nat, fault: Fault) returns (o: Outcome)
      requires Fresh(View(), q)
      modifies this
      ensures o.Done? <==> && PreCheck(q, old(keys)).None?
                           && !(Minted(q).Some? && q.choice.name == "")
                           && HostWriteOk(old(View()), BoundHost(q), OwnsInline, cap)
                           && !WriteThrows(old(View()), BoundHost(q), fault)
      ensures o == Denied(BlankKeyName) <==>
                PreCheck(q, old(keys)).None? && Minted(q).Some? && q.choice.name == ""
      ensures o.Threw? <==> && PreCheck(q, old(keys)).None?
                            && !(Minted(q).Some? && q.choice.name == "")
                            && HostWriteOk(old(View()), BoundHost(q), OwnsInline, cap)
                            && WriteThrows(old(View()), BoundHost(q), fault)
      ensures o.Done? ==> View() == Committed(old(View()), q) && q.host.cred.Inline?
                          && ConvertedTo(old(View()), q, View())
      ensures o.Denied? && o.why != BlankKeyName ==> View() == old(View())
      ensures o.Denied? && o.why == BlankKeyName ==>
                View() == old(View()).(keychain := CopyAll(old(keychain), Moves(q)))
      ensures o.Denied? && PreCheck(q, old(keys)).Some? ==> Some(o.why) == PreCheck(q, old(keys))
      ensures o.Threw? ==> View() == AfterWrite(WithRecords(old(View()), q), BoundHost(q), {}, OwnsInline, cap, fault)
    {
      ghost var w := View();
      var early := PreCheck(q, keys);
      if early.Some? {
        return Denied(early.value);
      }
      o := WriteRecords(q);
      if !o.Done? {
        return;
      }
      o := UpsertHost(BoundHost(q), {}, OwnsInline, cap, fault);
      ConvertWrite(w, q, cap, fault);
      if o.Done? {
        ConvertMeans(w, q);
        return;
      }
      UndoConvert(q.identityId, Minted(q));
      if o.Denied? {
        UndoRestores(w, q);
      }
    }

    /** `undoDetachCopies`: only while the stored record is bound or gone, and only
        what copied. `blind` is a re-read that throws, which stops it too. */
    method UndoCopies(hostId: Id, moves: seq<Move>, copied: set<Field>, blind: bool)
      modifies this`keychain
      ensures blind || StampOf(Lookup(hosts, hostId)) == OwnsInline ==> keychain == old(keychain)
      ensures !blind && StampOf(Lookup(hosts, hostId)) != OwnsInline ==>
                keychain == old(keychain) - (set m | m in moves && m.field in copied :: m.target)
    {
      if blind || (hostId in hosts && hosts[hostId].cred.Inline?) {
        return;
      }
      var i := 0;
      while i < |moves|
        invariant 0 <= i <= |moves|
        invariant keychain == old(keychain) - (set m | m in moves[..i] && m.field in copied :: m.target)
      {
        assert moves[..i + 1] == moves[..i] + [moves[i]];
        if moves[i].field in copied {
          keychain := keychain - {moves[i].target};
        }
        i := i + 1;
      }
      assert moves[..i] == moves;
    }

    /** The copies of a detach, none when the identity is gone. */
    method CopyOut(h: Host) returns (copied: set<Field>)
      requires h.cred.Bound?
      modifies this`keychain
      ensures View() == WithCopies(old(View()), h)
      ensures copied == CopiedFields(old(keychain), DetachPlan(old(View()), h))
    {
      copied := {};
      var identity := BoundIdentity(View(), h);
      if identity.Some? {
        DetachMovesIndependent(h, h.cred.identityId, LiveKey(View(), identity.value));
        copied := CopyMoves(DetachPlan(View(), h));
      }
    }

    /** `detachHostFromVault`. `warned` is the warning for a missing identity or key, and
        `blind` says whether the undo's re-read of the host throws. */
    method DetachHostFromVault(h: Host, cap: nat, fault: Fault, blind: bool) returns (o: Outcome, warned: bool)
      modifies this`keychain, this`hosts
      ensures !h.cred.Bound? ==> o == Denied(NotBound) && View() == old(View())
      ensures h.cred.Bound? ==>
                (o.Done? <==> HostWriteOk(old(View()), InlineHost(old(View()), h), StampOf(Some(h)), cap)
                              && !fault.CommitThrows?)
      ensures h.cred.Bound? && !o.Denied? ==> View() == Detached(old(View()), h)
                                              && DetachedTo(old(View()), h, View())
      ensures h.cred.Bound? && !o.Denied? ==> h.id in old(hosts) && old(hosts)[h.id].cred == h.cred
      ensures h.cred.Bound? && o.Denied? ==> hosts == old(hosts)
      ensures h.cred.Bound? && o.Denied? && (blind || StampOf(Lookup(hosts, h.id)) == OwnsInline) ==>
                keychain == WithCopies(old(View()), h).keychain
      ensures h.cred.Bound? && o.Denied? && !blind && StampOf(Lookup(hosts, h.id)) != OwnsInline ==>
                keychain == old(keychain) - CopiedTargets(old(View()), h)
      ensures warned <==> h.cred.Bound? && Dangling(old(View()), h)
    {
      if !h.cred.Bound? {
        return Denied(NotBound), false;
      }
      ghost var w := View();
      warned := Dangling(View(), h);
      var record, moves := InlineHost(View(), h), DetachPlan(View(), h);
      var copied := CopyOut(h);
      o := UpsertHost(record, copied, StampOf(Some(h)), cap, fault);
      StampTells(Lookup(w.hosts, h.id), Some(h));
      DetachWrite(w, h, cap, fault);
      if !o.Denied? {
        DetachMeans(w, h);
      }
      if !o.Done? {
        UndoCopies(h.id, moves, copied, blind);
        CopiedTargetsAre(w, h);
        FailedDetachRestores(w, h);
      }
    }
  }

  /** The identity is gone, or names a key that is. */
  predicate Dangling(w: World, h: Host) {
    var i := BoundIdentity(w, h);
    i.None? || LiveKey(w, i.value) != i.value.keyId
  }

  /** A detach's host write releases nothing, because the stored record was bound. */
  lemma DetachWrite(w: World, h: Host, cap: nat, fault: Fault)
    requires h.cred.Bound?
    ensures var c, r := WithCopies(w, h), InlineHost(w, h);
            var already := CopiedFields(w.keychain, DetachPlan(w, h));
            && (HostWriteOk(c, r, StampOf(Some(h)), cap) <==> HostWriteOk(w, r, StampOf(Some(h)), cap))
            && (HostWriteOk(c, r, StampOf(Some(h)), cap) ==>
                  && AfterWrite(c, r, already, StampOf(Some(h)), cap, fault) == Detached(w, h)
                  && (WriteThrows(c, r, fault) <==> fault.CommitThrows?))
  {
    var c, r := WithCopies(w, h), InlineHost(w, h);
    if HostWriteOk(c, r, StampOf(Some(h)), cap) {
      assert StaleFields(r, Lookup(c.hosts, r.id)) == {};
      assert HostAccounts(r.id, {}) == {};
      forall left: set<Field> ensures {} - left == {} && HostAccounts(r.id, {} - left) == {} {}
    }
  }

  /** A convert's host write, judged over the vault records it has just made: it is
      refused as it would have been before them, it commits, or it leaves the host
      naming the new identity, so that neither compensating delete does anything. */
  lemma ConvertWrite(w: World, q: Request, cap: nat, fault: Fault)
    ensures var r := WithRecords(w, q);
            var after := AfterWrite(r, BoundHost(q), {}, OwnsInline, cap, fault);
            && (HostWriteOk(r, BoundHost(q), OwnsInline, cap) <==> HostWriteOk(w, BoundHost(q), OwnsInline, cap))
            && (WriteThrows(r, BoundHost(q), fault) <==> WriteThrows(w, BoundHost(q), fault))
            && (HostWriteOk(r, BoundHost(q), OwnsInline, cap) && !WriteThrows(r, BoundHost(q), fault) ==>
                  after == Committed(w, q))
            && (HostWriteOk(r, BoundHost(q), OwnsInline, cap) ==>
                  && DropIdentity(after, q.identityId) == after
                  && (Minted(q).Some? ==> DropKey(after, q.keyId) == after))
  {
    var r := WithRecords(w, q);
    var after := AfterWrite(r, BoundHost(q), {}, OwnsInline, cap, fault);
    if HostWriteOk(r, BoundHost(q), OwnsInline, cap) {
      UndoRefused(after, q);
      if fault.StuckAccounts? && !WriteThrows(r, BoundHost(q), fault) {
        var stale := StaleFields(BoundHost(q), Lookup(r.hosts, q.host.id));
        assert stale - fault.fields == stale;
      }
    }
  }

  /** Once the host record names the new identity, both compensating deletes are
      refused: the identity by its holder, the key by the identity. */
  lemma UndoRefused(w: World, q: Request)
    requires q.host.id in w.hosts && w.hosts[q.host.id].cred == Bound(q.identityId)
    requires q.identityId in w.identities && w.identities[q.identityId].keyId == NamedKey(q)
    ensures DropIdentity(w, q.identityId) == w
    ensures Minted(q).Some? ==> DropKey(w, q.keyId) == w
  {
    assert Held(w, q.identityId);
    assert Minted(q).Some? ==> KeyInUse(w, q.keyId);
  }

  lemma CopiedTargetsAre(w: World, h: Host)
    requires h.cred.Bound?
    ensures var moves := DetachPlan(w, h);
            (set m | m in moves && m.field in CopiedFields(w.keychain, moves) :: m.target) == CopiedTargets(w, h)
  {
    var moves := DetachPlan(w, h);
    if BoundIdentity(w, h).Some? {
      var k := LiveKey(w, BoundIdentity(w, h).value);
      forall m | m in moves ensures m.target == HostAccount(h.id, m.field) {
        DetachMoveIs(h, h.cred.identityId, k, m);
      }
      forall f | f in CopiedFields(w.keychain, moves)
        ensures exists m :: m in moves && m.field == f && m.target == HostAccount(h.id, f)
      {
        var m :| m in moves && m.source in w.keychain && m.field == f;
      }
    }
  }
}
