/**
 The keychain and the vault records (`vault/store.ts`) beside the host store, and
 what moving a credential between them is made of: account copies, record writes
 guarded by a stamp, the release after a host write, and the two guarded deletes.
 */
module Vault {
  import opened Records
  import opened HostStore
  import opened JumpChains

  datatype Service = HostService | VaultService

  /** One keychain entry. An identity owns the password field at its id, a key the
      other two at its own. */
  datatype Account = Account(service: Service, id: Id, field: Field)

  type Keychain = map<Account, string>

  datatype Identity = Identity(id: Id, user: string, mode: AuthMode, keyId: Option<Id>, hasPassword: bool)

  /** `plain` is the PEM kind; `fingerprint` is trimmed, "" when nothing was recorded. */
  datatype VaultKey = VaultKey(id: Id, name: string, plain: bool, fingerprint: string,
                               hasPrivateKey: bool, hasPassphrase: bool)

  /** `defaults` are the identities some host group names as its default. */
  datatype World = World(keychain: Keychain, hosts: Disk, identities: map<Id, Identity>,
                         keys: map<Id, VaultKey>, defaults: set<Id>)

  function HostAccount(id: Id, f: Field): Account {
    Account(HostService, id, f)
  }

  function HostAccounts(id: Id, fs: set<Field>): set<Account> {
    set f | f in fs :: HostAccount(id, f)
  }

  const KEY_FIELDS: set<Field> := {PrivateKeyField, PassphraseField}

  /** `credentialStamp`. */
  datatype Stamp = Absent | OwnsInline | BoundTo(id: Id)

  function StampOf(h: Option<Host>): Stamp {
    match h
    case None => Absent
    case Some(x) => if x.cred.Inline? then OwnsInline else BoundTo(x.cred.identityId)
  }

  /** Two records have one stamp exactly when neither is there, both own their credentials,
      or both are bound to one identity. */
  lemma StampTells(a: Option<Host>, b: Option<Host>)
    ensures StampOf(a) == StampOf(b) <==>
              && (a.Some? <==> b.Some?)
              && (a.Some? && b.Some? ==>
                    && (a.value.cred.Inline? <==> b.value.cred.Inline?)
                    && (a.value.cred.Bound? ==> a.value.cred == b.value.cred))
  {
  }

  /** The queued checks of `upsertHost`: references and the stamp. */
  predicate HostWriteOk(w: World, h: Host, stamp: Stamp, cap: nat) {
    Acceptable(h, w.hosts, cap) && StampOf(Lookup(w.hosts, h.id)) == stamp
  }

  /** The record persisted, nothing released yet. */
  function PersistHost(w: World, h: Host, already: set<Field>): World {
    w.(hosts := w.hosts[h.id := NextRecord(h, Lookup(w.hosts, h.id), already)])
  }

  function ReleaseFields(w: World, id: Id, fs: set<Field>): World {
    w.(keychain := w.keychain - HostAccounts(id, fs))
  }

  /** A record or a default still binds this identity. */
  predicate Held(w: World, id: Id) {
    id in w.defaults || exists x | x in w.hosts :: w.hosts[x].cred == Bound(id)
  }

  /** `deleteIdentity`, its refusal swallowed. */
  function DropIdentity(w: World, id: Id): World {
    if id !in w.identities || Held(w, id) then w
    else w.(identities := w.identities - {id},
            keychain := w.keychain - {Account(VaultService, id, PasswordField)})
  }

  /** What `upsertIdentity` accepts, given the keys that exist. */
  predicate KeyRefOk(i: Identity, keys: set<Id>) {
    && (i.mode == Key ==> i.keyId.Some?)
    && (i.keyId.Some? ==> i.keyId.value in keys)
  }

  predicate KeyInUse(w: World, id: Id) {
    exists i | i in w.identities :: w.identities[i].keyId == Some(id)
  }

  /** `deleteKey`, its refusal swallowed. */
  function DropKey(w: World, id: Id): World {
    if id !in w.keys || KeyInUse(w, id) then w
    else w.(keys := w.keys - {id},
            keychain := w.keychain - (set f | f in KEY_FIELDS :: Account(VaultService, id, f)))
  }

  // ------------------------------------------------------------------- moves

  /** One account move, named by the host field it is about. */
  datatype Move = Move(field: Field, source: Account, target: Account)

  /** Where a host's field goes in the vault. */
  function VaultAccount(identityId: Id, keyId: Id, f: Field): Account {
    Account(VaultService, if f == PasswordField then identityId else keyId, f)
  }

  function IntoVault(hostId: Id, identityId: Id, keyId: Id, f: Field): Move {
    Move(f, HostAccount(hostId, f), VaultAccount(identityId, keyId, f))
  }

  function OutOfVault(hostId: Id, identityId: Id, keyId: Id, f: Field): Move {
    Move(f, VaultAccount(identityId, keyId, f), HostAccount(hostId, f))
  }

  /** `convertMoves`: the key accounts only for a key this operation creates. */
  function ConvertMoves(host: Host, identityId: Id, keyId: Option<Id>): seq<Move> {
    var password := IntoVault(host.id, identityId, "", PasswordField);
    if host.Rdp? || keyId.None? then [password]
    else [password,
          IntoVault(host.id, identityId, keyId.value, PrivateKeyField),
          IntoVault(host.id, identityId, keyId.value, PassphraseField)]
  }

  /** `detachMoves`. */
  function DetachMoves(host: Host, identityId: Id, keyId: Option<Id>): seq<Move> {
    var password := OutOfVault(host.id, identityId, "", PasswordField);
    if host.Rdp? || keyId.None? then [password]
    else [password,
          OutOfVault(host.id, identityId, keyId.value, PrivateKeyField),
          OutOfVault(host.id, identityId, keyId.value, PassphraseField)]
  }

  /** `secrets.copy`: a source holding nothing writes nothing. */
  function Copy(kc: Keychain, m: Move): Keychain {
    if m.source in kc then kc[m.target := kc[m.source]] else kc
  }

  function CopyAll(kc: Keychain, moves: seq<Move>): Keychain {
    if moves == [] then kc
    else Copy(CopyAll(kc, moves[..|moves| - 1]), moves[|moves| - 1])
  }

  /** No move reads what another wrote, and no two write one account. */
  ghost predicate Independent(moves: seq<Move>) {
    && (forall i, j | 0 <= i < |moves| && 0 <= j < |moves| :: moves[i].source != moves[j].target)
    && (forall i, j | 0 <= i < j < |moves| :: moves[i].target != moves[j].target && moves[i].field != moves[j].field)
  }

  ghost predicate Targets(moves: seq<Move>, a: Account) {
    exists m :: m in moves && m.target == a
  }

  function CopiedFields(kc: Keychain, moves: seq<Move>): set<Field> {
    set m | m in moves && m.source in kc :: m.field
  }

  /** Independent copies, account by account: a target holds its source's value when
      the source held one, and nothing else moves. */
  lemma {:induction false} CopyAllAt(kc: Keychain, moves: seq<Move>, a: Account)
    requires Independent(moves)
    ensures !Targets(moves, a) ==> (a in CopyAll(kc, moves) <==> a in kc)
                                   && (a in kc ==> CopyAll(kc, moves)[a] == kc[a])
    ensures forall m | m in moves && m.target == a ::
              && (m.source in kc ==> a in CopyAll(kc, moves) && CopyAll(kc, moves)[a] == kc[m.source])
              && (m.source !in kc ==> (a in CopyAll(kc, moves) <==> a in kc)
                                      && (a in kc ==> CopyAll(kc, moves)[a] == kc[a]))
  {
    if moves != [] {
      var n := |moves| - 1;
      var last := moves[n];
      assert moves == moves[..n] + [last];
      assert Independent(moves[..n]);
      CopyAllAt(kc, moves[..n], a);
      CopyAllAt(kc, moves[..n], last.source);
      assert !Targets(moves[..n], last.source);
      if last.target == a {
        assert !Targets(moves[..n], a);
      } else {
        assert Targets(moves, a) ==> Targets(moves[..n], a);
        assert forall m | m in moves[..n] :: m in moves;
      }
    }
  }

  lemma ConvertMovesIndependent(host: Host, identityId: Id, keyId: Option<Id>)
    ensures Independent(ConvertMoves(host, identityId, keyId))
  {
  }

  lemma DetachMovesIndependent(host: Host, identityId: Id, keyId: Option<Id>)
    ensures Independent(DetachMoves(host, identityId, keyId))
  {
  }

  /** What a convert's moves are: one per field moved. */
  lemma ConvertMoveIs(host: Host, identityId: Id, keyId: Option<Id>, m: Move)
    ensures m in ConvertMoves(host, identityId, keyId) <==>
              && (m.field == PasswordField || (host.Ssh? && keyId.Some?))
              && m == IntoVault(host.id, identityId, if keyId.Some? then keyId.value else "", m.field)
  {
  }

  lemma DetachMoveIs(host: Host, identityId: Id, keyId: Option<Id>, m: Move)
    ensures m in DetachMoves(host, identityId, keyId) <==>
              && (m.field == PasswordField || (host.Ssh? && keyId.Some?))
              && m == OutOfVault(host.id, identityId, if keyId.Some? then keyId.value else "", m.field)
  {
  }

  /** One more copy: its source still holds what it held before the first. */
  lemma CopyNext(kc: Keychain, moves: seq<Move>, i: nat)
    requires Independent(moves) && i < |moves|
    ensures CopyAll(kc, moves[..i + 1]) == Copy(CopyAll(kc, moves[..i]), moves[i])
    ensures moves[i].source in CopyAll(kc, moves[..i]) <==> moves[i].source in kc
    ensures CopiedFields(kc, moves[..i + 1])
         == CopiedFields(kc, moves[..i]) + if moves[i].source in kc then {moves[i].field} else {}
  {
    assert moves[..i + 1] == moves[..i] + [moves[i]];
    assert moves[..i + 1][..i] == moves[..i];
    assert Independent(moves[..i]);
    assert !Targets(moves[..i], moves[i].source);
    CopyAllAt(kc, moves[..i], moves[i].source);
  }
}
