/**
 Moving one host's credentials into the vault and back (`hosts/credentialMove.ts`),
 over the keychain and the two record stores, with every refusal and the two ways a
 host write can fail: refused before anything moved, or thrown after the record was
 already set.
 */
module CredentialMoves {
  import opened Records
  import opened HostStore
  import opened JumpChains
  import opened Vault

  /** What the caller wants the identity's key to be. */
  datatype KeyChoice = NoKey | Mint(name: string, fingerprint: string) | Reuse(keyId: Id, matched: string)

  /** One convert call: the record as loaded, the choices, and the ids minted for it. */
  datatype Request = Request(host: Host, user: string, choice: KeyChoice, identityId: Id, keyId: Id)

  datatype Refusal =
    | NotInline | NotBound | KeyUnnamed | KeyAuthWithoutKey
    | ReuseGone | ReuseOtherKind | ReuseEmpty | ReuseUnprinted | ReuseMismatch
    | BlankKeyName | HostWriteRefused

  /** `inlineNeedsKey`. */
  predicate NeedsKey(h: Host) {
    h.Ssh? && h.cred.Inline? && (h.cred.hasPrivateKey || h.cred.hasKeyPassphrase)
  }

  /** `inlineAuthMode`. */
  function ModeOf(h: Host): AuthMode {
    if h.Ssh? && h.cred.Inline? then h.cred.mode else Password
  }

  function Minted(q: Request): Option<Id> {
    if NeedsKey(q.host) && q.choice.Mint? then Some(q.keyId) else None
  }

  /** The key the new identity names: the one being created, or the one reused. */
  function NamedKey(q: Request): Option<Id> {
    if !NeedsKey(q.host) then None
    else match q.choice
         case Mint(_, _) => Some(q.keyId)
         case Reuse(k, _) => Some(k)
         case NoKey => None
  }

  /** The refusals made before a byte moves. */
  function PreCheck(q: Request, keys: map<Id, VaultKey>): Option<Refusal> {
    if !q.host.cred.Inline? then Some(NotInline)
    else if NeedsKey(q.host) && q.choice.NoKey? then Some(KeyUnnamed)
    else if ModeOf(q.host) == Key && !NeedsKey(q.host) then Some(KeyAuthWithoutKey)
    else if !(NeedsKey(q.host) && q.choice.Reuse?) then None
    else if q.choice.keyId !in keys then Some(ReuseGone)
    else
      var k := keys[q.choice.keyId];
      if !k.plain then Some(ReuseOtherKind)
      else if !k.hasPrivateKey then Some(ReuseEmpty)
      else if k.fingerprint == "" then Some(ReuseUnprinted)
      else if k.fingerprint != q.choice.matched then Some(ReuseMismatch)
      else None
  }

  function Moves(q: Request): seq<Move> {
    ConvertMoves(q.host, q.identityId, Minted(q))
  }

  function BoundHost(q: Request): Host {
    q.host.(cred := Bound(q.identityId))
  }

  function NewKey(q: Request, copied: set<Field>): VaultKey
    requires q.choice.Mint?
  {
    VaultKey(q.keyId, q.choice.name, true, q.choice.fingerprint, PrivateKeyField in copied, PassphraseField in copied)
  }

  function NewIdentity(q: Request, copied: set<Field>): Identity {
    Identity(q.identityId, q.user, ModeOf(q.host), NamedKey(q), PasswordField in copied)
  }

  /** The world once the copies and the vault records are written. */
  function WithRecords(w: World, q: Request): World {
    var copied := CopiedFields(w.keychain, Moves(q));
    w.(keychain := CopyAll(w.keychain, Moves(q)),
       keys := if Minted(q).Some? then w.keys[q.keyId := NewKey(q, copied)] else w.keys,
       identities := w.identities[q.identityId := NewIdentity(q, copied)])
  }

  /** The world after a convert: the host bound, and its own accounts released. */
  function Committed(w: World, q: Request): World {
    ReleaseFields(PersistHost(WithRecords(w, q), BoundHost(q), {}), q.host.id,
                  StaleFields(BoundHost(q), Lookup(w.hosts, q.host.id)))
  }

  /** The minted ids name nothing yet: no record, no account, no reference. */
  ghost predicate Fresh(w: World, q: Request) {
    && q.identityId !in w.identities && q.keyId !in w.keys
    && !Held(w, q.identityId) && !KeyInUse(w, q.keyId)
    && (forall f :: VaultAccount(q.identityId, q.keyId, f) !in w.keychain)
  }

  /** Undoing the records takes back exactly what the convert had put in the vault. */
  lemma UndoRestores(w: World, q: Request)
    requires Fresh(w, q)
    ensures var undone := DropIdentity(WithRecords(w, q), q.identityId);
            (if Minted(q).Some? then DropKey(undone, q.keyId) else undone) == w
  {
    var r := WithRecords(w, q);
    assert !Held(r, q.identityId);
    var undone := DropIdentity(r, q.identityId);
    assert undone.identities == w.identities;
    var last := if Minted(q).Some? then DropKey(undone, q.keyId) else undone;
    if Minted(q).Some? {
      assert !KeyInUse(undone, q.keyId);
      assert last.keys == w.keys;
    }
    forall a
      ensures a in last.keychain <==> a in w.keychain
      ensures a in w.keychain ==> last.keychain[a] == w.keychain[a]
    {
      UndoneAccount(w, q, a);
    }
    assert last.keychain == w.keychain;
  }

  lemma UndoneAccount(w: World, q: Request, a: Account)
    requires forall f :: VaultAccount(q.identityId, q.keyId, f) !in w.keychain
    ensures var gone := {Account(VaultService, q.identityId, PasswordField)}
                        + if Minted(q).Some? then set f | f in KEY_FIELDS :: Account(VaultService, q.keyId, f)
                          else {};
            var kc := CopyAll(w.keychain, Moves(q)) - gone;
            (a in kc <==> a in w.keychain) && (a in w.keychain ==> kc[a] == w.keychain[a])
  {
    var moves := Moves(q);
    ConvertMovesIndependent(q.host, q.identityId, Minted(q));
    CopyAllAt(w.keychain, moves, a);
    assert forall f | f in KEY_FIELDS :: Account(VaultService, q.keyId, f) == VaultAccount(q.identityId, q.keyId, f);
    assert Account(VaultService, q.identityId, PasswordField) == VaultAccount(q.identityId, q.keyId, PasswordField);
    if Targets(moves, a) {
      var m :| m in moves && m.target == a;
      ConvertMoveIs(q.host, q.identityId, Minted(q), m);
      assert a == VaultAccount(q.identityId, q.keyId, m.field);
    }
  }

  // ------------------------------------------------- what a credential reads as

  /** The account a credential names for one field, through an identity and, for key
      material, that identity's key. */
  function IdentityAccount(w: World, i: Id, f: Field): Option<Account> {
    if i !in w.identities then None
    else if f == PasswordField then Some(Account(VaultService, i, f))
    else if w.identities[i].keyId.Some? && w.identities[i].keyId.value in w.keys
    then Some(Account(VaultService, w.identities[i].keyId.value, f))
    else None
  }

  /** The account a host authenticates from. */
  function CredentialAccount(w: World, id: Id, f: Field): Option<Account> {
    if id !in w.hosts then None
    else if w.hosts[id].cred.Inline? then Some(HostAccount(id, f))
    else IdentityAccount(w, w.hosts[id].cred.identityId, f)
  }

  /** The secret a host would authenticate with. */
  function Reads(w: World, id: Id, f: Field): Option<string> {
    var a := CredentialAccount(w, id, f);
    if a.Some? then Lookup(w.keychain, a.value) else None
  }

  /** The world a convert starts from, once its pre-checks passed and the stamp is
      the one it loaded. */
  ghost predicate Convertible(w: World, q: Request) {
    && Fresh(w, q) && PreCheck(q, w.keys) == None
    && q.host.id in w.hosts && w.hosts[q.host.id].cred.Inline?
  }

  /** What `WithRecords` put at one account. */
  lemma CopiedAccount(w: World, q: Request, f: Field)
    requires f == PasswordField || Minted(q).Some?
    requires VaultAccount(q.identityId, q.keyId, f) !in w.keychain
    ensures Lookup(CopyAll(w.keychain, Moves(q)), VaultAccount(q.identityId, q.keyId, f))
         == Lookup(w.keychain, HostAccount(q.host.id, f))
  {
    var m := IntoVault(q.host.id, q.identityId, if Minted(q).Some? then Minted(q).value else "", f);
    ConvertMovesIndependent(q.host, q.identityId, Minted(q));
    ConvertMoveIs(q.host, q.identityId, Minted(q), m);
    CopyAllAt(w.keychain, Moves(q), m.target);
  }

  /** An account that is neither the new identity's nor the new key's is left alone. */
  lemma UncopiedAccount(w: World, q: Request, a: Account)
    requires a != VaultAccount(q.identityId, q.keyId, PasswordField)
    requires Minted(q).Some? ==> forall f :: a != VaultAccount(q.identityId, q.keyId, f)
    ensures Lookup(CopyAll(w.keychain, Moves(q)), a) == Lookup(w.keychain, a)
  {
    var moves := Moves(q);
    ConvertMovesIndependent(q.host, q.identityId, Minted(q));
    CopyAllAt(w.keychain, moves, a);
    if Targets(moves, a) {
      var m :| m in moves && m.target == a;
      ConvertMoveIs(q.host, q.identityId, Minted(q), m);
    }
  }

  /** Every secret the stored record could own, after a convert: the password always
      survives, the key material when a key was minted for it; on the reuse path the
      host authenticates from whatever the reused key holds; and with no key named at
      all (the flags deny the material) nothing is left to read. */
  lemma ConvertedReads(w: World, q: Request, f: Field)
    requires Convertible(w, q) && f in SecretFields(w.hosts[q.host.id])
    ensures HostAccount(q.host.id, f) !in Committed(w, q).keychain
    ensures Reads(Committed(w, q), q.host.id, f) ==
            if f == PasswordField || Minted(q).Some? then Reads(w, q.host.id, f)
            else if NamedKey(q).Some? then Lookup(w.keychain, Account(VaultService, NamedKey(q).value, f))
            else None
  {
    var c := Committed(w, q);
    var kc := CopyAll(w.keychain, Moves(q));
    var gone := HostAccounts(q.host.id, StaleFields(BoundHost(q), Lookup(w.hosts, q.host.id)));
    assert c.keychain == kc - gone;
    assert HostAccount(q.host.id, f) in gone;
    assert forall a | a in gone :: a.service == HostService;
    assert c.hosts[q.host.id] == BoundHost(q);
    assert c.identities[q.identityId] == NewIdentity(q, CopiedFields(w.keychain, Moves(q)));
    if f == PasswordField || Minted(q).Some? {
      CopiedAccount(w, q, f);
      assert CredentialAccount(c, q.host.id, f) == Some(VaultAccount(q.identityId, q.keyId, f));
    } else if NamedKey(q).Some? {
      ReusedReads(w, q, f);
    }
  }

  /** The reuse path leaves the reused key's accounts exactly as they were. */
  lemma ReusedReads(w: World, q: Request, f: Field)
    requires Fresh(w, q) && PreCheck(q, w.keys) == None
    requires NamedKey(q).Some? && Minted(q).None?
    requires f != PasswordField
    ensures NamedKey(q).value in w.keys
    ensures Lookup(CopyAll(w.keychain, Moves(q)), Account(VaultService, NamedKey(q).value, f))
         == Lookup(w.keychain, Account(VaultService, NamedKey(q).value, f))
  {
    UncopiedAccount(w, q, Account(VaultService, NamedKey(q).value, f));
  }

  /** The flags the vault records end up claiming are the truth about their accounts. */
  lemma ConvertedFlagsAreTrue(w: World, q: Request)
    requires Convertible(w, q)
    ensures var c := Committed(w, q);
            && (c.identities[q.identityId].hasPassword
                <==> Account(VaultService, q.identityId, PasswordField) in c.keychain)
            && (Minted(q).Some? ==>
                  && (c.keys[q.keyId].hasPrivateKey <==> Account(VaultService, q.keyId, PrivateKeyField) in c.keychain)
                  && (c.keys[q.keyId].hasPassphrase <==> Account(VaultService, q.keyId, PassphraseField) in c.keychain))
  {
    CopiedAccount(w, q, PasswordField);
    CopiedIff(w, q, PasswordField);
    if Minted(q).Some? {
      CopiedAccount(w, q, PrivateKeyField);
      CopiedIff(w, q, PrivateKeyField);
      CopiedAccount(w, q, PassphraseField);
      CopiedIff(w, q, PassphraseField);
    }
  }

  lemma CopiedIff(w: World, q: Request, f: Field)
    requires f == PasswordField || Minted(q).Some?
    ensures f in CopiedFields(w.keychain, Moves(q)) <==> HostAccount(q.host.id, f) in w.keychain
  {
    var m := IntoVault(q.host.id, q.identityId, if Minted(q).Some? then Minted(q).value else "", f);
    ConvertMoveIs(q.host, q.identityId, Minted(q), m);
    if f in CopiedFields(w.keychain, Moves(q)) {
      var n :| n in Moves(q) && n.source in w.keychain && n.field == f;
      ConvertMoveIs(q.host, q.identityId, Minted(q), n);
    }
  }

  /** The condition a caller can check before the call: nothing the host would
      authenticate with is lost or replaced. */
  ghost predicate NothingAtStake(w: World, q: Request)
    requires q.host.id in w.hosts
  {
    Minted(q).Some? || forall f | f in SecretFields(w.hosts[q.host.id]) && f != PasswordField ::
      Lookup(w.keychain, HostAccount(q.host.id, f)) ==
      if NamedKey(q).Some? then Lookup(w.keychain, Account(VaultService, NamedKey(q).value, f)) else None
  }

  /** A convert is lossless exactly then. */
  lemma ConvertIsLossless(w: World, q: Request)
    requires Convertible(w, q)
    ensures (forall f | f in SecretFields(w.hosts[q.host.id]) ::
               Reads(Committed(w, q), q.host.id, f) == Reads(w, q.host.id, f))
            <==> NothingAtStake(w, q)
  {
    forall f | f in SecretFields(w.hosts[q.host.id])
      ensures Reads(Committed(w, q), q.host.id, f) ==
              if f == PasswordField || Minted(q).Some? then Reads(w, q.host.id, f)
              else if NamedKey(q).Some? then Lookup(w.keychain, Account(VaultService, NamedKey(q).value, f))
              else None
    {
      ConvertedReads(w, q, f);
    }
    assert forall f :: Reads(w, q.host.id, f) == Lookup(w.keychain, HostAccount(q.host.id, f));
  }

  /** On the mint path, a record whose flags agree with the keychain loses nothing. */
  lemma HonestMintIsLossless(w: World, q: Request)
    requires PreCheck(q, w.keys) == None && !(NeedsKey(q.host) && q.choice.Reuse?)
    requires q.host.id in w.hosts && w.hosts[q.host.id] == q.host
    requires forall f | f in SecretFields(q.host) ::
               Flag(q.host.cred, f) <==> HostAccount(q.host.id, f) in w.keychain
    ensures NothingAtStake(w, q)
  {
    assert Minted(q).None? ==> forall f | f in SecretFields(q.host) && f != PasswordField :: !Flag(q.host.cred, f);
  }

  /** Flags that deny stored key material lose it: with no flag set no key is named,
      and the release still clears the account. */
  lemma DeniedKeyIsLost(w: World, q: Request)
    requires Convertible(w, q) && !NeedsKey(q.host) && w.hosts[q.host.id].Ssh?
    requires HostAccount(q.host.id, PrivateKeyField) in w.keychain
    ensures Reads(w, q.host.id, PrivateKeyField).Some?
    ensures Reads(Committed(w, q), q.host.id, PrivateKeyField).None?
    ensures HostAccount(q.host.id, PrivateKeyField) !in Committed(w, q).keychain
  {
    ConvertedReads(w, q, PrivateKeyField);
  }

  /** Whatever key the new identity names, minted or reused and whatever the auth
      mode, the key store then refuses to delete it. */
  lemma NamedKeyIsHeld(w: World, q: Request)
    requires Convertible(w, q) && NamedKey(q).Some?
    ensures NamedKey(q).value in Committed(w, q).keys
    ensures DropKey(Committed(w, q), NamedKey(q).value) == Committed(w, q)
  {
    var c := Committed(w, q);
    assert c.identities[q.identityId].keyId == NamedKey(q);
    assert KeyInUse(c, NamedKey(q).value);
  }

  /** Reuse writes no key record, and of the vault's accounts only the new
      identity's password. */
  lemma ReuseTouchesNoKey(w: World, q: Request, a: Account)
    requires Convertible(w, q) && q.choice.Reuse?
    requires a.service == VaultService && a != Account(VaultService, q.identityId, PasswordField)
    ensures Committed(w, q).keys == w.keys
    ensures Lookup(Committed(w, q).keychain, a) == Lookup(w.keychain, a)
  {
    UncopiedAccount(w, q, a);
  }

  // ------------------------------------------------------------------ the offer

  /** A record `reusableVaultKey` may offer for an inspected fingerprint. */
  predicate Offerable(k: VaultKey, fingerprint: string) {
    fingerprint != "" && k.plain && k.hasPrivateKey && k.fingerprint == fingerprint
  }

  /** `reusableVaultKey`. */
  function ReusableKey(keys: seq<VaultKey>, fingerprint: string): (r: Option<VaultKey>)
    ensures r.None? <==> forall k | k in keys :: !Offerable(k, fingerprint)
    ensures r.Some? ==> r.value in keys && Offerable(r.value, fingerprint)
  {
    if keys == [] then None
    else if Offerable(keys[0], fingerprint) then Some(keys[0])
    else
      assert keys == [keys[0]] + keys[1..];
      ReusableKey(keys[1..], fingerprint)
  }

  /** The first record that may be offered wins. */
  lemma {:induction false} ReusableKeyIsFirst(keys: seq<VaultKey>, fingerprint: string, i: nat)
    requires i < |keys| && Offerable(keys[i], fingerprint)
    requires forall j | 0 <= j < i :: !Offerable(keys[j], fingerprint)
    ensures ReusableKey(keys, fingerprint) == Some(keys[i])
  {
    if i > 0 {
      ReusableKeyIsFirst(keys[1..], fingerprint, i - 1);
    }
  }

  /** Pre-check 4 accepts a reuse exactly when the record at that id now could have
      been offered for that fingerprint. */
  lemma ReuseAcceptedIff(q: Request, keys: map<Id, VaultKey>)
    requires NeedsKey(q.host) && q.choice.Reuse?
    ensures PreCheck(q, keys) == None <==>
              q.choice.keyId in keys && Offerable(keys[q.choice.keyId], q.choice.matched)
  {
  }

  // --------------------------------------------------------------------- detach

  function BoundIdentity(w: World, h: Host): Option<Identity> {
    if h.cred.Bound? && h.cred.identityId in w.identities then Some(w.identities[h.cred.identityId]) else None
  }

  /** The identity's key, when the record it names exists. */
  function LiveKey(w: World, i: Identity): Option<Id> {
    if i.keyId.Some? && i.keyId.value in w.keys then i.keyId else None
  }

  /** The moves one detach makes: none without an identity, the password alone
      without a key. */
  function DetachPlan(w: World, h: Host): seq<Move>
    requires h.cred.Bound?
  {
    match BoundIdentity(w, h)
    case None => []
    case Some(i) => DetachMoves(h, h.cred.identityId, LiveKey(w, i))
  }

  /** `buildInlineRecord` over `detachInlineFields`. */
  function InlineHost(w: World, h: Host): Host {
    var i := BoundIdentity(w, h);
    var user := if i.Some? then i.value.user else "";
    var mode := if i.Some? && h.Ssh? then i.value.mode else Password;
    h.(cred := Inline(h.id, user, mode, false, false, false))
  }

  function WithCopies(w: World, h: Host): World
    requires h.cred.Bound?
  {
    w.(keychain := CopyAll(w.keychain, DetachPlan(w, h)))
  }

  /** The world after a detach. Nothing is released: the stored record was bound. */
  function Detached(w: World, h: Host): World
    requires h.cred.Bound?
  {
    PersistHost(WithCopies(w, h), InlineHost(w, h), CopiedFields(w.keychain, DetachPlan(w, h)))
  }

  /** The host accounts a detach wrote. */
  function CopiedTargets(w: World, h: Host): set<Account>
    requires h.cred.Bound?
  {
    HostAccounts(h.id, CopiedFields(w.keychain, DetachPlan(w, h)))
  }

  /** The fields a host of this protocol can own once inline. */
  predicate Owns(h: Host, f: Field) {
    f == PasswordField || h.Ssh?
  }

  /** A detach copies a field when the vault holds a value the host would read. */
  lemma DetachCopies(w: World, h: Host, f: Field)
    requires h.cred.Bound?
    ensures f in CopiedFields(w.keychain, DetachPlan(w, h)) <==>
              && Owns(h, f)
              && IdentityAccount(w, h.cred.identityId, f).Some?
              && IdentityAccount(w, h.cred.identityId, f).value in w.keychain
  {
    if BoundIdentity(w, h).Some? {
      var k := LiveKey(w, BoundIdentity(w, h).value);
      var m := OutOfVault(h.id, h.cred.identityId, if k.Some? then k.value else "", f);
      DetachMoveIs(h, h.cred.identityId, k, m);
      if f in CopiedFields(w.keychain, DetachPlan(w, h)) {
        var n :| n in DetachPlan(w, h) && n.source in w.keychain && n.field == f;
        DetachMoveIs(h, h.cred.identityId, k, n);
      }
    }
  }

  /** The keychain after a detach's copies, account by account: a copied field's
      account holds what the vault holds, and nothing else moved. */
  lemma DetachedAccount(w: World, h: Host, a: Account)
    requires h.cred.Bound?
    ensures Lookup(WithCopies(w, h).keychain, a) ==
            if a in CopiedTargets(w, h)
            then Lookup(w.keychain, VaultAccountOf(w, h, a.field))
            else Lookup(w.keychain, a)
  {
    var moves := DetachPlan(w, h);
    DetachCopies(w, h, a.field);
    if BoundIdentity(w, h).Some? {
      var k := LiveKey(w, BoundIdentity(w, h).value);
      DetachMovesIndependent(h, h.cred.identityId, k);
      CopyAllAt(w.keychain, moves, a);
      var m := OutOfVault(h.id, h.cred.identityId, if k.Some? then k.value else "", a.field);
      DetachMoveIs(h, h.cred.identityId, k, m);
      if Targets(moves, a) {
        var n :| n in moves && n.target == a;
        DetachMoveIs(h, h.cred.identityId, k, n);
        assert n == m;
      }
    }
  }

  function VaultAccountOf(w: World, h: Host, f: Field): Account
    requires h.cred.Bound?
  {
    var a := IdentityAccount(w, h.cred.identityId, f);
    if a.Some? then a.value else HostAccount(h.id, f)
  }

  /** What a detached host authenticates with, field by field. */
  lemma DetachedReads(w: World, h: Host, f: Field)
    requires h.cred.Bound? && Lookup(w.hosts, h.id).Some? && w.hosts[h.id].cred == h.cred && Owns(h, f)
    ensures Reads(Detached(w, h), h.id, f) ==
            if Reads(w, h.id, f).Some? then Reads(w, h.id, f) else Lookup(w.keychain, HostAccount(h.id, f))
    ensures Flag(Detached(w, h).hosts[h.id].cred, f) <==> Reads(w, h.id, f).Some?
  {
    DetachedAccount(w, h, HostAccount(h.id, f));
    DetachCopies(w, h, f);
  }

  /** The vault is read and never written by a detach. */
  lemma DetachLeavesVault(w: World, h: Host, a: Account)
    requires h.cred.Bound? && a.service == VaultService
    ensures Detached(w, h).identities == w.identities && Detached(w, h).keys == w.keys
    ensures Lookup(Detached(w, h).keychain, a) == Lookup(w.keychain, a)
  {
    DetachedAccount(w, h, a);
  }

  /** Deleting the copied targets restores the keychain exactly when none of them
      held anything before: an orphan at such a slot is overwritten, then deleted. */
  lemma FailedDetachRestores(w: World, h: Host)
    requires h.cred.Bound?
    ensures WithCopies(w, h).keychain - CopiedTargets(w, h) == w.keychain - CopiedTargets(w, h)
    ensures WithCopies(w, h).keychain - CopiedTargets(w, h) == w.keychain
            <==> CopiedTargets(w, h) !! w.keychain.Keys
  {
    var undone := WithCopies(w, h).keychain - CopiedTargets(w, h);
    var less := w.keychain - CopiedTargets(w, h);
    forall a
      ensures Lookup(undone, a) == Lookup(less, a)
    {
      DetachedAccount(w, h, a);
    }
    SameMap(undone, less);
    if CopiedTargets(w, h) !! w.keychain.Keys {
      assert less == w.keychain;
    }
  }

  /** Convert on the mint path, then detach: the host is inline again over the same
      accounts holding the same values, and its flags describe them. */
  lemma ConvertThenDetach(w: World, q: Request, f: Field)
    requires Convertible(w, q) && NothingAtStake(w, q)
    requires f in SecretFields(w.hosts[q.host.id]) && Owns(q.host, f)
    ensures var back := Detached(Committed(w, q), BoundHost(q));
            && Lookup(back.keychain, HostAccount(q.host.id, f)) == Lookup(w.keychain, HostAccount(q.host.id, f))
            && back.hosts[q.host.id].cred.Inline? && back.hosts[q.host.id].cred.user == q.user
            && back.hosts[q.host.id].cred.mode == (if q.host.Ssh? then q.host.cred.mode else Password)
            && (Flag(back.hosts[q.host.id].cred, f) <==> HostAccount(q.host.id, f) in w.keychain)
  {
    ConvertedReads(w, q, f);
    DetachedReads(Committed(w, q), BoundHost(q), f);
  }

  /** A host bound to an identity with a password, and an orphan left at the host's own
      password account: a failed detach overwrites the orphan and then deletes it. */
  lemma OrphanIsLost()
    ensures var host := Ssh("h", "", None, Bound("i"), "");
            var orphan, shared := HostAccount("h", PasswordField), Account(VaultService, "i", PasswordField);
            var w := World(map[orphan := "left", shared := "pw"], map["h" := host],
                           map["i" := Identity("i", "root", Password, None, true)], map[], {});
            var undone := WithCopies(w, host).keychain - CopiedTargets(w, host);
            && orphan in w.keychain && orphan !in undone && undone != w.keychain && shared in undone
  {
    var host := Ssh("h", "", None, Bound("i"), "");
    var orphan, shared := HostAccount("h", PasswordField), Account(VaultService, "i", PasswordField);
    var w := World(map[orphan := "left", shared := "pw"], map["h" := host],
                   map["i" := Identity("i", "root", Password, None, true)], map[], {});
    DetachCopies(w, host, PasswordField);
    assert orphan in CopiedTargets(w, host);
    FailedDetachRestores(w, host);
    assert CopiedTargets(w, host) * w.keychain.Keys != {} by {
      assert orphan in CopiedTargets(w, host) * w.keychain.Keys;
    }
  }

  // --------------------------------------------------- the two calls, record by record

  /** A host stores key material of its own. */
  predicate StoresKey(h: Host) {
    h.Ssh? && h.cred.Inline? && (h.cred.hasPrivateKey || h.cred.hasKeyPassphrase)
  }

  /** Each refusal before a byte moves, in the order they are made. */
  lemma PreCheckIs(q: Request, keys: map<Id, VaultKey>)
    ensures var r, h, c := PreCheck(q, keys), q.host, q.choice;
            && (r == Some(NotInline) <==> h.cred.Bound?)
            && (r == Some(KeyUnnamed) <==> StoresKey(h) && c == NoKey)
            && (r == Some(KeyAuthWithoutKey) <==> && h.Ssh? && h.cred.Inline? && h.cred.mode == Key
                                                  && !h.cred.hasPrivateKey && !h.cred.hasKeyPassphrase)
            && (r == Some(ReuseGone) <==> StoresKey(h) && c.Reuse? && c.keyId !in keys)
            && (StoresKey(h) && c.Reuse? && c.keyId in keys ==>
                  var k := keys[c.keyId];
                  && (r == Some(ReuseOtherKind) <==> !k.plain)
                  && (r == Some(ReuseEmpty) <==> k.plain && !k.hasPrivateKey)
                  && (r == Some(ReuseUnprinted) <==> k.plain && k.hasPrivateKey && k.fingerprint == "")
                  && (r == Some(ReuseMismatch) <==>
                        k.plain && k.hasPrivateKey && k.fingerprint !in {"", c.matched}))
            && (r.None? <==> && h.cred.Inline?
                             && (StoresKey(h) ==>
                                   c.Mint? || (c.Reuse? && c.keyId in keys && Offerable(keys[c.keyId], c.matched)))
                             && (h.Ssh? && h.cred.mode == Key ==> StoresKey(h)))
  {
  }

  /** What a convert leaves, record by record and account by account. */
  ghost predicate ConvertedTo(w: World, q: Request, v: World)
    requires q.host.cred.Inline?
  {
    var mints := StoresKey(q.host) && q.choice.Mint?;
    var key := if mints then Some(q.keyId)
               else if StoresKey(q.host) && q.choice.Reuse? then Some(q.choice.keyId) else None;
    var held := (f: Field) => HostAccount(q.host.id, f) in w.keychain;
    && v.hosts == w.hosts[q.host.id := q.host.(cred := Bound(q.identityId))]
    && v.identities == w.identities[q.identityId := Identity(q.identityId, q.user,
                                                             if q.host.Ssh? then q.host.cred.mode else Password,
                                                             key, held(PasswordField))]
    && v.keys == (if mints
                  then w.keys[q.keyId := VaultKey(q.keyId, q.choice.name, true, q.choice.fingerprint,
                                                  held(PrivateKeyField), held(PassphraseField))]
                  else w.keys)
    && v.defaults == w.defaults
    && forall a :: Lookup(v.keychain, a) == ConvertedValue(w, q, mints, a)
  }

  /** The value at one account afterwards: the new identity's password and the minted key's
      halves are the host's, what the stored host owned is gone, all else is as it was. */
  function ConvertedValue(w: World, q: Request, mints: bool, a: Account): Option<string> {
    if a == Account(VaultService, q.identityId, PasswordField)
    then Lookup(w.keychain, HostAccount(q.host.id, PasswordField))
    else if mints && a.service == VaultService && a.id == q.keyId && a.field != PasswordField
    then Lookup(w.keychain, HostAccount(q.host.id, a.field))
    else if a.service == HostService && a.id == q.host.id && a.id in w.hosts && CanOwn(w.hosts[a.id], a.field) then None
    else Lookup(w.keychain, a)
  }

  lemma MintsIff(q: Request)
    ensures Minted(q) == if StoresKey(q.host) && q.choice.Mint? then Some(q.keyId) else None
    ensures NamedKey(q) == if StoresKey(q.host) && q.choice.Mint? then Some(q.keyId)
                           else if StoresKey(q.host) && q.choice.Reuse? then Some(q.choice.keyId) else None
  {
  }

  lemma ConvertedRecords(w: World, q: Request)
    requires Convertible(w, q)
    ensures var c := Committed(w, q);
            && c.hosts == w.hosts[q.host.id := q.host.(cred := Bound(q.identityId))]
            && c.identities == w.identities[q.identityId := NewIdentity(q, CopiedFields(w.keychain, Moves(q)))]
            && c.keys == (if Minted(q).Some? then w.keys[q.keyId := NewKey(q, CopiedFields(w.keychain, Moves(q)))]
                          else w.keys)
            && c.defaults == w.defaults
    ensures PasswordField in CopiedFields(w.keychain, Moves(q)) <==> HostAccount(q.host.id, PasswordField) in w.keychain
    ensures Minted(q).Some? ==> forall f ::
              f in CopiedFields(w.keychain, Moves(q)) <==> HostAccount(q.host.id, f) in w.keychain
  {
    CopiedIff(w, q, PasswordField);
    if Minted(q).Some? {
      forall f ensures f in CopiedFields(w.keychain, Moves(q)) <==> HostAccount(q.host.id, f) in w.keychain {
        CopiedIff(w, q, f);
      }
    }
  }

  lemma ConvertedAccount(w: World, q: Request, a: Account)
    requires Convertible(w, q)
    ensures Lookup(Committed(w, q).keychain, a) == ConvertedValue(w, q, Minted(q).Some?, a)
  {
    var gone := HostAccounts(q.host.id, StaleFields(BoundHost(q), Lookup(w.hosts, q.host.id)));
    assert a in gone <==> a.service == HostService && a.id == q.host.id && CanOwn(w.hosts[q.host.id], a.field) by {
      assert a == Account(a.service, a.id, a.field);
    }
    if a == VaultAccount(q.identityId, q.keyId, a.field) && (a.field == PasswordField || Minted(q).Some?) {
      CopiedAccount(w, q, a.field);
    } else {
      UncopiedAccount(w, q, a);
    }
  }

  /** A successful convert is exactly that. */
  lemma ConvertMeans(w: World, q: Request)
    requires Convertible(w, q)
    ensures ConvertedTo(w, q, Committed(w, q))
  {
    ConvertedRecords(w, q);
    MintsIff(q);
    forall a ensures Lookup(Committed(w, q).keychain, a) == ConvertedValue(w, q, Minted(q).Some?, a) {
      ConvertedAccount(w, q, a);
    }
  }

  /** The secret a bound host reads for one field it can own. */
  function Shared(w: World, h: Host, f: Field): Option<string>
    requires h.cred.Bound?
  {
    var a := IdentityAccount(w, h.cred.identityId, f);
    if Owns(h, f) && a.Some? then Lookup(w.keychain, a.value) else None
  }

  /** What a detach leaves: the host inline under its own id, with the identity's user and
      mode (nobody's, and a password, if the identity is gone), holding a copy of every
      secret it read through the identity; the vault as it was. */
  ghost predicate DetachedTo(w: World, h: Host, v: World)
    requires h.cred.Bound?
  {
    var i := Lookup(w.identities, h.cred.identityId);
    && v.hosts == w.hosts[h.id := h.(cred := Inline(h.id, if i.Some? then i.value.user else "",
                                                    if i.Some? && h.Ssh? then i.value.mode else Password,
                                                    Shared(w, h, PasswordField).Some?,
                                                    Shared(w, h, PrivateKeyField).Some?,
                                                    Shared(w, h, PassphraseField).Some?))]
    && v.identities == w.identities && v.keys == w.keys && v.defaults == w.defaults
    && forall a :: Lookup(v.keychain, a) == DetachedValue(w, h, a)
  }

  function DetachedValue(w: World, h: Host, a: Account): Option<string>
    requires h.cred.Bound?
  {
    if a.service == HostService && a.id == h.id && Shared(w, h, a.field).Some? then Shared(w, h, a.field)
    else Lookup(w.keychain, a)
  }

  lemma SharedIsCopied(w: World, h: Host, f: Field)
    requires h.cred.Bound?
    ensures f in CopiedFields(w.keychain, DetachPlan(w, h)) <==> Shared(w, h, f).Some?
  {
    DetachCopies(w, h, f);
  }

  lemma DetachedLookup(w: World, h: Host, a: Account)
    requires h.cred.Bound?
    ensures Lookup(Detached(w, h).keychain, a) == DetachedValue(w, h, a)
  {
    DetachedAccount(w, h, a);
    SharedIsCopied(w, h, a.field);
    assert a in CopiedTargets(w, h) <==> && a.service == HostService && a.id == h.id
                                         && a.field in CopiedFields(w.keychain, DetachPlan(w, h)) by {
      assert a == Account(a.service, a.id, a.field);
    }
  }

  /** A detach is exactly that. */
  lemma DetachMeans(w: World, h: Host)
    requires h.cred.Bound? && (h.id in w.hosts ==> w.hosts[h.id].cred.Bound?)
    ensures DetachedTo(w, h, Detached(w, h))
  {
    SharedIsCopied(w, h, PasswordField);
    SharedIsCopied(w, h, PrivateKeyField);
    SharedIsCopied(w, h, PassphraseField);
    forall a ensures Lookup(Detached(w, h).keychain, a) == DetachedValue(w, h, a) {
      DetachedLookup(w, h, a);
    }
  }

  /** A host as its store keeps it: it owns its binding, its flags are the truth, and an
      RDP host has neither a mode nor key flags. */
  ghost predicate WellKept(w: World, h: Host) {
    && h.id in w.hosts && w.hosts[h.id] == h && h.cred.Inline? && h.cred.owner == h.id
    && (h.Rdp? ==> h.cred.mode == Password)
    && forall f :: Flag(h.cred, f) <==> CanOwn(h, f) && HostAccount(h.id, f) in w.keychain
  }

  /** Convert, then detach, of such a host under its own user name, minting its key if it
      has one: the host store is what it was, record and all, and so is every account of
      the host service. */
  lemma RoundTrip(w: World, q: Request)
    requires Convertible(w, q) && WellKept(w, q.host) && q.user == q.host.cred.user
    requires StoresKey(q.host) ==> q.choice.Mint?
    ensures var back := Detached(Committed(w, q), BoundHost(q));
            && back.hosts == w.hosts
            && forall a: Account | a.service == HostService :: Lookup(back.keychain, a) == Lookup(w.keychain, a)
  {
    RecordReturns(w, q);
    var back := Detached(Committed(w, q), BoundHost(q));
    forall a: Account | a.service == HostService ensures Lookup(back.keychain, a) == Lookup(w.keychain, a) {
      AccountReturns(w, q, a);
    }
  }

  lemma RecordReturns(w: World, q: Request)
    requires Convertible(w, q) && WellKept(w, q.host) && q.user == q.host.cred.user
    requires StoresKey(q.host) ==> q.choice.Mint?
    ensures Detached(Committed(w, q), BoundHost(q)).hosts == w.hosts
  {
    var c, h := Committed(w, q), BoundHost(q);
    ConvertedRecords(w, q);
    DetachMeans(c, h);
    CredentialReturns(w, q);
    RecordIs(w, q, c, Detached(c, h));
  }

  lemma RecordIs(w: World, q: Request, c: World, back: World)
    requires WellKept(w, q.host) && q.user == q.host.cred.user && DetachedTo(c, BoundHost(q), back)
    requires c.hosts == w.hosts[q.host.id := BoundHost(q)]
    requires q.identityId in c.identities
             && c.identities[q.identityId].user == q.user && c.identities[q.identityId].mode == ModeOf(q.host)
    requires Shared(c, BoundHost(q), PasswordField).Some? == q.host.cred.hasPassword
    requires Shared(c, BoundHost(q), PrivateKeyField).Some? == q.host.cred.hasPrivateKey
    requires Shared(c, BoundHost(q), PassphraseField).Some? == q.host.cred.hasKeyPassphrase
    ensures back.hosts == w.hosts
  {
    assert back.hosts == c.hosts[q.host.id := q.host];
  }

  lemma CredentialReturns(w: World, q: Request)
    requires Convertible(w, q) && WellKept(w, q.host) && (StoresKey(q.host) ==> q.choice.Mint?)
    ensures var c, h := Committed(w, q), BoundHost(q);
            && Shared(c, h, PasswordField).Some? == q.host.cred.hasPassword
            && Shared(c, h, PrivateKeyField).Some? == q.host.cred.hasPrivateKey
            && Shared(c, h, PassphraseField).Some? == q.host.cred.hasKeyPassphrase
  {
    forall f ensures Shared(Committed(w, q), BoundHost(q), f).Some? == Flag(q.host.cred, f) {
      SecretReturns(w, q, f);
    }
    assert Flag(q.host.cred, PasswordField) == q.host.cred.hasPassword;
    assert Flag(q.host.cred, PrivateKeyField) == q.host.cred.hasPrivateKey;
    assert Flag(q.host.cred, PassphraseField) == q.host.cred.hasKeyPassphrase;
  }

  lemma AccountReturns(w: World, q: Request, a: Account)
    requires Convertible(w, q) && WellKept(w, q.host) && (StoresKey(q.host) ==> q.choice.Mint?)
    requires a.service == HostService
    ensures Lookup(Detached(Committed(w, q), BoundHost(q)).keychain, a) == Lookup(w.keychain, a)
  {
    DetachedLookup(Committed(w, q), BoundHost(q), a);
    ConvertedAccount(w, q, a);
    SecretReturns(w, q, a.field);
    assert a == Account(a.service, a.id, a.field);
  }

  /** What the converted host reads is what it stored itself. */
  lemma SecretReturns(w: World, q: Request, f: Field)
    requires Convertible(w, q) && WellKept(w, q.host) && (StoresKey(q.host) ==> q.choice.Mint?)
    ensures Shared(Committed(w, q), BoundHost(q), f) ==
            if CanOwn(q.host, f) then Lookup(w.keychain, HostAccount(q.host.id, f)) else None
  {
    ConvertedRecords(w, q);
    MintsIff(q);
    ConvertedAccount(w, q, VaultAccount(q.identityId, q.keyId, f));
    assert f != PasswordField && Flag(q.host.cred, f) ==> StoresKey(q.host);
  }
}
