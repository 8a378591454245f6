/**
 One whole import (`applyV3` in `backup/apply.ts`): the payload sanitized, the
 credential passes, the group merge, then seven writes in sequence, each refusal
 contained, around one keychain step that may land any part of what it is asked for.
 */
module BackupImport {
  import opened Records
  import opened HostStore
  import opened JumpChains
  import opened HostImport
  import opened Vault
  import opened VaultImport
  import opened ImportSecrets
  import GroupMerge
  import GroupImport

  // ------------------------------------------------------------------- the payload

  /** `collectRows`: unusable entries and repeated ids skipped and counted, the first
      entry of an id winning. */
  method CollectRows<R, T(==)>(raw: seq<R>, sanitize: R -> Option<T>, id: T -> Id)
    returns (rows: seq<T>, skipped: nat, ghost at: seq<nat>)
    ensures |rows| + skipped == |raw| && InOrder(rows, raw, sanitize, at, |raw|)
    ensures forall i, j | 0 <= i < j < |rows| :: id(rows[i]) != id(rows[j])
    ensures forall t | t in rows :: exists r :: r in raw && sanitize(r) == Some(t)
    ensures forall k | 0 <= k < |raw| && First(raw, sanitize, id, k) :: sanitize(raw[k]).value in rows
  {
    rows, skipped, at := [], 0, [];
    var seen: set<Id> := {};
    for n := 0 to |raw|
      invariant |rows| + skipped == n && InOrder(rows, raw, sanitize, at, n)
      invariant forall x :: x in seen <==> exists t :: t in rows && id(t) == x
      invariant forall k | 0 <= k < n && sanitize(raw[k]).Some? :: id(sanitize(raw[k]).value) in seen
      invariant forall i, j | 0 <= i < j < |rows| :: id(rows[i]) != id(rows[j])
      invariant forall t | t in rows :: exists k :: 0 <= k < n && sanitize(raw[k]) == Some(t)
      invariant FirstsIn(rows, raw, sanitize, id, n)
    {
      var row := sanitize(raw[n]);
      OneMoreInOrder(rows, raw, sanitize, at, n);
      FirstsNext(rows, raw, sanitize, id, n);
      if row.None? || id(row.value) in seen {
        skipped := skipped + 1;
      } else {
        seen := seen + {id(row.value)};
        rows, at := rows + [row.value], at + [n];
      }
    }
  }

  /** Each row is the entry of one position, and the positions only go up. */
  ghost predicate InOrder<R, T>(rows: seq<T>, raw: seq<R>, sanitize: R -> Option<T>, at: seq<nat>, n: nat)
    requires n <= |raw|
  {
    && |at| == |rows| && (forall i | 0 <= i < |at| :: at[i] < n && sanitize(raw[at[i]]) == Some(rows[i]))
    && forall i, j | 0 <= i < j < |at| :: at[i] < at[j]
  }

  lemma OneMoreInOrder<R, T>(rows: seq<T>, raw: seq<R>, sanitize: R -> Option<T>, at: seq<nat>, n: nat)
    requires n < |raw| && InOrder(rows, raw, sanitize, at, n)
    ensures InOrder(rows, raw, sanitize, at, n + 1)
    ensures sanitize(raw[n]).Some? ==> InOrder(rows + [sanitize(raw[n]).value], raw, sanitize, at + [n], n + 1)
  {
  }

  ghost predicate FirstsIn<R, T>(rows: seq<T>, raw: seq<R>, sanitize: R -> Option<T>, id: T -> Id, n: nat)
    requires n <= |raw|
  {
    forall k | 0 <= k < n && First(raw, sanitize, id, k) :: sanitize(raw[k]).value in rows
  }

  lemma FirstsNext<R, T>(rows: seq<T>, raw: seq<R>, sanitize: R -> Option<T>, id: T -> Id, n: nat)
    requires n < |raw| && FirstsIn(rows, raw, sanitize, id, n)
    ensures !First(raw, sanitize, id, n) ==> FirstsIn(rows, raw, sanitize, id, n + 1)
    ensures sanitize(raw[n]).Some? ==> FirstsIn(rows + [sanitize(raw[n]).value], raw, sanitize, id, n + 1)
  {
  }

  /** The first usable entry of its id. */
  ghost predicate First<R, T>(raw: seq<R>, sanitize: R -> Option<T>, id: T -> Id, k: nat)
    requires k < |raw|
  {
    && sanitize(raw[k]).Some?
    && forall j | 0 <= j < k && sanitize(raw[j]).Some? :: id(sanitize(raw[j]).value) != id(sanitize(raw[k]).value)
  }

  /** A decrypted payload; `None` is an entry no sanitizer can use. */
  datatype Raw = Raw(hosts: seq<Option<Host>>, groups: seq<Option<Group>>, identities: seq<Option<Identity>>,
                     keys: seq<Option<VaultKey>>, secrets: Keychain)

  datatype Payload = Payload(hosts: seq<Host>, groups: seq<Group>, identities: seq<Identity>,
                             keys: seq<VaultKey>, secrets: Keychain)

  /** The tunnel half of `rdpArm`: one that names nothing is dropped. */
  function SanitizeHost(raw: Option<Host>): (r: Option<Host>)
    ensures r.Some? <==> raw.Some?
    ensures r.Some? ==> Sanitized(r.value)
    ensures raw.Some? && Sanitized(raw.value) ==> r == raw
    ensures raw.Some? && !Sanitized(raw.value) ==> r.value.Rdp? && r.value == raw.value.(tunnel := None)
  {
    if raw.Some? && raw.value.Rdp? && raw.value.tunnel == Some("") then Some(raw.value.(tunnel := None)) else raw
  }

  ghost predicate DistinctKeys(rows: seq<VaultKey>) {
    forall i, j | 0 <= i < j < |rows| :: rows[i].id != rows[j].id
  }

  /** What sanitizing guarantees the passes. */
  ghost predicate Clean(p: Payload, key: string -> string) {
    && DistinctHosts(p.hosts) && (forall h | h in p.hosts :: Sanitized(h))
    && DistinctGroups(p.groups) && (forall g | g in p.groups :: key(g.name) != "")
    && DistinctIdentities(p.identities) && DistinctKeys(p.keys)
  }

  /** `sanitizeGroup`: a group that could not be picked is no group. */
  function SanitizeGroup(key: string -> string): (f: Option<Group> -> Option<Group>)
    ensures forall g :: f(g) == if g.Some? && key(g.value.name) == "" then None else g
  {
    (g: Option<Group>) => if g.Some? && key(g.value.name) == "" then None else g
  }

  function Usable<T(!new)>(): (f: Option<T> -> Option<T>)
    ensures forall t :: f(t) == t
  {
    (t: Option<T>) => t
  }

  /** Every row is an entry as sanitized, and the first usable entry of each id is a row. */
  ghost predicate RowsOf<R(!new), T(!new)>(rows: seq<T>, raw: seq<R>, sanitize: R -> Option<T>, id: T -> Id) {
    && (forall t | t in rows :: exists r :: r in raw && sanitize(r) == Some(t))
    && (forall k | 0 <= k < |raw| && First(raw, sanitize, id, k) :: sanitize(raw[k]).value in rows)
  }

  /** The rows of a payload are those of the raw one, collection by collection. */
  ghost predicate Sanitizes(p: Payload, raw: Raw, key: string -> string) {
    && RowsOf(p.hosts, raw.hosts, SanitizeHost, (h: Host) => h.id)
    && RowsOf(p.groups, raw.groups, SanitizeGroup(key), (g: Group) => g.id)
    && RowsOf(p.identities, raw.identities, Usable<Identity>(), (i: Identity) => i.id)
    && RowsOf(p.keys, raw.keys, Usable<VaultKey>(), (k: VaultKey) => k.id)
  }

  /** `sanitizePayload`. */
  method SanitizePayload(raw: Raw, key: string -> string) returns (p: Payload, skipped: nat)
    ensures Clean(p, key) && p.secrets == raw.secrets && Sanitizes(p, raw, key)
    ensures |p.hosts| + |p.groups| + |p.identities| + |p.keys| + skipped
         == |raw.hosts| + |raw.groups| + |raw.identities| + |raw.keys|
  {
    var hosts, a, _ := CollectRows(raw.hosts, SanitizeHost, (h: Host) => h.id);
    var groups, b, _ := CollectRows(raw.groups, SanitizeGroup(key), (g: Group) => g.id);
    var identities, c, _ := CollectRows(raw.identities, Usable<Identity>(), (i: Identity) => i.id);
    var keys, d, _ := CollectRows(raw.keys, Usable<VaultKey>(), (k: VaultKey) => k.id);
    p, skipped := Payload(hosts, groups, identities, keys, raw.secrets), a + b + c + d;
  }

  // -------------------------------------------------------------- the vault's writes

  /** One write of a key: `keyRecord` takes the four facts (here the fingerprint) from
      the record held before the import unless the file's body landed, and the store
      sets each flag that landed and carries the other from the record it replaces. */
  function KeyWrite(k: VaultKey, before: Option<VaultKey>, replaced: Option<VaultKey>, body: bool,
                    phrase: bool): (r: VaultKey)
    ensures r.id == k.id && r.name == k.name && r.plain == k.plain
    ensures before.None? || body ==> r.fingerprint == k.fingerprint
    ensures before.Some? && !body ==> r.fingerprint == before.value.fingerprint
    ensures body ==> r.hasPrivateKey
    ensures !body ==> (r.hasPrivateKey <==> replaced.Some? && replaced.value.hasPrivateKey)
    ensures phrase ==> r.hasPassphrase
    ensures !phrase ==> (r.hasPassphrase <==> replaced.Some? && replaced.value.hasPassphrase)
  {
    k.(fingerprint := if before.Some? && !body then before.value.fingerprint else k.fingerprint,
       hasPrivateKey := body || (replaced.Some? && replaced.value.hasPrivateKey),
       hasPassphrase := phrase || (replaced.Some? && replaced.value.hasPassphrase))
  }

  /** What the two writes of one key come to. */
  function RecordedKey(k: VaultKey, stored: Option<VaultKey>, body: bool, phrase: bool): VaultKey {
    KeyWrite(k, stored, stored, body, phrase)
  }

  /** The key store once `saved` is written and what `reported` names is recorded. */
  function KeysAfter(stored: map<Id, VaultKey>, saved: map<Id, VaultKey>, reported: set<Account>): map<Id, VaultKey> {
    stored + map x | x in saved ::
      RecordedKey(saved[x], Lookup(stored, x), Account(VaultService, x, PrivateKeyField) in reported,
                  Account(VaultService, x, PassphraseField) in reported)
  }

  /** One write of an identity over the record it replaces. */
  function RecordedIdentity(i: Identity, stored: Option<Identity>, landed: bool): (r: Identity)
    ensures r == i.(hasPassword := r.hasPassword)
    ensures landed ==> r.hasPassword
    ensures !landed ==> (r.hasPassword <==> stored.Some? && stored.value.hasPassword)
  {
    i.(hasPassword := landed || (stored.Some? && stored.value.hasPassword))
  }

  function IdentitiesAfter(stored: map<Id, Identity>, saved: map<Id, Identity>,
                           reported: set<Account>): map<Id, Identity> {
    stored + map x | x in saved ::
      RecordedIdentity(saved[x], Lookup(stored, x), Account(VaultService, x, PasswordField) in reported)
  }

  /** What a write loop saved of the rows so far: those whose write did not fail. */
  ghost predicate KeysSaved(rows: seq<VaultKey>, saved: map<Id, VaultKey>, fails: set<Id>) {
    && (forall x | x in saved :: saved[x].id == x && saved[x] in rows)
    && (forall k | k in rows :: k.id in saved <==> k.id !in fails)
  }

  lemma KeysSavedNext(rows: seq<VaultKey>, saved: map<Id, VaultKey>, fails: set<Id>, n: nat)
    requires DistinctKeys(rows) && n < |rows| && KeysSaved(rows[..n], saved, fails)
    ensures rows[n].id !in saved
    ensures KeysSaved(rows[..n + 1], if rows[n].id in fails then saved else saved[rows[n].id := rows[n]], fails)
  {
    var k := rows[n];
    assert rows[..n + 1] == rows[..n] + [k];
  }

  lemma PutKey(stored: map<Id, VaultKey>, saved: map<Id, VaultKey>, k: VaultKey)
    requires k.id !in saved
    ensures KeysAfter(stored, saved[k.id := k], {})
         == KeysAfter(stored, saved, {})[k.id := RecordedKey(k, Lookup(stored, k.id), false, false)]
    ensures Lookup(KeysAfter(stored, saved, {}), k.id) == Lookup(stored, k.id)
  {
    var a := KeysAfter(stored, saved[k.id := k], {});
    var b := KeysAfter(stored, saved, {})[k.id := RecordedKey(k, Lookup(stored, k.id), false, false)];
    forall x ensures Lookup(a, x) == Lookup(b, x) {
      assert x in a <==> x in b;
    }
    SameMap(a, b);
  }

  /** WRITE 1: a key write that fails is contained, and its key takes no further part. */
  method WriteKeys(rows: seq<VaultKey>, stored: map<Id, VaultKey>, fails: set<Id>)
    returns (keys: map<Id, VaultKey>, saved: map<Id, VaultKey>)
    requires DistinctKeys(rows)
    ensures keys == KeysAfter(stored, saved, {}) && KeysSaved(rows, saved, fails)
  {
    keys, saved := stored, map[];
    for n := 0 to |rows|
      invariant keys == KeysAfter(stored, saved, {}) && KeysSaved(rows[..n], saved, fails)
    {
      var k := rows[n];
      KeysSavedNext(rows, saved, fails, n);
      if k.id !in fails {
        PutKey(stored, saved, k);
        keys := keys[k.id := KeyWrite(k, Lookup(stored, k.id), Lookup(keys, k.id), false, false)];
        saved := saved[k.id := k];
      }
    }
    assert rows[..|rows|] == rows;
  }

  /** An identity is saved when its write does not fail and the vault takes it. */
  ghost predicate IdentitiesSaved(rows: seq<Identity>, saved: map<Id, Identity>, keys: set<Id>, fails: set<Id>) {
    && (forall x | x in saved :: saved[x].id == x && saved[x] in rows && KeyRefOk(saved[x], keys))
    && (forall i | i in rows :: i.id in saved <==> i.id !in fails && KeyRefOk(i, keys))
  }

  lemma IdentitiesSavedNext(rows: seq<Identity>, saved: map<Id, Identity>, keys: set<Id>, fails: set<Id>, n: nat)
    requires DistinctIdentities(rows) && n < |rows| && IdentitiesSaved(rows[..n], saved, keys, fails)
    ensures rows[n].id !in saved
    ensures IdentitiesSaved(rows[..n + 1],
                            if rows[n].id in fails || !KeyRefOk(rows[n], keys) then saved
                            else saved[rows[n].id := rows[n]],
                            keys, fails)
  {
    var r := rows[n];
    assert rows[..n + 1] == rows[..n] + [r];
  }

  lemma PutIdentity(stored: map<Id, Identity>, saved: map<Id, Identity>, i: Identity)
    requires i.id !in saved
    ensures IdentitiesAfter(stored, saved[i.id := i], {})
         == IdentitiesAfter(stored, saved, {})[i.id := RecordedIdentity(i, Lookup(stored, i.id), false)]
    ensures Lookup(IdentitiesAfter(stored, saved, {}), i.id) == Lookup(stored, i.id)
  {
    var a := IdentitiesAfter(stored, saved[i.id := i], {});
    var b := IdentitiesAfter(stored, saved, {})[i.id := RecordedIdentity(i, Lookup(stored, i.id), false)];
    forall x ensures Lookup(a, x) == Lookup(b, x) {
      assert x in a <==> x in b;
    }
    SameMap(a, b);
  }

  /** WRITE 2: the identities, after the keys they name; refused by the vault when the
      key is not stored, or failing for a reason of its own. */
  method WriteIdentities(rows: seq<Identity>, stored: map<Id, Identity>, keys: set<Id>, fails: set<Id>)
    returns (identities: map<Id, Identity>, saved: map<Id, Identity>)
    requires DistinctIdentities(rows)
    ensures identities == IdentitiesAfter(stored, saved, {}) && IdentitiesSaved(rows, saved, keys, fails)
  {
    identities, saved := stored, map[];
    for n := 0 to |rows|
      invariant identities == IdentitiesAfter(stored, saved, {}) && IdentitiesSaved(rows[..n], saved, keys, fails)
    {
      var i := rows[n];
      IdentitiesSavedNext(rows, saved, keys, fails, n);
      if i.id !in fails && KeyRefOk(i, keys) {
        PutIdentity(stored, saved, i);
        identities := identities[i.id := RecordedIdentity(i, Lookup(identities, i.id), false)];
        saved := saved[i.id := i];
      }
    }
    assert rows[..|rows|] == rows;
  }

  /** Every identity names a key that is there, and has one if it authenticates by key. */
  ghost predicate VaultClosed(identities: map<Id, Identity>, keys: map<Id, VaultKey>) {
    forall x | x in identities :: KeyRefOk(identities[x], keys.Keys)
  }

  /** Whichever writes failed, every identity this import stored names a stored key, and
      a vault that was closed before is closed after. */
  lemma VaultStaysClosed(identities: map<Id, Identity>, keys: map<Id, VaultKey>, savedKeys: map<Id, VaultKey>,
                         saved: map<Id, Identity>, reported: set<Account>)
    requires forall x | x in saved :: KeyRefOk(saved[x], keys.Keys + savedKeys.Keys)
    ensures var after, names := IdentitiesAfter(identities, saved, reported), KeysAfter(keys, savedKeys, reported);
            && (forall x | x in saved :: x in after && KeyRefOk(after[x], names.Keys))
            && (VaultClosed(identities, keys) ==> VaultClosed(after, names))
  {
    var after, names := IdentitiesAfter(identities, saved, reported), KeysAfter(keys, savedKeys, reported);
    assert names.Keys == keys.Keys + savedKeys.Keys;
    forall x | x in after ensures x in saved || VaultClosed(identities, keys) ==> KeyRefOk(after[x], names.Keys) {
      if x !in saved {
        assert x in identities && after[x] == identities[x];
      }
    }
  }

  // --------------------------------------------------------------- the keychain step

  /** A credential is asked for by the account it belongs at. A host's field, an
      identity's password and a key's two halves are three payload groups. */
  function SecretRefOf(a: Account): SecretRef {
    if a.service == HostService then SecretRef(HOST_GROUP, a.id, FieldName(a.field))
    else if a.field == PasswordField then SecretRef("identitySecrets", a.id, "password")
    else SecretRef("keySecrets", a.id, if a.field == PrivateKeyField then "privateKey" else "passphrase")
  }

  lemma SecretRefIsPlain(a: Account)
    ensures NoColon(SecretRefOf(a).group) && NoColon(SecretRefOf(a).field)
  {
    NamesAreDistinct(a.field, a.field);
  }

  lemma SecretRefIsInjective(a: Account, b: Account)
    requires SecretRefOf(a) == SecretRefOf(b)
    ensures a == b
  {
    assert |HOST_GROUP| == 11 && |"identitySecrets"| == 15 && |"keySecrets"| == 10;
    assert |"privateKey"| == |"passphrase"| && "privateKey"[1] != "passphrase"[1];
    NamesAreDistinct(a.field, b.field);
  }

  /** `keyRefs`, for the keys that were saved. */
  function KeyRefs(rows: seq<VaultKey>, saved: set<Id>): (r: seq<Account>)
    ensures forall a :: a in r <==> a.service == VaultService && a.field != PasswordField
                                    && a.id in saved && exists k :: k in rows && k.id == a.id
  {
    if rows == [] then []
    else
      var rest := KeyRefs(rows[1..], saved);
      var id := rows[0].id;
      assert rows == [rows[0]] + rows[1..];
      if id in saved
      then [Account(VaultService, id, PrivateKeyField), Account(VaultService, id, PassphraseField)] + rest
      else rest
  }

  /** `identityRefs`, for the identities that were saved. */
  function IdentityRefs(rows: seq<Identity>, saved: set<Id>): (r: seq<Account>)
    ensures forall a :: a in r <==> a.service == VaultService && a.field == PasswordField
                                    && a.id in saved && exists i :: i in rows && i.id == a.id
  {
    if rows == [] then []
    else
      var rest := IdentityRefs(rows[1..], saved);
      assert rows == [rows[0]] + rows[1..];
      if rows[0].id in saved then [Account(VaultService, rows[0].id, PasswordField)] + rest else rest
  }

  /** One host's `hostRefs`. */
  function HostFields(h: Host): (r: seq<Account>)
    ensures forall a :: a in r <==> a.service == HostService && a.id == h.id && a.field in SecretFields(h)
  {
    if h.cred.Bound? then []
    else if h.Ssh?
    then [HostAccount(h.id, PasswordField), HostAccount(h.id, PrivateKeyField), HostAccount(h.id, PassphraseField)]
    else [HostAccount(h.id, PasswordField)]
  }

  /** `hostRefs`, for the rows that did not arrive vault-bound. */
  function HostRefs(rows: seq<Host>, bound: set<Id>): (r: seq<Account>)
    ensures forall a :: a in r <==> a.service == HostService && a.id !in bound
                                    && exists h :: h in rows && h.id == a.id && a.field in SecretFields(h)
  {
    if rows == [] then []
    else
      var rest := HostRefs(rows[1..], bound);
      assert rows == [rows[0]] + rows[1..];
      if rows[0].id in bound then rest else HostFields(rows[0]) + rest
  }

  function RefNames(refs: seq<Account>): (r: seq<SecretRef>)
    ensures |r| == |refs| && forall i | 0 <= i < |refs| :: r[i] == SecretRefOf(refs[i])
  {
    if refs == [] then [] else [SecretRefOf(refs[0])] + RefNames(refs[1..])
  }

  function Answer(refs: seq<Account>, reports: set<Account>): (r: seq<bool>)
    ensures |r| == |refs| && forall i | 0 <= i < |refs| :: r[i] == (refs[i] in reports)
  {
    if refs == [] then [] else [refs[0] in reports] + Answer(refs[1..], reports)
  }

  /** What the process that owns the keychain does: the writes it makes, and the answer
      it gives about them, nothing at all when the call throws. */
  datatype Backend = Backend(keyFails: set<Id>, identityFails: set<Id>,
                             lands: set<Account>, reports: set<Account>, throws: bool,
                             keyFlagFails: set<Id>, identityFlagFails: set<Id>)

  function Reported(refs: seq<Account>, b: Backend): set<Account> {
    if b.throws then {} else set a | a in refs && a in b.reports
  }

  lemma LandedIff(refs: seq<Account>, b: Backend, a: Account)
    ensures Landed(RefNames(refs), if b.throws then [] else Answer(refs, b.reports), SecretRefOf(a))
            <==> a in Reported(refs, b)
  {
    var written := if b.throws then [] else Answer(refs, b.reports);
    if a in Reported(refs, b) {
      var i :| 0 <= i < |refs| && refs[i] == a;
      assert RefNames(refs)[i] == SecretRefOf(a) && written[i];
    }
    if Landed(RefNames(refs), written, SecretRefOf(a)) {
      var i :| 0 <= i < |refs| && i < |written| && RefNames(refs)[i] == SecretRefOf(a) && written[i];
      SecretRefIsInjective(refs[i], a);
    }
  }

  /** The fields of a row that were reported landed. */
  function ReportedFields(h: Host, reported: set<Account>): set<Field> {
    set f | f in SecretFields(h) && HostAccount(h.id, f) in reported
  }

  /** The `landed` set answers for a reference exactly when it was reported. */
  ghost predicate LandedFor(landed: set<string>, reported: set<Account>) {
    forall a :: LandedKey(SecretRefOf(a).group, a.id, SecretRefOf(a).field) in landed <==> a in reported
  }

  method KeychainStep(keychain: Keychain, refs: seq<Account>, secrets: Keychain, b: Backend)
    returns (after: Keychain, landed: set<string>)
    requires b.lands <= secrets.Keys
    ensures after == keychain + map a | a in refs && a in b.lands :: secrets[a]
    ensures LandedFor(landed, Reported(refs, b))
  {
    after := keychain + map a | a in refs && a in b.lands :: secrets[a];
    var names := RefNames(refs);
    NamesArePlain(refs);
    landed := LandedSet(names, if b.throws then [] else Answer(refs, b.reports));
    AnswerIsKept(refs, b, landed);
  }

  lemma AnswerIsKept(refs: seq<Account>, b: Backend, landed: set<string>)
    requires forall r: SecretRef | NoColon(r.group) && NoColon(r.field) ::
               LandedKey(r.group, r.id, r.field) in landed
               <==> Landed(RefNames(refs), if b.throws then [] else Answer(refs, b.reports), r)
    ensures LandedFor(landed, Reported(refs, b))
  {
    forall a ensures LandedKey(SecretRefOf(a).group, a.id, SecretRefOf(a).field) in landed <==> a in Reported(refs, b) {
      SecretRefIsPlain(a);
      assert SecretRefOf(a).id == a.id;
      LandedIff(refs, b, a);
    }
  }

  lemma NamesArePlain(refs: seq<Account>)
    ensures Plain(RefNames(refs))
  {
    forall i | 0 <= i < |refs| ensures NoColon(RefNames(refs)[i].group) && NoColon(RefNames(refs)[i].field) {
      SecretRefIsPlain(refs[i]);
    }
  }

  lemma StoredFieldsAre(h: Host, landed: set<string>, reported: set<Account>)
    requires LandedFor(landed, reported)
    ensures StoredFields(h, landed) == ReportedFields(h, reported)
  {
    forall f ensures LandedKey(HOST_GROUP, h.id, FieldName(f)) in landed <==> HostAccount(h.id, f) in reported {
      assert SecretRefOf(HostAccount(h.id, f)) == SecretRef(HOST_GROUP, h.id, FieldName(f));
    }
  }

  // ------------------------------------------------------------------- the flag pass

  /** Writing a row again only adds what is newly claimed. */
  lemma WrittenAgain(h: Host, stored: Option<Host>, already: set<Field>)
    ensures NextRecord(h, Some(NextRecord(h, stored, {})), already) == NextRecord(h, stored, already)
  {
  }

  lemma FlagNext(d: Disk, existing: Disk, order: seq<Host>, claims: map<Id, set<Field>>, i: nat, already: set<Field>)
    requires DistinctHosts(order) && i < |order| && order[i].id !in claims
    requires WrittenSoFar(d, existing, order, claims)
    ensures WrittenSoFar(d[order[i].id := NextRecord(order[i], Lookup(d, order[i].id), already)], existing, order,
                         claims[order[i].id := already])
    ensures WrittenSoFar(d, existing, order, claims[order[i].id := {}])
  {
    var h := order[i];
    assert h in order;
    WrittenAgain(h, Lookup(existing, h.id), already);
    forall g | g in order && g != h ensures g.id != h.id {
      var j :| 0 <= j < |order| && order[j] == g;
    }
  }

  /** The pass after `n` rows. */
  ghost predicate Flagged(d: Disk, existing: Disk, order: seq<Host>, claims: map<Id, set<Field>>, n: nat,
                          reported: set<Account>)
    requires n <= |order|
  {
    WrittenSoFar(d, existing, order, claims) && Claimed(order, claims, n, reported)
  }

  ghost predicate Claimed(order: seq<Host>, claims: map<Id, set<Field>>, n: nat, reported: set<Account>)
    requires n <= |order|
  {
    && claims.Keys == HostIds(order[..n])
    && forall j | 0 <= j < n :: ClaimOf(claims, order[j].id) == ReportedFields(order[j], reported)
  }

  lemma ClaimedNext(order: seq<Host>, claims: map<Id, set<Field>>, n: nat, reported: set<Account>)
    requires DistinctHosts(order) && n < |order| && Claimed(order, claims, n, reported)
    ensures order[n].id !in claims
    ensures Claimed(order, claims[order[n].id := ReportedFields(order[n], reported)], n + 1, reported)
  {
    assert order[..n + 1] == order[..n] + [order[n]];
    assert HostIds(order[..n + 1]) == HostIds(order[..n]) + {order[n].id};
  }

  lemma FlaggedNext(d: Disk, existing: Disk, order: seq<Host>, claims: map<Id, set<Field>>, n: nat,
                    reported: set<Account>)
    requires DistinctHosts(order) && n < |order| && Flagged(d, existing, order, claims, n, reported)
    ensures var h := order[n];
            var already := ReportedFields(h, reported);
            var next := if already == {} then d else d[h.id := NextRecord(h, Lookup(d, h.id), already)];
            Flagged(next, existing, order, claims[h.id := already], n + 1, reported)
  {
    ClaimedNext(order, claims, n, reported);
    FlagNext(d, existing, order, claims, n, ReportedFields(order[n], reported));
  }

  lemma FlaggedAs(d: Disk, existing: Disk, order: seq<Host>, claims: map<Id, set<Field>>, reported: set<Account>,
                  h: Host)
    requires Flagged(d, existing, order, claims, |order|, reported) && h in order
    ensures h.id in d && d[h.id] == NextRecord(h, Lookup(existing, h.id), ReportedFields(h, reported))
  {
    var j :| 0 <= j < |order| && order[j] == h;
    assert ClaimOf(claims, order[j].id) == ReportedFields(order[j], reported);
  }

  /** A row written again over its own record leaves nothing stale. */
  lemma AgainReleasesNothing(h: Host, stored: Option<Host>, already: set<Field>)
    ensures HostAccounts(h.id, StaleFields(h, Some(NextRecord(h, stored, already)))) == {}
  {
  }

  /** When a row's flag write comes, the store takes it and releases nothing. */
  lemma FlagTurn(pending: Disk, byId: Disk, existing: Disk, order: seq<Host>, i: nat, d: Disk, kc: Keychain,
                 claims: map<Id, set<Field>>, cap: nat, reported: set<Account>)
    requires GoodOrder(order, pending, byId, existing, cap) && i < |order|
    requires Flagged(d, existing, order, claims, i, reported)
    ensures var h := order[i];
            var already := ReportedFields(h, reported);
            var next := if already == {} then d else d[h.id := NextRecord(h, Lookup(d, h.id), already)];
            && Acceptable(h, d, cap) && kc - HostAccounts(h.id, StaleFields(h, Lookup(d, h.id))) == kc
            && Flagged(next, existing, order, claims[h.id := already], i + 1, reported)
  {
    var h := order[i];
    assert h in order;
    FinalChain(pending, byId, existing, order, h, d, claims, cap);
    FlaggedNext(d, existing, order, claims, i, reported);
    AgainReleasesNothing(h, Lookup(existing, h.id), ClaimOf(claims, h.id));
  }

  /** WRITE 7 over the hosts: never refused, each row claims what was claimed here before
      and what landed, and no account is released. */
  method FlagHosts(order: seq<Host>, existing: Disk, stored: Disk, keychain: Keychain, landed: set<string>, cap: nat,
                   ghost pending: Disk, ghost byId: Disk, ghost reported: set<Account>)
    returns (d: Disk, kc: Keychain, refused: seq<Host>, ghost claims: map<Id, set<Field>>)
    requires GoodOrder(order, pending, byId, existing, cap) && WrittenSoFar(stored, existing, order, map[])
    requires LandedFor(landed, reported)
    ensures refused == [] && Flagged(d, existing, order, claims, |order|, reported)
    ensures forall h | h in order ::
              h.id in d && WrittenAs(d[h.id], h, Lookup(existing, h.id), ReportedFields(h, reported))
    ensures kc == keychain
  {
    d, kc, refused, claims := stored, keychain, [], map[];
    for i := 0 to |order|
      invariant refused == [] && kc == keychain && Flagged(d, existing, order, claims, i, reported)
    {
      var h := order[i];
      StoredFieldsAre(h, landed, reported);
      FlagTurn(pending, byId, existing, order, i, d, kc, claims, cap, reported);
      var already := StoredFields(h, landed);
      if already != {} {
        var refusal;
        d, kc, refusal := UpsertHost(h, already, d, kc, cap);
        refused := if refusal.Some? then refused + [h] else refused;
      }
      claims := claims[h.id := already];
    }
    forall h | h in order
      ensures h.id in d && WrittenAs(d[h.id], h, Lookup(existing, h.id), ReportedFields(h, reported))
    {
      FlaggedAs(d, existing, order, claims, reported, h);
    }
  }

  /** What a flag pass has recorded of what was reported, given the ids it has reached
      and the ids whose flag write failed. */
  function RecordedOf(reported: set<Account>, ids: set<Id>, fails: set<Id>): set<Account> {
    set a | a in reported && a.id in ids && a.id !in fails
  }

  function KeyIds(rows: seq<VaultKey>): set<Id> {
    set k | k in rows :: k.id
  }

  function IdentityIds(rows: seq<Identity>): set<Id> {
    set i | i in rows :: i.id
  }

  function BodyOf(x: Id): Account {
    Account(VaultService, x, PrivateKeyField)
  }

  function PhraseOf(x: Id): Account {
    Account(VaultService, x, PassphraseField)
  }

  /** Only a saved key's own two accounts matter to its record. */
  lemma KeysAfterAgree(stored: map<Id, VaultKey>, saved: map<Id, VaultKey>, a: set<Account>, b: set<Account>)
    requires forall x | x in saved :: (BodyOf(x) in a <==> BodyOf(x) in b) && (PhraseOf(x) in a <==> PhraseOf(x) in b)
    ensures KeysAfter(stored, saved, a) == KeysAfter(stored, saved, b)
  {
    forall x ensures Lookup(KeysAfter(stored, saved, a), x) == Lookup(KeysAfter(stored, saved, b), x) {
      assert x in saved ==> BodyOf(x) == Account(VaultService, x, PrivateKeyField);
    }
    SameMap(KeysAfter(stored, saved, a), KeysAfter(stored, saved, b));
  }

  /** The second write of one key, over the record the first left. */
  lemma FlagKeyNext(stored: map<Id, VaultKey>, saved: map<Id, VaultKey>, a: set<Account>, b: set<Account>, k: VaultKey)
    requires k.id in saved && saved[k.id] == k && BodyOf(k.id) !in a && PhraseOf(k.id) !in a
    requires forall x | x in saved && x != k.id ::
               (BodyOf(x) in a <==> BodyOf(x) in b) && (PhraseOf(x) in a <==> PhraseOf(x) in b)
    ensures var before := KeysAfter(stored, saved, a);
            KeysAfter(stored, saved, b) ==
            before[k.id := KeyWrite(k, Lookup(stored, k.id), Lookup(before, k.id),
                                    BodyOf(k.id) in b, PhraseOf(k.id) in b)]
  {
    var before, after := KeysAfter(stored, saved, a), KeysAfter(stored, saved, b);
    FlagsReplaced(stored, saved, a, b, k);
    forall x | x != k.id ensures Lookup(after, x) == Lookup(before, x) {
      OtherKeyStays(stored, saved, a, b, x);
    }
    OneKeyDiffers(before, after, k.id);
  }

  /** A record written twice is as if the second write had replaced what was there first. */
  lemma FlagsReplaced(stored: map<Id, VaultKey>, saved: map<Id, VaultKey>, a: set<Account>, b: set<Account>,
                      k: VaultKey)
    requires k.id in saved && saved[k.id] == k && BodyOf(k.id) !in a && PhraseOf(k.id) !in a
    ensures Lookup(KeysAfter(stored, saved, b), k.id)
         == Some(KeyWrite(k, Lookup(stored, k.id), Lookup(KeysAfter(stored, saved, a), k.id),
                          BodyOf(k.id) in b, PhraseOf(k.id) in b))
  {
    assert Lookup(KeysAfter(stored, saved, a), k.id) == Some(RecordedKey(k, Lookup(stored, k.id), false, false));
  }

  lemma OneKeyDiffers(before: map<Id, VaultKey>, after: map<Id, VaultKey>, id: Id)
    requires id in after && forall x | x != id :: Lookup(after, x) == Lookup(before, x)
    ensures after == before[id := after[id]]
  {
    SameMap(after, before[id := after[id]]);
  }

  lemma OtherKeyStays(stored: map<Id, VaultKey>, saved: map<Id, VaultKey>, a: set<Account>, b: set<Account>, x: Id)
    requires x in saved ==> (BodyOf(x) in a <==> BodyOf(x) in b) && (PhraseOf(x) in a <==> PhraseOf(x) in b)
    ensures Lookup(KeysAfter(stored, saved, b), x) == Lookup(KeysAfter(stored, saved, a), x)
  {
  }

  /** The keys still to flag are those after the first `n`. */
  lemma RecordedKeysNext(rows: seq<VaultKey>, reported: set<Account>, fails: set<Id>, n: nat)
    requires DistinctKeys(rows) && n < |rows|
    ensures var a := RecordedOf(reported, KeyIds(rows[..n]), fails);
            var b := RecordedOf(reported, KeyIds(rows[..n + 1]), fails);
            && (forall x: Account | x.id == rows[n].id :: x !in a && (x in b <==> x in reported && x.id !in fails))
            && (forall x: Account | x.id != rows[n].id :: x in a <==> x in b)
  {
    assert rows[..n + 1] == rows[..n] + [rows[n]];
    assert KeyIds(rows[..n + 1]) == KeyIds(rows[..n]) + {rows[n].id};
    assert rows[n].id !in KeyIds(rows[..n]);
  }

  lemma SavedIsRow(rows: seq<VaultKey>, saved: map<Id, VaultKey>, fails: set<Id>, n: nat)
    requires DistinctKeys(rows) && n < |rows| && KeysSaved(rows, saved, fails) && rows[n].id in saved
    ensures saved[rows[n].id] == rows[n]
  {
    assert rows[n] in rows;
  }

  /** WRITE 7 over the keys: each saved key whose body or passphrase landed is written
      again; a failure is contained, and leaves the record of the first pass. */
  method FlagKeys(rows: seq<VaultKey>, stored: map<Id, VaultKey>, saved: map<Id, VaultKey>, landed: set<string>,
                  fails: set<Id>, ghost wrote: set<Id>, ghost reported: set<Account>)
    returns (keys: map<Id, VaultKey>)
    requires DistinctKeys(rows) && KeysSaved(rows, saved, wrote) && LandedFor(landed, reported)
    ensures keys == KeysAfter(stored, saved, RecordedOf(reported, KeyIds(rows), fails))
  {
    keys := KeysAfter(stored, saved, {});
    assert KeyIds(rows[..0]) == {} && RecordedOf(reported, {}, fails) == {};
    for n := 0 to |rows|
      invariant keys == KeysAfter(stored, saved, RecordedOf(reported, KeyIds(rows[..n]), fails))
    {
      var k := rows[n];
      var body := LandedKey("keySecrets", k.id, "privateKey") in landed;
      var phrase := LandedKey("keySecrets", k.id, "passphrase") in landed;
      FlagKeyStep(rows, stored, saved, wrote, reported, fails, n);
      KeyLanded(landed, reported, k.id);
      if k.id in saved && (body || phrase) && k.id !in fails {
        keys := keys[k.id := KeyWrite(k, Lookup(stored, k.id), Lookup(keys, k.id), body, phrase)];
      }
    }
    assert rows[..|rows|] == rows;
  }

  lemma KeyLanded(landed: set<string>, reported: set<Account>, x: Id)
    requires LandedFor(landed, reported)
    ensures LandedKey("keySecrets", x, "privateKey") in landed <==> BodyOf(x) in reported
    ensures LandedKey("keySecrets", x, "passphrase") in landed <==> PhraseOf(x) in reported
  {
    assert SecretRefOf(BodyOf(x)) == SecretRef("keySecrets", x, "privateKey");
    assert SecretRefOf(PhraseOf(x)) == SecretRef("keySecrets", x, "passphrase");
  }

  lemma FlagKeyStep(rows: seq<VaultKey>, stored: map<Id, VaultKey>, saved: map<Id, VaultKey>, wrote: set<Id>,
                    reported: set<Account>, fails: set<Id>, n: nat)
    requires DistinctKeys(rows) && n < |rows| && KeysSaved(rows, saved, wrote)
    ensures var k := rows[n];
            var before := KeysAfter(stored, saved, RecordedOf(reported, KeyIds(rows[..n]), fails));
            var body, phrase := BodyOf(k.id) in reported, PhraseOf(k.id) in reported;
            KeysAfter(stored, saved, RecordedOf(reported, KeyIds(rows[..n + 1]), fails)) ==
            if k.id in saved && (body || phrase) && k.id !in fails
            then before[k.id := KeyWrite(k, Lookup(stored, k.id), Lookup(before, k.id), body, phrase)]
            else before
  {
    var k := rows[n];
    var a, b := RecordedOf(reported, KeyIds(rows[..n]), fails), RecordedOf(reported, KeyIds(rows[..n + 1]), fails);
    RecordedKeysNext(rows, reported, fails, n);
    assert BodyOf(k.id) !in a && PhraseOf(k.id) !in a;
    if k.id in saved && (BodyOf(k.id) in reported || PhraseOf(k.id) in reported) && k.id !in fails {
      SavedIsRow(rows, saved, wrote, n);
      FlagKeyNext(stored, saved, a, b, k);
    } else {
      KeysAfterAgree(stored, saved, a, b);
    }
  }

  function PasswordOf(x: Id): Account {
    Account(VaultService, x, PasswordField)
  }

  lemma IdentitiesAfterAgree(stored: map<Id, Identity>, saved: map<Id, Identity>, a: set<Account>, b: set<Account>)
    requires forall x | x in saved :: PasswordOf(x) in a <==> PasswordOf(x) in b
    ensures IdentitiesAfter(stored, saved, a) == IdentitiesAfter(stored, saved, b)
  {
    forall x ensures Lookup(IdentitiesAfter(stored, saved, a), x) == Lookup(IdentitiesAfter(stored, saved, b), x) {
      assert x in saved ==> PasswordOf(x) == Account(VaultService, x, PasswordField);
    }
    SameMap(IdentitiesAfter(stored, saved, a), IdentitiesAfter(stored, saved, b));
  }

  /** The second write of one identity, over the record the first left. */
  lemma FlagIdentityNext(stored: map<Id, Identity>, saved: map<Id, Identity>, a: set<Account>, b: set<Account>,
                         i: Identity)
    requires i.id in saved && saved[i.id] == i && PasswordOf(i.id) !in a && PasswordOf(i.id) in b
    requires forall x | x in saved && x != i.id :: PasswordOf(x) in a <==> PasswordOf(x) in b
    ensures var before := IdentitiesAfter(stored, saved, a);
            IdentitiesAfter(stored, saved, b) == before[i.id := RecordedIdentity(i, Lookup(before, i.id), true)]
  {
    var before, after := IdentitiesAfter(stored, saved, a), IdentitiesAfter(stored, saved, b);
    var next := before[i.id := RecordedIdentity(i, Lookup(before, i.id), true)];
    forall x ensures Lookup(after, x) == Lookup(next, x) {
      assert x in saved ==> PasswordOf(x) == Account(VaultService, x, PasswordField);
    }
    SameMap(after, next);
  }

  lemma RecordedIdentitiesNext(rows: seq<Identity>, reported: set<Account>, fails: set<Id>, n: nat)
    requires DistinctIdentities(rows) && n < |rows|
    ensures var a := RecordedOf(reported, IdentityIds(rows[..n]), fails);
            var b := RecordedOf(reported, IdentityIds(rows[..n + 1]), fails);
            && (forall x: Account | x.id == rows[n].id :: x !in a && (x in b <==> x in reported && x.id !in fails))
            && (forall x: Account | x.id != rows[n].id :: x in a <==> x in b)
  {
    assert rows[..n + 1] == rows[..n] + [rows[n]];
    assert IdentityIds(rows[..n + 1]) == IdentityIds(rows[..n]) + {rows[n].id};
    assert rows[n].id !in IdentityIds(rows[..n]);
  }

  lemma FlagIdentityStep(rows: seq<Identity>, stored: map<Id, Identity>, saved: map<Id, Identity>, keys: set<Id>,
                         wrote: set<Id>,
                         reported: set<Account>, fails: set<Id>, n: nat)
    requires DistinctIdentities(rows) && n < |rows| && IdentitiesSaved(rows, saved, keys, wrote)
    ensures var i := rows[n];
            var before := IdentitiesAfter(stored, saved, RecordedOf(reported, IdentityIds(rows[..n]), fails));
            IdentitiesAfter(stored, saved, RecordedOf(reported, IdentityIds(rows[..n + 1]), fails)) ==
            if i.id in saved && PasswordOf(i.id) in reported && i.id !in fails
            then before[i.id := RecordedIdentity(i, Lookup(before, i.id), true)]
            else before
    ensures rows[n].id in saved ==> KeyRefOk(rows[n], keys)
  {
    var i := rows[n];
    var a := RecordedOf(reported, IdentityIds(rows[..n]), fails);
    var b := RecordedOf(reported, IdentityIds(rows[..n + 1]), fails);
    RecordedIdentitiesNext(rows, reported, fails, n);
    assert PasswordOf(i.id) !in a && i in rows;
    if i.id in saved && PasswordOf(i.id) in reported && i.id !in fails {
      FlagIdentityNext(stored, saved, a, b, i);
    } else {
      IdentitiesAfterAgree(stored, saved, a, b);
    }
  }

  lemma PasswordLanded(landed: set<string>, reported: set<Account>, x: Id)
    requires LandedFor(landed, reported)
    ensures LandedKey("identitySecrets", x, "password") in landed <==> PasswordOf(x) in reported
  {
    assert SecretRefOf(PasswordOf(x)) == SecretRef("identitySecrets", x, "password");
  }

  /** WRITE 7 over the identities: those whose password landed are written again, and the
      vault refuses none of them. */
  method FlagIdentities(rows: seq<Identity>, stored: map<Id, Identity>, saved: map<Id, Identity>, keys: set<Id>,
                        landed: set<string>, fails: set<Id>, ghost wrote: set<Id>, ghost reported: set<Account>)
    returns (identities: map<Id, Identity>, refused: seq<Identity>)
    requires DistinctIdentities(rows) && IdentitiesSaved(rows, saved, keys, wrote) && LandedFor(landed, reported)
    ensures refused == []
    ensures identities == IdentitiesAfter(stored, saved, RecordedOf(reported, IdentityIds(rows), fails))
  {
    identities, refused := IdentitiesAfter(stored, saved, {}), [];
    assert IdentityIds(rows[..0]) == {} && RecordedOf(reported, {}, fails) == {};
    for n := 0 to |rows|
      invariant refused == []
      invariant identities == IdentitiesAfter(stored, saved, RecordedOf(reported, IdentityIds(rows[..n]), fails))
    {
      var i := rows[n];
      FlagIdentityStep(rows, stored, saved, keys, wrote, reported, fails, n);
      PasswordLanded(landed, reported, i.id);
      if i.id in saved && LandedKey("identitySecrets", i.id, "password") in landed && i.id !in fails {
        if KeyRefOk(i, keys) {
          identities := identities[i.id := RecordedIdentity(i, Lookup(identities, i.id), true)];
        } else {
          refused := refused + [i];
        }
      }
    }
    assert rows[..|rows|] == rows;
  }

  // ------------------------------------------------------------- what a key record says

  /** The key store and the keychain after `n` of the three passes over the keys: the
      record pass, the keychain step, the flag pass. */
  function KeysAt(keys: map<Id, VaultKey>, saved: map<Id, VaultKey>, recorded: set<Account>,
                  n: nat): map<Id, VaultKey> {
    if n == 0 then keys else KeysAfter(keys, saved, if n < 3 then {} else recorded)
  }

  function KeychainAt(kc: Keychain, landed: Keychain, n: nat): Keychain {
    if n < 2 then kc else kc + landed
  }

  /** A record that claims a body describes the one there is. */
  ghost predicate KeyHonest(keys: map<Id, VaultKey>, kc: Keychain, x: Id, factsOf: string -> string) {
    x in keys && keys[x].hasPrivateKey && BodyOf(x) in kc ==> factsOf(kc[BodyOf(x)]) == keys[x].fingerprint
  }

  /** What landed at a key's account is the file's body of a key this import saved, and
      what is recorded has landed. */
  ghost predicate LandedBodies(saved: map<Id, VaultKey>, landed: Keychain, recorded: set<Account>, x: Id) {
    (BodyOf(x) in landed ==> x in saved) && (BodyOf(x) in recorded ==> BodyOf(x) in landed)
  }

  /** A claim never comes from the file: it was made before, or the body landed. */
  lemma ClaimIsEarned(keys: map<Id, VaultKey>, saved: map<Id, VaultKey>, kc: Keychain, landed: Keychain,
                      recorded: set<Account>, x: Id, n: nat)
    requires LandedBodies(saved, landed, recorded, x)
    ensures var after := KeysAt(keys, saved, recorded, n);
            x in after && after[x].hasPrivateKey ==>
              (x in keys && keys[x].hasPrivateKey)
              || (BodyOf(x) in landed && Lookup(KeychainAt(kc, landed, n), BodyOf(x)) == Lookup(landed, BodyOf(x)))
  {
  }

  /** The one way a record can come to describe a body other than its own: the file's
      body has landed under a key this machine already held with another body's facts,
      and the flag pass has not recorded it (not yet, or its answer was lost, or its
      write failed). */
  predicate Overtaken(keys: map<Id, VaultKey>, saved: map<Id, VaultKey>, landed: Keychain, recorded: set<Account>,
                      x: Id, n: nat) {
    && n >= 2 && x in saved && BodyOf(x) in landed
    && x in keys && keys[x].hasPrivateKey && keys[x].fingerprint != saved[x].fingerprint
    && !(n >= 3 && BodyOf(x) in recorded)
  }

  /** Starting from an honest record and a file honest about its own key, every state of
      every run is honest, exactly outside that window. */
  lemma HonestExceptOvertaken(keys: map<Id, VaultKey>, saved: map<Id, VaultKey>, kc: Keychain, landed: Keychain,
                              recorded: set<Account>, x: Id, n: nat, factsOf: string -> string)
    requires KeyHonest(keys, kc, x, factsOf) && LandedBodies(saved, landed, recorded, x)
    requires BodyOf(x) in landed ==> factsOf(landed[BodyOf(x)]) == saved[x].fingerprint
    ensures KeyHonest(KeysAt(keys, saved, recorded, n), KeychainAt(kc, landed, n), x, factsOf)
            <==> !Overtaken(keys, saved, landed, recorded, x, n)
  {
    var after := KeysAt(keys, saved, recorded, n);
    if x in saved && n > 0 {
      var now := if n < 3 then {} else recorded;
      assert after[x] == RecordedKey(saved[x], Lookup(keys, x), BodyOf(x) in now, PhraseOf(x) in now);
    }
  }

  /** With no body landed, a key already held keeps its own facts and body throughout. */
  lemma NothingLandedKeepsFacts(keys: map<Id, VaultKey>, saved: map<Id, VaultKey>, kc: Keychain, landed: Keychain,
                                recorded: set<Account>, x: Id, n: nat)
    requires LandedBodies(saved, landed, recorded, x) && x in keys && BodyOf(x) !in landed
    ensures var after := KeysAt(keys, saved, recorded, n);
            && x in after && after[x].fingerprint == keys[x].fingerprint
            && after[x].hasPrivateKey == keys[x].hasPrivateKey
            && Lookup(KeychainAt(kc, landed, n), BodyOf(x)) == Lookup(kc, BodyOf(x))
  {
  }

  /** A key held here with one body, and a file's of another: with the answer lost, the
      record ends up showing the old facts over the new body. */
  lemma KeyIsOvertaken()
    ensures var held := map["k" := VaultKey("k", "key", true, "old", true, false)];
            var file := map["k" := VaultKey("k", "key", true, "new", false, false)];
            var kc: Keychain, landed: Keychain := map[BodyOf("k") := "old body"], map[BodyOf("k") := "new body"];
            && KeysAt(held, file, {}, 3)["k"].fingerprint == "old" && KeysAt(held, file, {}, 3)["k"].hasPrivateKey
            && KeychainAt(kc, landed, 3)[BodyOf("k")] == "new body"
            && Overtaken(held, file, landed, {}, "k", 3)
            && !Overtaken(held, file, landed, {BodyOf("k")}, "k", 3)
  {
    assert "old"[0] != "new"[0];
  }
}
