/**
 What one host write does to the record it stores (`writeHost` in
 `hosts/store.ts`): which keychain fields a record can own, which presence flags
 it ends up claiming, and which fields the previous record owned and this one can
 no longer name.
 */
module HostStore {
  import opened Records

  datatype Field = PasswordField | PrivateKeyField | PassphraseField

  /** What a record can own: nothing while it is bound, a password while it is inline, and
      key material besides if it is an SSH host. */
  predicate CanOwn(h: Host, f: Field) {
    h.cred.Inline? && (f == PasswordField || h.Ssh?)
  }

  /** `secretFieldsFor`: the accounts one record can own. */
  function SecretFields(h: Host): (r: set<Field>)
    ensures forall f :: f in r <==> CanOwn(h, f)
  {
    if h.cred.Bound? then {}
    else if h.Ssh? then {PasswordField, PrivateKeyField, PassphraseField}
    else {PasswordField}
  }

  function Flag(c: Credential, f: Field): bool
    requires c.Inline?
  {
    match f
    case PasswordField => c.hasPassword
    case PrivateKeyField => c.hasPrivateKey
    case PassphraseField => c.hasKeyPassphrase
  }

  /** `storedFlag`: what the stored record says about one account. */
  function StoredFlag(stored: Option<Host>, f: Field): bool {
    stored.Some? && f in SecretFields(stored.value) && Flag(stored.value.cred, f)
  }

  /** What a written record says, given the row handed in, the record it replaces and the
      fields said to be at their accounts already: the row in everything but its presence
      flags, and a flag for a field it can own, if the field is there already or the
      replaced record could own it and had that flag. */
  predicate WrittenAs(r: Host, h: Host, stored: Option<Host>, already: set<Field>) {
    && r == h.(cred := r.cred)
    && (h.cred.Bound? ==> r.cred == h.cred)
    && (h.cred.Inline? ==>
          && r.cred.Inline? && r.cred.owner == h.cred.owner && r.cred.user == h.cred.user && r.cred.mode == h.cred.mode
          && forall f ::
               Flag(r.cred, f) <==>
               && CanOwn(h, f)
               && (f in already || (stored.Some? && CanOwn(stored.value, f) && Flag(stored.value.cred, f))))
  }

  /** The record a write leaves: the caller's, with each presence flag taken from
      what the caller says is already at the account, else from the stored record. */
  function NextRecord(h: Host, stored: Option<Host>, already: set<Field>): (r: Host)
    ensures WrittenAs(r, h, stored, already)
  {
    if h.cred.Bound? then h
    else
      var has := (f: Field) => f in SecretFields(h) && (f in already || StoredFlag(stored, f));
      h.(cred := h.cred.(hasPassword := has(PasswordField),
                         hasPrivateKey := has(PrivateKeyField),
                         hasKeyPassphrase := has(PassphraseField)))
  }

  /** `releaseStaleAccounts`: the fields whose accounts the write deletes. */
  function StaleFields(h: Host, stored: Option<Host>): (r: set<Field>)
    ensures forall f :: f in r <==> stored.Some? && CanOwn(stored.value, f) && !CanOwn(h, f)
  {
    if stored.None? then {} else SecretFields(stored.value) - SecretFields(h)
  }
}
