/**
 The keychain step of an import (`backup/apply.ts`): how a landed credential is
 remembered, and which presence flags that lets a host claim.
 */
module ImportSecrets {
  import opened Records
  import opened HostStore

  // -------------------------------------------------------------- landed credentials

  datatype SecretRef = SecretRef(group: string, id: Id, field: string)

  /** `landedKey`. */
  function LandedKey(group: string, id: Id, field: string): string {
    group + "::" + id + "::" + field
  }

  ghost predicate NoColon(s: string) {
    forall i | 0 <= i < |s| :: s[i] != ':'
  }

  /** A colon-free prefix is read off up to the first colon. */
  lemma PrefixIsFixed(a: string, x: string, b: string, y: string)
    requires NoColon(a) && NoColon(b) && a + ":" + x == b + ":" + y
    ensures a == b && x == y
  {
    var s := a + ":" + x;
    assert s[|a|] == ':' && s[|b|] == ':';
    assert forall i | 0 <= i < |a| :: s[i] == a[i];
    assert forall i | 0 <= i < |b| :: s[i] == b[i];
    assert |a| == |b|;
    assert a == s[..|a|] && b == s[..|b|];
    assert x == s[|a| + 1..] && y == s[|b| + 1..];
  }

  /** And a colon-free suffix off after the last. */
  lemma SuffixIsFixed(x: string, a: string, y: string, b: string)
    requires NoColon(a) && NoColon(b) && x + ":" + a == y + ":" + b
    ensures a == b && x == y
  {
    var s := x + ":" + a;
    assert s[|x|] == ':' && s[|y|] == ':';
    assert forall i | |x| < i < |s| :: s[i] == a[i - |x| - 1];
    assert forall i | |y| < i < |s| :: s[i] == b[i - |y| - 1];
    assert |x| == |y|;
    assert x == s[..|x|] && y == s[..|y|];
    assert a == s[|x| + 1..] && b == s[|y| + 1..];
  }

  /** Whatever strings the ids are, colons included, two references share a key only
      if they are one reference. */
  lemma LandedKeyIsInjective(r: SecretRef, s: SecretRef)
    requires NoColon(r.group) && NoColon(s.group) && NoColon(r.field) && NoColon(s.field)
    requires LandedKey(r.group, r.id, r.field) == LandedKey(s.group, s.id, s.field)
    ensures r == s
  {
    var x, y := ":" + r.id + "::" + r.field, ":" + s.id + "::" + s.field;
    assert LandedKey(r.group, r.id, r.field) == r.group + ":" + x;
    assert LandedKey(s.group, s.id, s.field) == s.group + ":" + y;
    PrefixIsFixed(r.group, x, s.group, y);
    var u, v := ":" + r.id + ":", ":" + s.id + ":";
    assert x == u + ":" + r.field && y == v + ":" + s.field;
    SuffixIsFixed(u, r.field, v, s.field);
    assert r.id == u[1..|u| - 1] && s.id == v[1..|v| - 1];
  }

  const HOST_GROUP := "hostSecrets"

  function FieldName(f: Field): string {
    match f
    case PasswordField => "password"
    case PrivateKeyField => "privateKey"
    case PassphraseField => "keyPassphrase"
  }

  /** The references one import asks the keychain step for, and its per-index answer; an
      answer too short says nothing landed. */
  ghost predicate Landed(refs: seq<SecretRef>, written: seq<bool>, r: SecretRef) {
    exists i :: 0 <= i < |refs| && i < |written| && refs[i] == r && written[i]
  }

  ghost predicate Plain(refs: seq<SecretRef>) {
    forall i | 0 <= i < |refs| :: NoColon(refs[i].group) && NoColon(refs[i].field)
  }

  /** The `landed` set. */
  method LandedSet(refs: seq<SecretRef>, written: seq<bool>) returns (landed: set<string>)
    requires Plain(refs)
    ensures forall r: SecretRef | NoColon(r.group) && NoColon(r.field) ::
              LandedKey(r.group, r.id, r.field) in landed <==> Landed(refs, written, r)
  {
    landed := {};
    for i := 0 to |refs|
      invariant forall k :: k in landed <==> exists j :: 0 <= j < i && j < |written| && written[j]
                                               && k == LandedKey(refs[j].group, refs[j].id, refs[j].field)
    {
      if i < |written| && written[i] {
        landed := landed + {LandedKey(refs[i].group, refs[i].id, refs[i].field)};
      }
    }
    forall r: SecretRef | NoColon(r.group) && NoColon(r.field)
      ensures LandedKey(r.group, r.id, r.field) in landed <==> Landed(refs, written, r)
    {
      OneLanded(refs, written, landed, r);
    }
  }

  lemma OneLanded(refs: seq<SecretRef>, written: seq<bool>, landed: set<string>, r: SecretRef)
    requires Plain(refs) && NoColon(r.group) && NoColon(r.field)
    requires forall k :: k in landed <==> exists j :: 0 <= j < |refs| && j < |written| && written[j]
                                             && k == LandedKey(refs[j].group, refs[j].id, refs[j].field)
    ensures LandedKey(r.group, r.id, r.field) in landed <==> Landed(refs, written, r)
  {
    var key := LandedKey(r.group, r.id, r.field);
    if key in landed {
      var j :| 0 <= j < |refs| && j < |written| && written[j]
               && key == LandedKey(refs[j].group, refs[j].id, refs[j].field);
      LandedKeyIsInjective(r, refs[j]);
    }
  }

  /** `storedFields`. */
  function StoredFields(h: Host, landed: set<string>): set<Field> {
    set f | f in SecretFields(h) && LandedKey(HOST_GROUP, h.id, FieldName(f)) in landed
  }

  lemma NamesAreDistinct(f: Field, g: Field)
    ensures NoColon(FieldName(f)) && NoColon(HOST_GROUP)
    ensures FieldName(f) == FieldName(g) ==> f == g
  {
    assert |FieldName(PasswordField)| == 8 && |FieldName(PrivateKeyField)| == 10 && |FieldName(PassphraseField)| == 13;
  }

  /** A host claims a field as already stored exactly when it can own the field and its
      own reference landed, however ids collide across the three collections. */
  lemma ClaimedIffLanded(h: Host, refs: seq<SecretRef>, written: seq<bool>, landed: set<string>, f: Field)
    requires forall r: SecretRef | NoColon(r.group) && NoColon(r.field) ::
               LandedKey(r.group, r.id, r.field) in landed <==> Landed(refs, written, r)
    ensures f in StoredFields(h, landed) <==>
              f in SecretFields(h) && Landed(refs, written, SecretRef(HOST_GROUP, h.id, FieldName(f)))
  {
    NamesAreDistinct(f, f);
    var r := SecretRef(HOST_GROUP, h.id, FieldName(f));
    assert NoColon(r.group) && NoColon(r.field);
  }
}
