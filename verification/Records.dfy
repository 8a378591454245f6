/**
 The records the three stores keep, reduced to the fields their passes decide on.
 Everything a pass carries through untouched (address, port, tags, pins, ...) is
 the single field `details`, so that "nothing else changed" can still be stated.
 */
module Records {

  type Id = string

  datatype Option<+T> = None | Some(value: T)

  function Lookup<K, V>(m: map<K, V>, k: K): Option<V> {
    if k in m then Some(m[k]) else None
  }

  lemma SameMap<K, V>(a: map<K, V>, b: map<K, V>)
    requires forall k :: Lookup(a, k) == Lookup(b, k)
    ensures a == b
  {
    assert forall k :: (k in a <==> Lookup(a, k).Some?) && (k in b <==> Lookup(b, k).Some?);
    assert forall k | k in a :: Some(a[k]) == Lookup(a, k) && Some(b[k]) == Lookup(b, k);
  }

  datatype AuthMode = Password | Key | Agent

  /** What a host authenticates with: accounts of its own, described by presence
      flags, or a vault identity. An RDP host leaves the two key flags false. */
  datatype Credential =
    | Inline(owner: Id, user: string, mode: AuthMode,
             hasPassword: bool, hasPrivateKey: bool, hasKeyPassphrase: bool)
    | Bound(identityId: Id)

  /** One machine. `jump` is the falsy-or-id string the SSH arm keeps ("" is "no
      jump host"); `tunnel` is the RDP arm's optional object, whose id may be blank. */
  datatype Host =
    | Ssh(id: Id, details: string, group: Option<Id>, cred: Credential, jump: string)
    | Rdp(id: Id, details: string, group: Option<Id>, cred: Credential, tunnel: Option<string>)

  /** A store, or the union of a file and a store, keyed by host id. */
  type Disk = map<Id, Host>

  /** `identity` is the default a new host in the group is bound to. */
  datatype Group = Group(id: Id, name: string, parent: Option<Id>, identity: Option<Id>, details: string)

  /** The set of ids a list of hosts carries. */
  function HostIds(hs: seq<Host>): set<Id> {
    set h | h in hs :: h.id
  }

  ghost predicate DistinctHosts(hs: seq<Host>) {
    forall i, j | 0 <= i < j < |hs| :: hs[i].id != hs[j].id
  }

  ghost predicate DistinctGroups(gs: seq<Group>) {
    forall i, j | 0 <= i < j < |gs| :: gs[i].id != gs[j].id
  }

  /** Every row of `hs` laid over `d`, a later row winning over an earlier one. */
  function Overlay(hs: seq<Host>, d: Disk): Disk {
    if hs == [] then d
    else Overlay(hs[..|hs| - 1], d)[hs[|hs| - 1].id := hs[|hs| - 1]]
  }

  lemma {:induction false} OverlayKeys(hs: seq<Host>, d: Disk)
    ensures Overlay(hs, d).Keys == d.Keys + HostIds(hs)
  {
    if hs != [] {
      var n := |hs| - 1;
      OverlayKeys(hs[..n], d);
      assert hs == hs[..n] + [hs[n]];
      assert HostIds(hs) == HostIds(hs[..n]) + {hs[n].id};
    }
  }

  /** A row whose id is distinct from the others is the one found under its id. */
  lemma {:induction false} OverlayAt(hs: seq<Host>, d: Disk, i: nat)
    requires DistinctHosts(hs) && i < |hs|
    ensures hs[i].id in Overlay(hs, d) && Overlay(hs, d)[hs[i].id] == hs[i]
  {
    var n := |hs| - 1;
    if i < n {
      OverlayAt(hs[..n], d, i);
    }
  }

  lemma {:induction false} OverlayOutside(hs: seq<Host>, d: Disk, id: Id)
    requires id !in HostIds(hs)
    ensures id in Overlay(hs, d) <==> id in d
    ensures id in d ==> Overlay(hs, d)[id] == d[id]
  {
    if hs != [] {
      var n := |hs| - 1;
      assert hs[n] in hs;
      assert forall h | h in hs[..n] :: h in hs;
      OverlayOutside(hs[..n], d, id);
    }
  }
}
