/**
 The host half of a backup import: `clearDanglingJumps`, `clearDanglingTunnels`
 and `orderHostWrites` (`backup/file.ts`), and the write loop of `applyV3`
 (`backup/apply.ts`), each write judged by the store against what is on disk then.
 */
module HostImport {
  import opened Records
  import opened JumpChains
  import opened HostStore
  import opened Vault

  // ---------------------------------------------------------------- clearing

  function ClearJump(h: Host, byId: Disk, cap: nat): Host {
    if h.Ssh? && h.jump != "" && !Resolves(byId, h.id, h.jump, cap) then h.(jump := "") else h
  }

  function ClearTunnel(h: Host, byId: Disk, cap: nat): Host {
    if h.Rdp? && h.tunnel.Some? && !Resolves(byId, h.id, h.tunnel.value, cap)
    then h.(tunnel := None) else h
  }

  function ClearDanglingJumps(incoming: seq<Host>, existing: Disk, cap: nat): (out: seq<Host>)
    ensures |out| == |incoming|
  {
    var byId := Overlay(incoming, existing);
    seq(|incoming|, i requires 0 <= i < |incoming| => ClearJump(incoming[i], byId, cap))
  }

  function ClearDanglingTunnels(incoming: seq<Host>, existing: Disk, cap: nat): (out: seq<Host>)
    ensures |out| == |incoming|
  {
    var byId := Overlay(incoming, existing);
    seq(|incoming|, i requires 0 <= i < |incoming| => ClearTunnel(incoming[i], byId, cap))
  }

  /** Both clearing passes, in the order the import runs them. */
  function Cleared(incoming: seq<Host>, existing: Disk, cap: nat): (out: seq<Host>)
    ensures |out| == |incoming|
  {
    ClearDanglingTunnels(ClearDanglingJumps(incoming, existing, cap), existing, cap)
  }

  /** Rewriting rows one by one, ids kept, rewrites the index pointwise. */
  lemma OverlayMapped(hs: seq<Host>, gs: seq<Host>, d: Disk, f: Host -> Host)
    requires |gs| == |hs|
    requires forall i | 0 <= i < |hs| :: gs[i] == f(hs[i]) && gs[i].id == hs[i].id
    ensures HostIds(gs) == HostIds(hs)
    ensures Overlay(gs, d).Keys == Overlay(hs, d).Keys
    ensures forall x | x in HostIds(hs) :: x in Overlay(hs, d) && Overlay(gs, d)[x] == f(Overlay(hs, d)[x])
  {
    SameHostIds(hs, gs);
    OverlayKeys(hs, d);
    OverlayKeys(gs, d);
    forall x | x in HostIds(hs) ensures x in Overlay(hs, d) && Overlay(gs, d)[x] == f(Overlay(hs, d)[x]) {
      OverlayMappedAt(hs, gs, d, f, x);
    }
  }

  lemma SameHostIds(hs: seq<Host>, gs: seq<Host>)
    requires |gs| == |hs| && forall i | 0 <= i < |hs| :: gs[i].id == hs[i].id
    ensures HostIds(gs) == HostIds(hs)
  {
    forall x | x in HostIds(hs) ensures x in HostIds(gs) {
      var i :| 0 <= i < |hs| && hs[i].id == x;
      assert gs[i] in gs;
    }
    forall x | x in HostIds(gs) ensures x in HostIds(hs) {
      var i :| 0 <= i < |gs| && gs[i].id == x;
      assert hs[i] in hs;
    }
  }

  ghost predicate Mapped(hs: seq<Host>, gs: seq<Host>, f: Host -> Host) {
    |gs| == |hs| && forall i | 0 <= i < |hs| :: gs[i] == f(hs[i]) && gs[i].id == hs[i].id
  }

  lemma MappedPrefix(hs: seq<Host>, gs: seq<Host>, f: Host -> Host, n: nat)
    requires Mapped(hs, gs, f) && n <= |hs|
    ensures Mapped(hs[..n], gs[..n], f)
  {
  }

  lemma {:induction false} OverlayMappedAt(hs: seq<Host>, gs: seq<Host>, d: Disk, f: Host -> Host, x: Id)
    requires Mapped(hs, gs, f) && x in HostIds(hs)
    ensures x in Overlay(hs, d) && x in Overlay(gs, d) && Overlay(gs, d)[x] == f(Overlay(hs, d)[x])
  {
    var n := |hs| - 1;
    if hs[n].id == x {
      assert gs[n] == f(hs[n]);
    } else {
      MappedPrefix(hs, gs, f, n);
      PrefixHasId(hs, n, x);
      OverlayMappedAt(hs[..n], gs[..n], d, f, x);
    }
  }

  lemma PrefixHasId(hs: seq<Host>, n: nat, x: Id)
    requires n == |hs| - 1 && x in HostIds(hs) && hs[n].id != x
    ensures x in HostIds(hs[..n])
  {
    assert hs == hs[..n] + [hs[n]];
  }

  /** Every row is found under its own id. */
  ghost predicate Keyed(d: Disk) {
    forall x | x in d :: d[x].id == x
  }

  lemma {:induction false} OverlayKeyed(hs: seq<Host>, d: Disk)
    requires Keyed(d)
    ensures Keyed(Overlay(hs, d))
  {
    if hs != [] {
      OverlayKeyed(hs[..|hs| - 1], d);
    }
  }

  /** A reference survives clearing exactly when it resolves in the union of the
      file and the store, and clearing touches nothing but references. */
  lemma ClearedExactly(incoming: seq<Host>, existing: Disk, cap: nat, i: nat)
    requires i < |incoming|
    ensures var before := incoming[i];
            var after := Cleared(incoming, existing, cap)[i];
            var byId := Overlay(ClearDanglingJumps(incoming, existing, cap), existing);
            && (before.Ssh? ==>
                  after == if before.jump != "" && !Resolves(Overlay(incoming, existing), before.id, before.jump, cap)
                           then before.(jump := "") else before)
            && (before.Rdp? ==>
                  after == if before.tunnel.Some? && !Resolves(byId, before.id, before.tunnel.value, cap)
                           then before.(tunnel := None) else before)
  {
  }

  /** The chain below one hop of a finished chain resolves for that hop. */
  lemma HopResolves(d: Disk, start: string, cap: nat, j: nat)
    requires Walk(d, start, cap).Some? && j < |Walk(d, start, cap).value|
    ensures var x := Walk(d, start, cap).value[j];
            x in d && d[x].Ssh? && Resolves(d, x, d[x].jump, cap)
  {
    var p := Walk(d, start, cap).value;
    WalkSuffix(d, start, cap, j);
    WalkMonotone(d, d[p[j]].jump, cap - j - 1, cap);
    if p[j] in p[j + 1..] {
      var k :| j < k < |p| && p[k] == p[j];
      WalkDistinct(d, start, cap, j, k);
    }
  }

  /** A host the jump pass kept keeps its whole chain: every hop of it is kept too. */
  lemma KeptChainIsKept(incoming: seq<Host>, existing: Disk, start: string, cap: nat)
    requires Keyed(existing)
    requires Walk(Overlay(incoming, existing), start, cap).Some?
    ensures Walk(Overlay(ClearDanglingJumps(incoming, existing, cap), existing), start, cap)
         == Walk(Overlay(incoming, existing), start, cap)
  {
    var byId := Overlay(incoming, existing);
    var out := ClearDanglingJumps(incoming, existing, cap);
    var after := Overlay(out, existing);
    OverlayKeyed(incoming, existing);
    OverlayMapped(incoming, out, existing, h => ClearJump(h, byId, cap));
    var p := Walk(byId, start, cap).value;
    forall x | x in p
      ensures x in after && SameRoute(after[x], byId[x])
    {
      var j :| 0 <= j < |p| && p[j] == x;
      HopResolves(byId, start, cap, j);
      if x !in HostIds(incoming) {
        OverlayOutside(incoming, existing, x);
        OverlayOutside(out, existing, x);
      }
    }
    WalkAgrees(byId, after, start, cap);
  }

  /** After both passes every reference left in the file resolves in the union. */
  lemma ClearedResolves(incoming: seq<Host>, existing: Disk, cap: nat)
    requires Keyed(existing)
    ensures var out := Cleared(incoming, existing, cap);
            var byId := Overlay(out, existing);
            && HostIds(out) == HostIds(incoming)
            && forall x | x in HostIds(incoming) ::
                 && x in byId && byId[x].id == x
                 && (ReferenceOf(byId[x]) != "" ==> Resolves(byId, x, ReferenceOf(byId[x]), cap))
  {
    var byId := Overlay(incoming, existing);
    var mid := ClearDanglingJumps(incoming, existing, cap);
    var byMid := Overlay(mid, existing);
    var out := ClearDanglingTunnels(mid, existing, cap);
    var after := Overlay(out, existing);
    OverlayKeyed(incoming, existing);
    OverlayKeys(incoming, existing);
    OverlayMapped(incoming, mid, existing, h => ClearJump(h, byId, cap));
    OverlayMapped(mid, out, existing, h => ClearTunnel(h, byMid, cap));
    forall x | x in HostIds(incoming)
      ensures && x in after && after[x].id == x
              && (ReferenceOf(after[x]) != "" ==> Resolves(after, x, ReferenceOf(after[x]), cap))
    {
      if ReferenceOf(after[x]) != "" {
        KeptResolves(incoming, existing, x, cap);
        WalkAgreesMapped(mid, existing, ReferenceOf(after[x]), cap);
      }
    }
  }

  /** A reference that is left resolves over the rows the jump pass left. */
  lemma KeptResolves(incoming: seq<Host>, existing: Disk, x: Id, cap: nat)
    requires Keyed(existing) && x in HostIds(incoming)
    requires var mid := ClearDanglingJumps(incoming, existing, cap);
             var after := Overlay(ClearDanglingTunnels(mid, existing, cap), existing);
             x in after && ReferenceOf(after[x]) != ""
    ensures var mid := ClearDanglingJumps(incoming, existing, cap);
            var after := Overlay(ClearDanglingTunnels(mid, existing, cap), existing);
            Resolves(Overlay(mid, existing), x, ReferenceOf(after[x]), cap)
  {
    var byId := Overlay(incoming, existing);
    var mid := ClearDanglingJumps(incoming, existing, cap);
    var byMid := Overlay(mid, existing);
    var out := ClearDanglingTunnels(mid, existing, cap);
    OverlayKeyed(incoming, existing);
    OverlayMapped(incoming, mid, existing, h => ClearJump(h, byId, cap));
    OverlayMapped(mid, out, existing, h => ClearTunnel(h, byMid, cap));
    var after := Overlay(out, existing);
    if after[x].Ssh? {
      KeptChainIsKept(incoming, existing, ReferenceOf(after[x]), cap);
    }
  }

  /** The tunnel pass never changes a hop. */
  lemma WalkAgreesMapped(mid: seq<Host>, existing: Disk, start: string, cap: nat)
    requires Walk(Overlay(mid, existing), start, cap).Some?
    ensures Walk(Overlay(ClearDanglingTunnels(mid, existing, cap), existing), start, cap)
         == Walk(Overlay(mid, existing), start, cap)
  {
    var byMid := Overlay(mid, existing);
    var out := ClearDanglingTunnels(mid, existing, cap);
    OverlayMapped(mid, out, existing, h => ClearTunnel(h, byMid, cap));
    forall x | x in Walk(byMid, start, cap).value
      ensures x in Overlay(out, existing) && SameRoute(Overlay(out, existing)[x], byMid[x])
    {
      if x !in HostIds(mid) {
        OverlayOutside(mid, existing, x);
        OverlayOutside(out, existing, x);
      }
    }
    WalkAgrees(byMid, Overlay(out, existing), start, cap);
  }

  // ---------------------------------------------------------------- ordering

  /** `chainOf`: the ids on one chain, whether or not the chain is usable. */
  method ChainOf(start: string, byId: Disk, cap: nat) returns (out: seq<Id>)
    ensures |out| <= cap + 1
    ensures Walk(byId, start, cap).Some? ==> out == Walk(byId, start, cap).value
  {
    out := [];
    var seen: set<Id> := {};
    var cursor := start;
    while cursor != "" && cursor !in seen && |out| <= cap
      invariant seen == (set x | x in out)
      invariant |out| <= cap + 1
      invariant Walk(byId, start, cap).Some? ==> Walked(byId, start, out, cursor)
      decreases cap + 1 - |out|
    {
      if Walk(byId, start, cap).Some? {
        WalkedPrefix(byId, start, out, cursor, cap);
        WalkedExtend(byId, start, out, cursor);
      }
      seen := seen + {cursor};
      out := out + [cursor];
      cursor := if cursor in byId then ReferenceOf(byId[cursor]) else "";
    }
    if Walk(byId, start, cap).Some? {
      WalkedPrefix(byId, start, out, cursor, cap);
      if cursor in out {
        WalkedRepeat(byId, start, out, cursor, cap);
      }
      assert out + [] == out;
    }
  }

  /** The ids a row's reference reaches through. */
  function ChainSet(h: Host, byId: Disk, cap: nat): set<Id> {
    match Walk(byId, ReferenceOf(h), cap)
    case None => {}
    case Some(p) => set x | x in p
  }

  /** The rows still to write, all of them resolving in the index the order is
      computed over. */
  ghost predicate Resolved(pending: Disk, byId: Disk, cap: nat) {
    forall x | x in pending ::
      && pending[x].id == x
      && x in byId && byId[x] == pending[x]
      && Resolves(byId, x, ReferenceOf(pending[x]), cap)
  }

  /** What has been emitted so far: pending rows, each once. */
  ghost predicate Emitted(pending: Disk, emitted: set<Id>, out: seq<Host>) {
    && emitted == HostIds(out)
    && DistinctHosts(out)
    && forall h | h in out :: h.id in pending && pending[h.id] == h
  }

  /** Every pending hop of an emitted row was emitted before it. */
  ghost predicate HopsFirst(pending: Disk, byId: Disk, out: seq<Host>, cap: nat) {
    forall i, x | 0 <= i < |out| && x in pending && x in ChainSet(out[i], byId, cap) :: x in HostIds(out[..i])
  }

  lemma ChainSetTransitive(pending: Disk, byId: Disk, w: Id, id: Id, cap: nat)
    requires Resolved(pending, byId, cap) && w in pending && id in pending
    requires id in ChainSet(pending[w], byId, cap)
    ensures ChainSet(pending[id], byId, cap) <= ChainSet(pending[w], byId, cap)
  {
    var start := ReferenceOf(pending[w]);
    var p := Walk(byId, start, cap).value;
    var j :| 0 <= j < |p| && p[j] == id;
    WalkSuffix(byId, start, cap, j);
    WalkMonotone(byId, byId[id].jump, cap - j - 1, cap);
  }

  /** A hop of a row is a hop of every row being walked towards it. */
  lemma HopIsOnEveryChain(pending: Disk, byId: Disk, walking: set<Id>, id: Id, hop: Id, cap: nat)
    requires Resolved(pending, byId, cap) && walking <= pending.Keys && id in pending
    requires forall x | x in pending :: pending[x].id == x
    requires forall w | w in walking :: id in ChainSet(pending[w], byId, cap)
    requires hop in ChainSet(pending[id], byId, cap)
    ensures forall w | w in walking + {id} :: hop in ChainSet(pending[w], byId, cap)
  {
    forall w | w in walking && w != id ensures hop in ChainSet(pending[w], byId, cap) {
      ChainSetTransitive(pending, byId, w, id, cap);
    }
  }

  lemma EmitOne(pending: Disk, emitted: set<Id>, out: seq<Host>, id: Id)
    requires Emitted(pending, emitted, out) && id in pending && pending[id].id == id && id !in emitted
    ensures Emitted(pending, emitted + {id}, out + [pending[id]])
  {
    assert HostIds(out + [pending[id]]) == HostIds(out) + {id};
    forall h | h in out ensures h.id != id {
      assert h.id in HostIds(out);
    }
  }

  lemma HopsFirstPrefix(pending: Disk, byId: Disk, out: seq<Host>, h: Host, cap: nat)
    requires HopsFirst(pending, byId, out, cap)
    requires forall x | x in pending && x in ChainSet(h, byId, cap) :: x in HostIds(out)
    ensures HopsFirst(pending, byId, out + [h], cap)
  {
    var next := out + [h];
    forall i, x | 0 <= i < |next| && x in pending && x in ChainSet(next[i], byId, cap)
      ensures x in HostIds(next[..i])
    {
      if i < |out| {
        assert next[..i] == out[..i];
      } else {
        assert next[..i] == out;
      }
    }
  }

  /** The recursive `visit` of `orderHostWrites`. It terminates on any graph, since
      every nested visit grows `walking`; on a resolved one it emits the whole chain
      first. */
  method Visit(pending: Disk, byId: Disk, id: Id, emitted: set<Id>, walking: set<Id>, out: seq<Host>, cap: nat)
    returns (emitted': set<Id>, out': seq<Host>)
    requires Emitted(pending, emitted, out)
    requires walking <= pending.Keys
    requires forall x | x in pending :: pending[x].id == x
    requires Resolved(pending, byId, cap) ==>
               && HopsFirst(pending, byId, out, cap)
               && forall w | w in walking :: id in ChainSet(pending[w], byId, cap)
    ensures Emitted(pending, emitted', out')
    ensures out <= out'
    ensures id in pending && id !in walking ==> id in emitted'
    ensures forall x | x in emitted' :: x in emitted || x !in walking
    ensures Resolved(pending, byId, cap) ==> HopsFirst(pending, byId, out', cap)
    decreases pending.Keys - walking, 0
  {
    emitted', out' := emitted, out;
    if id !in pending || id in emitted || id in walking {
      return;
    }
    var host := pending[id];
    var reference := ReferenceOf(host);
    if reference != "" {
      var hops := ChainOf(reference, byId, cap);
      if Resolved(pending, byId, cap) {
        forall hop | hop in hops ensures forall w | w in walking + {id} :: hop in ChainSet(pending[w], byId, cap) {
          assert hop in ChainSet(pending[id], byId, cap);
          HopIsOnEveryChain(pending, byId, walking, id, hop, cap);
        }
      }
      emitted', out' := VisitChain(pending, byId, hops, emitted, walking + {id}, out, cap);
    }
    if Resolved(pending, byId, cap) {
      HopsFirstPrefix(pending, byId, out', host, cap);
    }
    EmitOne(pending, emitted', out', id);
    emitted' := emitted' + {id};
    out' := out' + [host];
  }

  /** The visits to a row's hops, with the row itself among those being walked. */
  method VisitChain(pending: Disk, byId: Disk, hops: seq<Id>, emitted: set<Id>, inside: set<Id>, out: seq<Host>,
                    cap: nat)
    returns (emitted': set<Id>, out': seq<Host>)
    requires Emitted(pending, emitted, out) && inside <= pending.Keys
    requires forall x | x in pending :: pending[x].id == x
    requires Resolved(pending, byId, cap) ==>
               && HopsFirst(pending, byId, out, cap)
               && forall hop, w | hop in hops && w in inside :: hop in ChainSet(pending[w], byId, cap)
    ensures Emitted(pending, emitted', out') && out <= out'
    ensures forall x | x in emitted' :: x in emitted || x !in inside
    ensures Resolved(pending, byId, cap) ==>
              && HopsFirst(pending, byId, out', cap)
              && forall hop | hop in hops && hop in pending :: hop in emitted'
    decreases pending.Keys - inside, 1
  {
    emitted', out' := emitted, out;
    for k := 0 to |hops|
      invariant Emitted(pending, emitted', out') && out <= out'
      invariant forall x | x in emitted' :: x in emitted || x !in inside
      invariant Resolved(pending, byId, cap) ==>
                  && HopsFirst(pending, byId, out', cap)
                  && forall j | 0 <= j < k && hops[j] in pending :: hops[j] in emitted'
    {
      assert hops[k] in hops;
      emitted', out' := Visit(pending, byId, hops[k], emitted', inside, out', cap);
    }
  }

  /** `orderHostWrites`: each id of the file exactly once, whatever the graph; and
      on a cleared file every hop before the row that reaches through it. */
  method OrderHostWrites(incoming: seq<Host>, existing: Disk, cap: nat) returns (out: seq<Host>)
    ensures var pending := Overlay(incoming, map[]);
            && Emitted(pending, HostIds(incoming), out)
            && (Resolved(pending, Overlay(incoming, existing), cap) ==>
                  HopsFirst(pending, Overlay(incoming, existing), out, cap))
    ensures DistinctHosts(incoming) ==> multiset(out) == multiset(incoming)
  {
    var byId := Overlay(incoming, existing);
    var pending := Overlay(incoming, map[]);
    OverlayKeys(incoming, map[]);
    OverlayKeyed(incoming, map[]);
    var emitted: set<Id> := {};
    out := [];
    for i := 0 to |incoming|
      invariant Emitted(pending, emitted, out)
      invariant Resolved(pending, byId, cap) ==> HopsFirst(pending, byId, out, cap)
      invariant forall j | 0 <= j < i :: incoming[j].id in emitted
    {
      emitted, out := Visit(pending, byId, incoming[i].id, emitted, {}, out, cap);
    }
    assert emitted == HostIds(incoming);
    if DistinctHosts(incoming) {
      forall h
        ensures h in out <==> h in incoming
      {
        if h in incoming {
          var i :| 0 <= i < |incoming| && incoming[i] == h;
          OverlayAt(incoming, map[], i);
        }
        if h in out {
          var i :| 0 <= i < |incoming| && incoming[i].id == h.id;
          OverlayAt(incoming, map[], i);
        }
      }
      SameRowsOnce(out, incoming);
    }
  }

  lemma {:induction false} CountDistinct(hs: seq<Host>, h: Host)
    requires DistinctHosts(hs)
    ensures multiset(hs)[h] == if h in hs then 1 else 0
  {
    if hs != [] {
      CountDistinct(hs[1..], h);
      assert hs == [hs[0]] + hs[1..];
    }
  }

  lemma SameRowsOnce(a: seq<Host>, b: seq<Host>)
    requires DistinctHosts(a) && DistinctHosts(b)
    requires forall h :: h in a <==> h in b
    ensures multiset(a) == multiset(b)
  {
    forall h
      ensures multiset(a)[h] == multiset(b)[h]
    {
      CountDistinct(a, h);
      CountDistinct(b, h);
    }
  }

  // ----------------------------------------------------------------- writing

  /** What the sanitizer leaves of a row: a tunnel that names nothing is dropped there
      (`rdpArm`), so a reference is absent or names something. */
  ghost predicate Sanitized(h: Host) {
    !(h.Rdp? && h.tunnel == Some(""))
  }

  function ClaimOf(claims: map<Id, set<Field>>, id: Id): set<Field> {
    if id in claims then claims[id] else {}
  }

  /** The store after some rows: each of them is there as the store's own write of it
      left it, with the fields claimed for it so far; everything else is as it was. */
  ghost predicate WrittenSoFar(d: Disk, existing: Disk, done: seq<Host>, claims: map<Id, set<Field>>) {
    && (forall h | h in done ::
          h.id in d && d[h.id] == NextRecord(h, Lookup(existing, h.id), ClaimOf(claims, h.id)))
    && (forall x | x !in HostIds(done) :: Lookup(d, x) == Lookup(existing, x))
  }

  /** When a row's turn comes, everything it reaches through is on disk as the order's
      index has it, so the store takes it. */
  lemma RowIsAccepted(pending: Disk, byId: Disk, existing: Disk, order: seq<Host>, i: nat, d: Disk,
                      claims: map<Id, set<Field>>, cap: nat)
    requires GoodOrder(order, pending, byId, existing, cap) && i < |order|
    requires WrittenSoFar(d, existing, order[..i], claims)
    ensures Acceptable(order[i], d, cap)
  {
    var h := order[i];
    assert h in order && pending[h.id] == h;
    assert Resolves(byId, h.id, ReferenceOf(h), cap);
    forall x | x in Walk(byId, ReferenceOf(h), cap).value
      ensures x in d && SameRoute(d[x], byId[x])
    {
      assert x in ChainSet(h, byId, cap);
      HopIsStored(pending, byId, existing, order, i, d, claims, x, cap);
    }
    WalkAgrees(byId, d, ReferenceOf(h), cap);
  }

  lemma HopIsStored(pending: Disk, byId: Disk, existing: Disk, order: seq<Host>, i: nat, d: Disk,
                    claims: map<Id, set<Field>>, x: Id, cap: nat)
    requires GoodOrder(order, pending, byId, existing, cap) && i <= |order|
    requires WrittenSoFar(d, existing, order[..i], claims)
    requires x in byId && (x in pending ==> x in HostIds(order[..i]))
    ensures x in d && SameRoute(d[x], byId[x])
  {
    if x in pending {
      var k :| 0 <= k < i && order[..i][k].id == x;
      assert order[k] in order[..i] && order[k] in order;
    } else {
      assert forall g | g in order[..i] :: g in order;
      assert Lookup(d, x) == Lookup(existing, x);
    }
  }

  /** One store write of the import (`writeHost`): references judged, the record
      persisted, then every account the stored record owned and this one can no longer
      name cleared from the keychain. */
  method UpsertHost(h: Host, already: set<Field>, d: Disk, kc: Keychain, cap: nat)
    returns (d': Disk, kc': Keychain, refusal: Option<ReferenceError>)
    ensures refusal.None? <==> Acceptable(h, d, cap)
    ensures d' == if refusal.None? then d[h.id := NextRecord(h, Lookup(d, h.id), already)] else d
    ensures refusal.None? ==> WrittenAs(d'[h.id], h, Lookup(d, h.id), already)
    ensures kc' == if refusal.None? then kc - HostAccounts(h.id, StaleFields(h, Lookup(d, h.id))) else kc
  {
    refusal := AssertReferences(h, d, cap);
    d', kc' := d, kc;
    if refusal.None? {
      d' := d[h.id := NextRecord(h, Lookup(d, h.id), already)];
      kc' := kc - HostAccounts(h.id, StaleFields(h, Lookup(d, h.id)));
    }
  }

  /** What writing these rows over a store releases. */
  function Released(rows: seq<Host>, existing: Disk): set<Account> {
    set h, f | h in rows && f in StaleFields(h, Lookup(existing, h.id)) :: HostAccount(h.id, f)
  }

  lemma ReleasedNext(rows: seq<Host>, existing: Disk, i: nat)
    requires i < |rows|
    ensures Released(rows[..i + 1], existing)
         == Released(rows[..i], existing) + HostAccounts(rows[i].id, StaleFields(rows[i], Lookup(existing, rows[i].id)))
  {
    assert rows[..i + 1] == rows[..i] + [rows[i]];
  }

  /** An order in which every hop comes first, over an index that agrees with the
      store off the order: what the write loop relies on. */
  ghost predicate GoodOrder(order: seq<Host>, pending: Disk, byId: Disk, existing: Disk, cap: nat) {
    && Resolved(pending, byId, cap) && HopsFirst(pending, byId, order, cap)
    && Emitted(pending, pending.Keys, order)
    && (forall h | h in order :: Sanitized(h))
    && forall x | x in byId && x !in pending :: x in existing && existing[x] == byId[x]
  }

  /** The loop after some rows: each stored, and exactly their stale accounts released. */
  ghost predicate Writing(d: Disk, kc: Keychain, existing: Disk, keychain: Keychain, done: seq<Host>) {
    WrittenSoFar(d, existing, done, map[]) && kc == keychain - Released(done, existing)
  }

  lemma WritingNext(d: Disk, kc: Keychain, existing: Disk, keychain: Keychain, order: seq<Host>, i: nat)
    requires DistinctHosts(order) && i < |order| && Writing(d, kc, existing, keychain, order[..i])
    ensures var h := order[i];
            Writing(d[h.id := NextRecord(h, Lookup(d, h.id), {})],
                    kc - HostAccounts(h.id, StaleFields(h, Lookup(d, h.id))), existing, keychain, order[..i + 1])
  {
    WrittenOneMore(d, existing, order, i);
    ReleasedNext(order, existing, i);
  }

  /** The write loop of the import, every row judged against the disk as it stands. */
  method WriteInOrder(order: seq<Host>, existing: Disk, keychain: Keychain, cap: nat, ghost pending: Disk,
                      ghost byId: Disk)
    returns (d: Disk, kc: Keychain, refused: seq<Host>)
    requires GoodOrder(order, pending, byId, existing, cap)
    ensures refused == []
    ensures WrittenSoFar(d, existing, order, map[])
    ensures forall h | h in order :: WrittenAs(d[h.id], h, Lookup(existing, h.id), {})
    ensures kc == keychain - Released(order, existing)
  {
    d, kc, refused := existing, keychain, [];
    for i := 0 to |order|
      invariant Writing(d, kc, existing, keychain, order[..i]) && refused == []
    {
      RowIsAccepted(pending, byId, existing, order, i, d, map[], cap);
      WritingNext(d, kc, existing, keychain, order, i);
      var h, refusal := order[i], None;
      d, kc, refusal := UpsertHost(h, {}, d, kc, cap);
      if refusal.Some? {
        refused := refused + [h];
      }
    }
    assert order[..|order|] == order;
  }

  /** The plan of an import: the cleared rows in order, over their index. */
  lemma PlanIsGood(incoming: seq<Host>, existing: Disk, order: seq<Host>, cap: nat)
    requires Keyed(existing) && forall h | h in incoming :: Sanitized(h)
    requires var cleared := Cleared(incoming, existing, cap);
             var pending := Overlay(cleared, map[]);
             && Emitted(pending, HostIds(cleared), order)
             && (Resolved(pending, Overlay(cleared, existing), cap) ==>
                   HopsFirst(pending, Overlay(cleared, existing), order, cap))
    ensures var cleared := Cleared(incoming, existing, cap);
            GoodOrder(order, Overlay(cleared, map[]), Overlay(cleared, existing), existing, cap)
  {
    ClearedIsResolved(incoming, existing, cap);
    forall h | h in order ensures Sanitized(h) {
      ClearedIsSanitized(incoming, existing, cap, h.id);
    }
  }

  lemma ClearedIsSanitized(incoming: seq<Host>, existing: Disk, cap: nat, x: Id)
    requires forall h | h in incoming :: Sanitized(h)
    requires x in Overlay(Cleared(incoming, existing, cap), map[])
    ensures Sanitized(Overlay(Cleared(incoming, existing, cap), map[])[x])
  {
    var cleared := Cleared(incoming, existing, cap);
    OverlayKeys(cleared, map[]);
    OverlayIsRow(cleared, map[], x);
    var i :| 0 <= i < |cleared| && cleared[i] == Overlay(cleared, map[])[x];
    assert incoming[i] in incoming;
    ClearedExactly(incoming, existing, cap, i);
  }

  lemma {:induction false} OverlayIsRow(hs: seq<Host>, d: Disk, x: Id)
    requires x in HostIds(hs)
    ensures x in Overlay(hs, d) && Overlay(hs, d)[x] in hs
  {
    var n := |hs| - 1;
    assert hs == hs[..n] + [hs[n]];
    if hs[n].id != x {
      OverlayIsRow(hs[..n], d, x);
    }
  }

  /** The order computed over the cleared rows of a file. */
  ghost predicate PlannedOrder(order: seq<Host>, incoming: seq<Host>, existing: Disk, cap: nat) {
    var cleared := Cleared(incoming, existing, cap);
    && Emitted(Overlay(cleared, map[]), HostIds(incoming), order)
    && GoodOrder(order, Overlay(cleared, map[]), Overlay(cleared, existing), existing, cap)
  }

  /** The clearing passes, the order and the write loop together: on any sanitized file
      and any store no write is refused for its references, every row is stored whole,
      every one is a row the store would take again, and what is released is exactly
      what a saved record owned and the row over it cannot name. */
  method ImportHosts(incoming: seq<Host>, existing: Disk, keychain: Keychain, cap: nat)
    returns (d: Disk, kc: Keychain, refused: seq<Host>, order: seq<Host>)
    requires Keyed(existing) && forall h | h in incoming :: Sanitized(h)
    ensures refused == [] && PlannedOrder(order, incoming, existing, cap)
    ensures WrittenSoFar(d, existing, order, map[])
    ensures forall h | h in order :: WrittenAs(d[h.id], h, Lookup(existing, h.id), {})
    ensures forall h | h in order :: Acceptable(d[h.id], d, cap)
    ensures kc == keychain - Released(order, existing)
  {
    var cleared := Cleared(incoming, existing, cap);
    ghost var pending := Overlay(cleared, map[]);
    ghost var byId := Overlay(cleared, existing);
    ClearedIsResolved(incoming, existing, cap);
    order := OrderHostWrites(cleared, existing, cap);
    PlanIsGood(incoming, existing, order, cap);
    d, kc, refused := WriteInOrder(order, existing, keychain, cap, pending, byId);
    forall h | h in order ensures Acceptable(d[h.id], d, cap) {
      FinalChain(pending, byId, existing, order, h, d, map[], cap);
    }
  }

  lemma WrittenOneMore(before: Disk, existing: Disk, out: seq<Host>, i: nat)
    requires i < |out| && DistinctHosts(out)
    requires WrittenSoFar(before, existing, out[..i], map[])
    ensures Lookup(before, out[i].id) == Lookup(existing, out[i].id)
    ensures WrittenSoFar(before[out[i].id := NextRecord(out[i], Lookup(before, out[i].id), {})],
                         existing, out[..i + 1], map[])
  {
    var h := out[i];
    assert out[..i + 1] == out[..i] + [h];
    assert h.id !in HostIds(out[..i]);
    assert Lookup(before, h.id) == Lookup(existing, h.id);
    var d := before[h.id := NextRecord(h, Lookup(before, h.id), {})];
    forall g | g in out[..i + 1]
      ensures g.id in d && d[g.id] == NextRecord(g, Lookup(existing, g.id), {})
    {
      if g != h {
        assert g in out[..i];
      }
    }
    forall x | x !in HostIds(out[..i + 1]) ensures Lookup(d, x) == Lookup(existing, x) {
      assert h in out[..i + 1];
      assert forall g | g in out[..i] :: g in out[..i + 1];
      assert x !in HostIds(out[..i]);
    }
  }

  lemma ClearedIsResolved(incoming: seq<Host>, existing: Disk, cap: nat)
    requires Keyed(existing)
    ensures var cleared := Cleared(incoming, existing, cap);
            var pending := Overlay(cleared, map[]);
            var byId := Overlay(cleared, existing);
            && Resolved(pending, byId, cap)
            && pending.Keys == HostIds(cleared) == HostIds(incoming)
            && forall x | x in byId && x !in pending :: x in existing && existing[x] == byId[x]
  {
    var cleared := Cleared(incoming, existing, cap);
    ClearedResolves(incoming, existing, cap);
    OverlayKeys(cleared, map[]);
    OverlayKeys(cleared, existing);
    forall x | x in HostIds(cleared)
      ensures Overlay(cleared, map[])[x] == Overlay(cleared, existing)[x]
    {
      OverlaySame(cleared, map[], existing, x);
    }
    forall x | x in Overlay(cleared, existing) && x !in HostIds(cleared)
      ensures x in existing && existing[x] == Overlay(cleared, existing)[x]
    {
      OverlayOutside(cleared, existing, x);
    }
  }

  lemma {:induction false} OverlaySame(hs: seq<Host>, d: Disk, e: Disk, x: Id)
    requires x in HostIds(hs)
    ensures x in Overlay(hs, d) && x in Overlay(hs, e) && Overlay(hs, d)[x] == Overlay(hs, e)[x]
  {
    var n := |hs| - 1;
    assert hs == hs[..n] + [hs[n]];
    if hs[n].id != x {
      OverlaySame(hs[..n], d, e, x);
    }
  }

  /** With every row written, a row's chain is still the one the order saw, whatever
      fields have been claimed since. */
  lemma FinalChain(pending: Disk, byId: Disk, existing: Disk, order: seq<Host>, h: Host, d: Disk,
                   claims: map<Id, set<Field>>, cap: nat)
    requires GoodOrder(order, pending, byId, existing, cap) && h in order
    requires WrittenSoFar(d, existing, order, claims)
    ensures h.id in d && Acceptable(d[h.id], d, cap) && Acceptable(h, d, cap)
  {
    assert pending[h.id] == h;
    assert Resolves(byId, h.id, ReferenceOf(h), cap);
    assert order[..|order|] == order;
    forall x | x in Walk(byId, ReferenceOf(h), cap).value
      ensures x in d && SameRoute(d[x], byId[x])
    {
      HopIsStored(pending, byId, existing, order, |order|, d, claims, x, cap);
    }
    WalkAgrees(byId, d, ReferenceOf(h), cap);
    assert SameRoute(d[h.id], h);
  }
}
