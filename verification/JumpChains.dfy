/**
 The ProxyJump walk, as the store judges it (`hosts/jumps.ts`, `hosts/store.ts`)
 and as the import predicts it (`backup/file.ts`). The reference definition is
 `Walk`: follow the jump references from one start, within a hop budget, and
 report the whole chain. It keeps no visited set, so agreeing with it is what
 shows that the visited sets of the two loops change nothing but termination.
 The cap is 16, as `MAX_JUMP_HOPS` in the store and `MAX_JUMP_CHAIN` in the parser,
 which have to agree; everything here holds for any `cap` the two share.
 */
module JumpChains {
  import opened Records

  /** The complete chain from `start` when it ends within `cap` hops, every hop a
      saved SSH host. */
  function Walk(d: Disk, start: string, cap: nat): (p: Option<seq<Id>>)
    ensures p.Some? ==> |p.value| <= cap && forall x | x in p.value :: x in d && d[x].Ssh?
    decreases cap
  {
    if start == "" then Some([])
    else if cap == 0 || start !in d || !d[start].Ssh? then None
    else
      match Walk(d, d[start].jump, cap - 1)
      case None => None
      case Some(rest) => Some([start] + rest)
  }

  /** What the store accepts as a jump or tunnel target for `self`. */
  predicate Resolves(d: Disk, self: Id, start: string, cap: nat) {
    var p := Walk(d, start, cap);
    p.Some? && self !in p.value
  }

  lemma {:induction false} WalkMonotone(d: Disk, start: string, cap: nat, more: nat)
    requires Walk(d, start, cap).Some? && cap <= more
    ensures Walk(d, start, more) == Walk(d, start, cap)
    decreases cap
  {
    if start != "" {
      WalkMonotone(d, d[start].jump, cap - 1, more - 1);
    }
  }

  /** A finished chain fits a budget exactly when it is no longer than it. */
  lemma {:induction false} WalkLength(d: Disk, start: string, cap: nat, other: nat)
    requires Walk(d, start, cap).Some?
    ensures |Walk(d, start, cap).value| <= other <==> Walk(d, start, other).Some?
    decreases cap
  {
    if start != "" && other > 0 {
      WalkLength(d, d[start].jump, cap - 1, other - 1);
    }
  }

  /** A chain is the walk of each of its own suffixes. */
  lemma {:induction false} WalkSuffix(d: Disk, start: string, cap: nat, j: nat)
    requires Walk(d, start, cap).Some? && j < |Walk(d, start, cap).value|
    ensures var p := Walk(d, start, cap).value;
            && p[j] != ""
            && p[j] in d && d[p[j]].Ssh?
            && Walk(d, p[j], cap - j) == Some(p[j..])
            && Walk(d, d[p[j]].jump, cap - j - 1) == Some(p[j + 1..])
    decreases cap
  {
    var rest := WalkTail(d, start, cap);
    if j > 0 {
      WalkSuffix(d, d[start].jump, cap - 1, j - 1);
      TailSuffix(start, rest, j);
    }
  }

  lemma WalkTail(d: Disk, start: string, cap: nat) returns (rest: seq<Id>)
    requires Walk(d, start, cap).Some? && Walk(d, start, cap).value != []
    ensures cap > 0 && start != "" && start in d && d[start].Ssh?
    ensures Walk(d, d[start].jump, cap - 1) == Some(rest) && Walk(d, start, cap) == Some([start] + rest)
    ensures ([start] + rest)[0..] == [start] + rest && ([start] + rest)[1..] == rest
  {
    rest := Walk(d, d[start].jump, cap - 1).value;
  }

  lemma TailSuffix(start: Id, rest: seq<Id>, j: nat)
    requires 0 < j <= |rest|
    ensures ([start] + rest)[j] == rest[j - 1]
    ensures ([start] + rest)[j..] == rest[j - 1..] && ([start] + rest)[j + 1..] == rest[j..]
  {
  }

  /** A chain that ends never meets one id twice. */
  lemma {:induction false} WalkDistinct(d: Disk, start: string, cap: nat, i: nat, j: nat)
    requires Walk(d, start, cap).Some? && i < j < |Walk(d, start, cap).value|
    ensures Walk(d, start, cap).value[i] != Walk(d, start, cap).value[j]
  {
    var p := Walk(d, start, cap).value;
    WalkSuffix(d, start, cap, i);
    WalkSuffix(d, start, cap, j);
    if p[i] == p[j] {
      WalkMonotone(d, p[j], cap - j, cap - i);
    }
  }

  /** The part of a record a walk reads. */
  predicate SameRoute(a: Host, b: Host) {
    && a.id == b.id
    && if a.Ssh? then b.Ssh? && a.jump == b.jump else b.Rdp? && a.tunnel == b.tunnel
  }

  /** Two disks that agree on a chain have that chain in common. */
  lemma {:induction false} WalkAgrees(d: Disk, e: Disk, start: string, cap: nat)
    requires Walk(d, start, cap).Some?
    requires forall x | x in Walk(d, start, cap).value :: x in e && SameRoute(e[x], d[x])
    ensures Walk(e, start, cap) == Walk(d, start, cap)
    decreases cap
  {
    if start != "" {
      var rest := Walk(d, d[start].jump, cap - 1).value;
      assert Walk(d, start, cap).value == [start] + rest;
      WalkAgrees(d, e, d[start].jump, cap - 1);
    }
  }

  /** Whatever has been walked is a prefix of the finished chain, if there is one. */
  ghost predicate Walked(d: Disk, start: string, w: seq<Id>, cursor: string)
    decreases |w|
  {
    if w == [] then cursor == start
    else
      && w[0] == start && start != ""
      && start in d && d[start].Ssh?
      && Walked(d, d[start].jump, w[1..], cursor)
  }

  lemma {:induction false} WalkedExtend(d: Disk, start: string, w: seq<Id>, cursor: string)
    requires Walked(d, start, w, cursor) && cursor != "" && cursor in d && d[cursor].Ssh?
    ensures Walked(d, start, w + [cursor], d[cursor].jump)
    decreases |w|
  {
    if w != [] {
      WalkedExtend(d, d[start].jump, w[1..], cursor);
      assert (w + [cursor])[1..] == w[1..] + [cursor];
    } else {
      assert (w + [cursor])[1..] == [];
    }
  }

  lemma {:induction false} WalkedPrefix(d: Disk, start: string, w: seq<Id>, cursor: string, cap: nat)
    requires Walked(d, start, w, cursor)
    ensures |w| > cap ==> Walk(d, start, cap).None?
    ensures |w| <= cap ==>
              match Walk(d, cursor, cap - |w|)
              case None => Walk(d, start, cap).None?
              case Some(rest) => Walk(d, start, cap) == Some(w + rest)
    decreases |w|
  {
    if w == [] {
      assert forall rest: seq<Id> :: w + rest == rest;
    } else if cap > 0 {
      WalkedPrefix(d, d[start].jump, w[1..], cursor, cap - 1);
      assert forall rest: seq<Id> :: [start] + (w[1..] + rest) == w + rest;
    }
  }

  /** A cursor that comes back to where it has been never reaches an end. */
  lemma {:induction false} WalkedRepeat(d: Disk, start: string, w: seq<Id>, cursor: string, cap: nat)
    requires Walked(d, start, w, cursor) && cursor in w
    ensures Walk(d, start, cap).None?
  {
    WalkedPrefix(d, start, w, cursor, cap);
    if Walk(d, start, cap).Some? {
      var p := Walk(d, start, cap).value;
      var rest := Walk(d, cursor, cap - |w|).value;
      assert cursor != "" by {
        var k :| 0 <= k < |w| && w[k] == cursor;
        WalkSuffix(d, start, cap, k);
      }
      assert rest[0] == cursor;
      var k :| 0 <= k < |w| && w[k] == cursor;
      assert p[k] == p[|w|];
      WalkDistinct(d, start, cap, k, |w|);
    }
  }

  datatype ChainError = Cycle | Missing | NotSsh | TooLong
  datatype ChainResult = Chain(hops: seq<Id>) | Refused(why: ChainError)

  /** The walk has come this far without a repeat and without the host itself. */
  ghost predicate Straight(d: Disk, start: string, self: Id, w: seq<Id>, cursor: string) {
    && Walked(d, start, w, cursor) && self !in w
    && forall i, j | 0 <= i < j < |w| :: w[i] != w[j]
  }

  /** `jumpChain`: the store's walk. It succeeds exactly on a chain `Walk` finishes
      within the cap and that avoids the host itself, and then reports that chain;
      otherwise it names what the walk met first. */
  method JumpChain(start: string, self: Id, d: Disk, cap: nat) returns (r: ChainResult)
    ensures r.Chain? <==> Resolves(d, self, start, cap)
    ensures r.Chain? ==> Walk(d, start, cap) == Some(r.hops)
    ensures r == Refused(Missing) || r == Refused(NotSsh) ==>
              exists w, c :: Straight(d, start, self, w, c) && |w| <= cap && c != "" && c != self
                             && (if r.why == Missing then c !in d else c in d && d[c].Rdp? && c !in w)
    ensures r == Refused(TooLong) ==> exists w, c :: Straight(d, start, self, w, c) && |w| == cap + 1
    ensures r == Refused(Cycle) ==>
              exists w, c :: Straight(d, start, self, w, c) && |w| <= cap && c != "" && (c == self || c in w)
  {
    var visited := {self};
    var chain: seq<Id> := [];
    var cursor := start;
    while cursor != ""
      invariant Straight(d, start, self, chain, cursor) && |chain| <= cap
      invariant visited == (set x | x in chain) + {self}
      decreases cap - |chain|
    {
      WalkedPrefix(d, start, chain, cursor, cap);
      if cursor in visited {
        if cursor in chain {
          WalkedRepeat(d, start, chain, cursor, cap);
        }
        return Refused(Cycle);
      }
      visited := visited + {cursor};
      if cursor !in d {
        return Refused(Missing);
      }
      if !d[cursor].Ssh? {
        return Refused(NotSsh);
      }
      WalkedExtend(d, start, chain, cursor);
      WalkedPrefix(d, start, chain + [cursor], d[cursor].jump, cap);
      chain := chain + [cursor];
      if |chain| > cap {
        assert Straight(d, start, self, chain, d[cursor].jump);
        return Refused(TooLong);
      }
      cursor := d[cursor].jump;
    }
    WalkedPrefix(d, start, chain, cursor, cap);
    assert chain + [] == chain;
    return Chain(chain);
  }

  /** `chainResolves`: the parser's prediction of the same walk, over the union of
      the file and the store. */
  method ChainResolves(self: Id, start: string, byId: Disk, cap: nat) returns (ok: bool)
    ensures ok == Resolves(byId, self, start, cap)
  {
    var visited := {self};
    ghost var chain: seq<Id> := [];
    var cursor := start;
    var hops := 0;
    while cursor != ""
      invariant Walked(byId, start, chain, cursor)
      invariant hops == |chain| <= cap
      invariant visited == (set x | x in chain) + {self}
      invariant self !in chain
      decreases cap - hops
    {
      WalkedPrefix(byId, start, chain, cursor, cap);
      if cursor in visited {
        if cursor in chain {
          WalkedRepeat(byId, start, chain, cursor, cap);
        }
        return false;
      }
      visited := visited + {cursor};
      if cursor !in byId || !byId[cursor].Ssh? {
        return false;
      }
      WalkedExtend(byId, start, chain, cursor);
      WalkedPrefix(byId, start, chain + [cursor], byId[cursor].jump, cap);
      chain := chain + [cursor];
      hops := hops + 1;
      if hops > cap {
        return false;
      }
      cursor := byId[cursor].jump;
    }
    WalkedPrefix(byId, start, chain, cursor, cap);
    assert chain + [] == chain;
    return true;
  }

  /** `referenceOf`: the id a host reaches another host through, "" when it reaches
      none. */
  function ReferenceOf(h: Host): string {
    match h
    case Ssh(_, _, _, _, jump) => jump
    case Rdp(_, _, _, _, tunnel) => if tunnel.Some? then tunnel.value else ""
  }

  /** The reference a host carries is one the store takes. A blank tunnel is the
      one reference that names nothing and is refused all the same. */
  predicate Acceptable(h: Host, d: Disk, cap: nat) {
    && !(h.Rdp? && h.tunnel == Some(""))
    && (ReferenceOf(h) == "" || Resolves(d, h.id, ReferenceOf(h), cap))
  }

  datatype ReferenceError = OwnTarget | NoTarget | RdpTarget | BlankTunnel | BadChain(why: ChainError)

  /** `assertReferences`: the write guard, judged against the store as it stands. */
  method AssertReferences(h: Host, d: Disk, cap: nat) returns (refusal: Option<ReferenceError>)
    ensures refusal.None? <==> Acceptable(h, d, cap)
    ensures var target := ReferenceOf(h);
            && (refusal == Some(BlankTunnel) <==> h.Rdp? && h.tunnel == Some(""))
            && (refusal == Some(OwnTarget) <==> target != "" && target == h.id)
            && (refusal == Some(NoTarget) <==> target != "" && target != h.id && target !in d)
            && (refusal == Some(RdpTarget) <==> target != "" && target != h.id && target in d && d[target].Rdp?)
  {
    var target := ReferenceOf(h);
    if h.Ssh? {
      if target == "" {
        return None;
      }
    } else {
      if h.tunnel.None? {
        return None;
      }
      if target == "" {
        return Some(BlankTunnel);
      }
    }
    if target == h.id {
      WalkHead(d, target, cap);
      return Some(OwnTarget);
    }
    if target !in d {
      return Some(NoTarget);
    }
    if !d[target].Ssh? {
      return Some(RdpTarget);
    }
    var r := JumpChain(target, h.id, d, cap);
    return match r case Chain(_) => None case Refused(why) => Some(BadChain(why));
  }

  lemma WalkHead(d: Disk, start: string, cap: nat)
    requires start != ""
    ensures Walk(d, start, cap).Some? ==> start in Walk(d, start, cap).value
  {
  }
}
