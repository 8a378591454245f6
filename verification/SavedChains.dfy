/**
 What an import does to the chains of hosts it does NOT write. The clearing passes
 judge the file's own rows only, so a saved host whose chain runs into a row of the
 file can find that chain lengthened. It can never find it broken in another way.
 */
module SavedChains {
  import opened Records
  import opened JumpChains
  import opened HostImport

  /** What the import plans, known before anything is written: the cleared rows over
      the saved ones. */
  function Plan(incoming: seq<Host>, existing: Disk, cap: nat): Disk {
    Overlay(Cleared(incoming, existing, cap), existing)
  }

  /** The state `ImportHosts` leaves. */
  ghost predicate Imported(d: Disk, incoming: seq<Host>, existing: Disk, order: seq<Host>, cap: nat) {
    PlannedOrder(order, incoming, existing, cap) && WrittenSoFar(d, existing, order, map[])
  }

  /** Two stores with the same hosts on the same routes. */
  ghost predicate SameRoutes(d: Disk, e: Disk) {
    forall x :: (x in d <==> x in e) && (x in d ==> SameRoute(d[x], e[x]))
  }

  lemma {:induction false} SameRoutesWalk(d: Disk, e: Disk, start: string, n: nat)
    requires SameRoutes(d, e)
    ensures Walk(d, start, n) == Walk(e, start, n)
    decreases n
  {
    if start != "" && n > 0 && start in d && d[start].Ssh? {
      assert SameRoute(d[start], e[start]);
      SameRoutesWalk(d, e, d[start].jump, n - 1);
    }
  }

  /** What is stored afterwards routes exactly as planned. */
  lemma StoredAsPlanned(d: Disk, incoming: seq<Host>, existing: Disk, order: seq<Host>, cap: nat)
    requires Imported(d, incoming, existing, order, cap) && Keyed(existing)
    ensures SameRoutes(d, Plan(incoming, existing, cap))
  {
    var cleared := Cleared(incoming, existing, cap);
    ClearedIsResolved(incoming, existing, cap);
    OverlayKeys(cleared, existing);
    assert order[..|order|] == order;
    forall x
      ensures x in d <==> x in Plan(incoming, existing, cap)
      ensures x in d ==> SameRoute(d[x], Plan(incoming, existing, cap)[x])
    {
      if x in Plan(incoming, existing, cap) {
        HopIsStored(Overlay(cleared, map[]), Plan(incoming, existing, cap), existing, order, |order|, d, map[], x, cap);
      } else {
        assert x !in HostIds(order);
        assert Lookup(d, x) == Lookup(existing, x);
      }
    }
  }

  /** A chain saved before the import still ends in the plan, after at most `cap` more
      hops. */
  lemma {:induction false} SavedChainEnds(incoming: seq<Host>, existing: Disk, start: string, n: nat, cap: nat)
    requires Keyed(existing)
    requires forall h | h in incoming && h.id in existing :: h.Ssh? <==> existing[h.id].Ssh?
    requires Walk(existing, start, n).Some?
    ensures Walk(Plan(incoming, existing, cap), start, n + cap).Some?
    decreases n
  {
    var plan := Plan(incoming, existing, cap);
    if start == "" {
    } else if start in HostIds(incoming) {
      PlannedRow(incoming, existing, start, cap);
      WalkMonotone(plan, plan[start].jump, cap, n - 1 + cap);
    } else {
      ClearedResolves(incoming, existing, cap);
      OverlayOutside(Cleared(incoming, existing, cap), existing, start);
      SavedChainEnds(incoming, existing, existing[start].jump, n - 1, cap);
    }
  }

  /** A row of the file is planned under its own protocol, and resolves. */
  lemma PlannedRow(incoming: seq<Host>, existing: Disk, x: Id, cap: nat)
    requires Keyed(existing) && x in HostIds(incoming) && x in existing
    requires forall h | h in incoming && h.id in existing :: h.Ssh? <==> existing[h.id].Ssh?
    ensures var plan := Plan(incoming, existing, cap);
            && x in plan && (plan[x].Ssh? <==> existing[x].Ssh?)
            && (ReferenceOf(plan[x]) != "" ==> Resolves(plan, x, ReferenceOf(plan[x]), cap))
  {
    var cleared := Cleared(incoming, existing, cap);
    ClearedResolves(incoming, existing, cap);
    OverlayIsRow(cleared, existing, x);
    var i :| 0 <= i < |cleared| && cleared[i] == Overlay(cleared, existing)[x];
    ClearedExactly(incoming, existing, cap, i);
    assert incoming[i] in incoming;
  }

  /** A saved host the file does not mention keeps its record, and its chain still
      reaches an end through SSH hosts without meeting itself. The store goes on taking
      it exactly when it resolves in the plan, which a caller can ask before any write. */
  lemma SavedChainsSurvive(d: Disk, incoming: seq<Host>, existing: Disk, order: seq<Host>, x: Id, cap: nat)
    requires Imported(d, incoming, existing, order, cap) && Keyed(existing)
    requires forall h | h in incoming && h.id in existing :: h.Ssh? <==> existing[h.id].Ssh?
    requires x in existing && x !in HostIds(incoming)
    requires Resolves(existing, x, ReferenceOf(existing[x]), cap)
    ensures x in d && d[x] == existing[x]
    ensures Resolves(d, x, ReferenceOf(d[x]), cap + cap)
    ensures Resolves(d, x, ReferenceOf(existing[x]), cap)
            <==> Resolves(Plan(incoming, existing, cap), x, ReferenceOf(existing[x]), cap)
  {
    var r := ReferenceOf(existing[x]);
    UnmentionedIsKept(d, incoming, existing, order, x, cap);
    StoredAsPlanned(d, incoming, existing, order, cap);
    SavedChainEnds(incoming, existing, r, cap, cap);
    ChainStillEnds(d, Plan(incoming, existing, cap), x, cap + cap);
    SameRoutesResolve(d, Plan(incoming, existing, cap), x, r, cap);
  }

  lemma UnmentionedIsKept(d: Disk, incoming: seq<Host>, existing: Disk, order: seq<Host>, x: Id, cap: nat)
    requires Imported(d, incoming, existing, order, cap) && x in existing && x !in HostIds(incoming)
    ensures x in d && d[x] == existing[x]
  {
    assert HostIds(order) == HostIds(incoming);
    assert Lookup(d, x) == Lookup(existing, x);
  }

  lemma ChainStillEnds(d: Disk, plan: Disk, x: Id, n: nat)
    requires SameRoutes(d, plan) && x in d && Walk(plan, ReferenceOf(d[x]), n).Some?
    ensures Resolves(d, x, ReferenceOf(d[x]), n)
  {
    SameRoutesWalk(d, plan, ReferenceOf(d[x]), n);
    NotOnOwnChain(d, x, n);
  }

  /** Stores that route alike resolve alike. */
  lemma SameRoutesResolve(d: Disk, e: Disk, x: Id, r: string, n: nat)
    requires SameRoutes(d, e)
    ensures Walk(d, r, n) == Walk(e, r, n)
    ensures Resolves(d, x, r, n) <==> Resolves(e, x, r, n)
  {
    SameRoutesWalk(d, e, r, n);
  }

  /** A chain that ends does not come back to the host it starts from. */
  lemma NotOnOwnChain(d: Disk, x: Id, n: nat)
    requires x in d && Walk(d, ReferenceOf(d[x]), n).Some?
    ensures x !in Walk(d, ReferenceOf(d[x]), n).value
  {
    var r := ReferenceOf(d[x]);
    if x in Walk(d, r, n).value {
      var k :| 0 <= k < |Walk(d, r, n).value| && Walk(d, r, n).value[k] == x;
      WalkSuffix(d, r, n, k);
      assert Walk(d, x, n + 1).value == [x] + Walk(d, r, n).value;
      WalkDistinct(d, x, n + 1, 0, k + 1);
    }
  }

  /** The i-th host of a straight line of hosts. */
  function Hop(i: nat): Id {
    seq(i + 1, _ => 'h')
  }

  function Row(i: nat, next: string): Host {
    Ssh(Hop(i), "", None, Bound("i"), next)
  }

  /** Hosts 0 to `n`, each jumping through the next. */
  function Line(n: nat): Disk {
    map s | s in (set i | 0 <= i <= n :: Hop(i)) :: Row(|s| - 1, if |s| <= n then Hop(|s|) else "")
  }

  /** One host of a straight line that ends at `top`. */
  ghost predicate LineAt(d: Disk, j: nat, top: nat) {
    Hop(j) in d && d[Hop(j)].Ssh? && d[Hop(j)].jump == if j < top then Hop(j + 1) else ""
  }

  /** A straight line from `i` to `top` is walked by a budget of its own length. */
  lemma {:induction false} LineWalk(d: Disk, i: nat, top: nat, n: nat)
    requires i <= top && forall j: nat | i <= j <= top :: LineAt(d, j, top)
    ensures Walk(d, Hop(i), n).Some? <==> top - i + 1 <= n
    ensures Walk(d, Hop(i), n).Some? ==> forall x | x in Walk(d, Hop(i), n).value :: |x| > i
    decreases top - i
  {
    assert LineAt(d, i, top);
    if i < top && n > 0 {
      LineWalk(d, i + 1, top, n - 1);
    }
  }

  /** The cap can be exceeded: a saved chain of exactly `cap` hops, and a file that
      gives its last host a jump host of its own. Both rows of the file are kept,
      and afterwards the saved host is one hop over. */
  lemma ImportLengthensSavedChain(cap: nat)
    requires cap >= 1
    ensures var existing := Line(cap);
            var file := [Row(cap, Hop(cap + 1)), Row(cap + 1, "")];
            && Keyed(existing)
            && Resolves(existing, Hop(0), Hop(1), cap)
            && Cleared(file, existing, cap) == file
            && !Resolves(Plan(file, existing, cap), Hop(0), Hop(1), cap)
            && forall d, order | Imported(d, file, existing, order, cap) :: !Resolves(d, Hop(0), Hop(1), cap)
  {
    LineIsKeyed(cap);
    forall j: nat | 1 <= j <= cap ensures LineAt(Line(cap), j, cap) {
      assert |Hop(j)| == j + 1;
    }
    LineWalk(Line(cap), 1, cap, cap);
    FileRowsAreKept(cap);
    OneHopOver(cap);
    var existing, file := Line(cap), [Row(cap, Hop(cap + 1)), Row(cap + 1, "")];
    forall d, order | Imported(d, file, existing, order, cap) ensures !Resolves(d, Hop(0), Hop(1), cap) {
      StoredAsPlanned(d, file, existing, order, cap);
      SameRoutesWalk(d, Plan(file, existing, cap), Hop(1), cap);
    }
  }

  lemma LineIsKeyed(n: nat)
    ensures Keyed(Line(n))
  {
    forall s | s in Line(n) ensures Line(n)[s].id == s {
      var i: nat :| i <= n && s == Hop(i);
    }
  }

  lemma OneHopOver(cap: nat)
    requires cap >= 1
    ensures !Resolves(Overlay([Row(cap, Hop(cap + 1)), Row(cap + 1, "")], Line(cap)), Hop(0), Hop(1), cap)
  {
    var file := [Row(cap, Hop(cap + 1)), Row(cap + 1, "")];
    var d := Overlay(file, Line(cap));
    assert |Hop(cap)| == cap + 1 && |Hop(cap + 1)| == cap + 2;
    assert HostIds(file) == {Hop(cap), Hop(cap + 1)};
    assert DistinctHosts(file);
    OverlayAt(file, Line(cap), 0);
    OverlayAt(file, Line(cap), 1);
    var top := cap + 1;
    forall j: nat | 1 <= j <= top ensures LineAt(d, j, top) {
      assert |Hop(j)| == j + 1;
      if j < cap {
        assert Hop(j) in Line(cap) && Line(cap)[Hop(j)] == Row(j, Hop(j + 1));
        OverlayOutside(file, Line(cap), Hop(j));
      }
    }
    LineWalk(d, 1, top, cap);
  }

  lemma FileRowsAreKept(cap: nat)
    requires cap >= 1
    ensures var file := [Row(cap, Hop(cap + 1)), Row(cap + 1, "")];
            Cleared(file, Line(cap), cap) == file
  {
    var file := [Row(cap, Hop(cap + 1)), Row(cap + 1, "")];
    var byId := Overlay(file, Line(cap));
    assert |Hop(cap)| == cap + 1 && |Hop(cap + 1)| == cap + 2;
    assert DistinctHosts(file);
    OverlayAt(file, Line(cap), 1);
    assert LineAt(byId, cap + 1, cap + 1);
    LineWalk(byId, cap + 1, cap + 1, cap);
    assert ClearDanglingJumps(file, Line(cap), cap) == file;
  }
}
