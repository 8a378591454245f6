/**
 The promises of the two halves of forwarding, read off the invariant: no orphaned
 listener, no entry over a dead one, one owner per rule, one run per epoch, and no
 claim out of an epoch that is over.
 */
module ForwardOwnership {
  import Records
  import P = PageForwards
  import opened TerminalForwards
  import opened TerminalRuns

  /** No run is between a bind and its checks or awaiting a close, no close is owed,
      and none reported a failure. */
  ghost predicate Quiet(n: Net) {
    && (forall e | e in n.runs :: !Grips(n.runs[e]))
    && n.stopping == {} && n.lost == {}
  }

  /** In every reachable state each open listener has exactly one holder, the entries
      are all open, and no two rules share one; once things are quiet, what is open is
      exactly what the map names. */
  lemma NoOrphans(run: seq<Event>)
    ensures var n := Exec(INIT, run).net;
            && (forall l | l in n.live :: Holders(n, l) == 1)
            && (forall r | r in n.owned :: n.owned[r] in n.live)
            && (forall r, x | r in n.owned && x in n.owned && r != x :: n.owned[r] != n.owned[x])
            && (Quiet(n) ==> n.live == n.owned.Values)
  {
    var n := Exec(INIT, run).net;
    RunKeeps(run);
    forall l | l in n.live
      ensures Holders(n, l) == 1
      ensures Quiet(n) ==> l in n.owned.Values
    {
      assert HeldOnce(n, l);
      if Quiet(n) {
        assert InMap(n, l);
        assert n.origin[l].rule in n.owned;
      }
    }
    forall r | r in n.owned
      ensures n.owned[r] in n.live && EntryOk(n, r)
    {
      assert EntryOk(n, r);
      assert HeldOnce(n, n.owned[r]) && InMap(n, n.owned[r]);
    }
  }

  /** The page never has a rule running that a terminal has claimed. */
  lemma NeverTwoOwners(run: seq<Event>, rule: RuleId)
    ensures var s := Exec(INIT, run);
            !(rule in s.net.owned && PageOf(s, rule).status.Running?)
  {
    RunKeeps(run);
  }

  ghost predicate OneOwner(s: Sys, rule: RuleId) {
    (rule in s.net.owned) != PageOf(s, rule).status.Running?
  }

  /** A bind that reaches its checks on a live session leaves the rule with exactly one
      owner, and so does a Start's dial that resolves unsuperseded: whoever comes second
      yields, and never both. */
  lemma SomeoneOwns(run: seq<Event>, e: Epoch, rule: RuleId, a: P.Attempt)
    ensures var s := Exec(INIT, run);
            && (PhaseOf(s.net, e).Holding? && StillLive(s.tabs, e) ==>
                  OneOwner(Step(s, PostBind(e)), PhaseOf(s.net, e).rule))
            && (a in PageOf(s, rule).dials && PageOf(s, rule).current == Records.Some(a) ==>
                  OneOwner(Step(s, OnPage(rule, P.Resolve(a))), rule))
  {
    var s := Exec(INIT, run);
    RunKeeps(run);
    if PhaseOf(s.net, e).Holding? && StillLive(s.tabs, e) {
      BindLeavesOne(s, e);
    }
    if a in PageOf(s, rule).dials && PageOf(s, rule).current == Records.Some(a) {
      DialLeavesOne(s, rule, a);
    }
  }

  lemma BindLeavesOne(s: Sys, e: Epoch)
    requires ExclusionInv(s) && PhaseOf(s.net, e).Holding? && StillLive(s.tabs, e)
    ensures OneOwner(Step(s, PostBind(e)), PhaseOf(s.net, e).rule)
  {
    SettleExclusion(s, e);
  }

  lemma DialLeavesOne(s: Sys, rule: RuleId, a: P.Attempt)
    requires ExclusionInv(s) && a in PageOf(s, rule).dials && PageOf(s, rule).current == Records.Some(a)
    ensures OneOwner(Step(s, OnPage(rule, P.Resolve(a))), rule)
  {
  }

  // ------------------------------------------------------------------- epochs

  ghost predicate TabOpen(t: Tabs, session: Session) {
    exists x :: x in t.attached && t.attached[x].session == session
  }

  /** Over every run of attaches and detaches, a session has an epoch exactly while a
      tab is attached to it, and an attach starts a run exactly when none was. */
  lemma OneRunPerEpoch(run: seq<Event>, session: Session)
    ensures var s := Exec(INIT, run);
            var q := Step(s, Attach(session));
            && (session in s.tabs.epochs <==> TabOpen(s.tabs, session))
            && (TabOpen(s.tabs, session) ==> q.net.runs == s.net.runs)
            && (!TabOpen(s.tabs, session) ==>
                  exists e: Epoch :: e !in s.net.runs && q.net.runs == s.net.runs[e := Reading]
                              && q.tabs.epochs == s.tabs.epochs[session := e])
  {
    var s := Exec(INIT, run);
    RunKeeps(run);
    EpochIffTab(s.tabs, session);
    if !TabOpen(s.tabs, session) {
      assert |s.tabs.sessions| !in s.tabs.sessions;
    }
  }

  /** The detach of the last tab takes every entry of its session out of the map and
      owes each of them a close, and touches no other session's; any other detach, a
      repeated one included, leaves the map alone. */
  lemma LastDetachReleases(run: seq<Event>, tab: Tab)
    ensures var s := Exec(INIT, run);
            var q := Step(s, Detach(tab));
            if tab in s.tabs.attached && !TabOpen(q.tabs, s.tabs.attached[tab].session)
            then
              var session := s.tabs.attached[tab].session;
              && session !in q.tabs.epochs
              && (forall r :: r in q.net.owned <==> r in s.net.owned && s.net.owned[r].session != session)
              && (forall r | r in s.net.owned && s.net.owned[r].session == session :: s.net.owned[r] in q.net.stopping)
            else q.net == s.net
  {
    var s := Exec(INIT, run);
    RunKeeps(run);
    if tab in s.tabs.attached {
      var session := s.tabs.attached[tab].session;
      DetachKeepsTabs(s.tabs, tab);
      EpochIffTab(DetachTab(s.tabs, tab), session);
      EpochIffTab(s.tabs, session);
      DetachEndsEpoch(s.tabs, tab);
    }
  }

  /** A session has an epoch exactly while a tab is attached to it. */
  lemma EpochIffTab(t: Tabs, session: Session)
    requires TabsInv(t)
    ensures session in t.epochs <==> TabOpen(t, session)
  {
    if session in t.epochs {
      assert EpochOk(t, session);
      var x :| x in TabsOn(t, t.epochs[session]);
      assert TabOk(t, x) && EpochOk(t, t.attached[x].session);
    }
    if TabOpen(t, session) {
      var x :| x in t.attached && t.attached[x].session == session;
      assert TabOk(t, x);
    }
  }

  /** The only epoch a detach can end is its own session's. */
  lemma DetachEndsEpoch(t: Tabs, tab: Tab)
    requires TabsInv(t) && tab in t.attached
    ensures DetachTab(t, tab).epochs == t.epochs <==> t.attached[tab].session in DetachTab(t, tab).epochs
  {
    assert TabOk(t, tab);
  }

  /** An epoch that is over stays over. */
  lemma {:induction false} OverForGood(s: Sys, e: Epoch, run: seq<Event>)
    requires TabsInv(s.tabs) && e in s.tabs.sessions && !StillLive(s.tabs, e)
    ensures var q := Exec(s, run);
            TabsInv(q.tabs) && e in q.tabs.sessions && !StillLive(q.tabs, e)
  {
    if run != [] {
      var n := |run| - 1;
      OverForGood(s, e, run[..n]);
      OverStep(Exec(s, run[..n]), e, run[n]);
    }
  }

  lemma OverStep(s: Sys, e: Epoch, ev: Event)
    requires TabsInv(s.tabs) && e in s.tabs.sessions && !StillLive(s.tabs, e)
    ensures var q := Step(s, ev);
            TabsInv(q.tabs) && e in q.tabs.sessions && !StillLive(q.tabs, e)
  {
    match ev
    case Attach(session) =>
      AttachKeepsTabs(s.tabs, session);
      OverAfterAttach(s.tabs, e, session);
    case Detach(tab) => DetachKeepsTabs(s.tabs, tab);
    case _ =>
  }

  lemma OverAfterAttach(t: Tabs, e: Epoch, session: Session)
    requires TabsInv(t) && e in t.sessions && !StillLive(t, e)
    ensures e in AttachTab(t, session).sessions && !StillLive(AttachTab(t, session), e)
  {
  }

  /** A bind asked for in an epoch that has since ended never becomes a claim: nothing
      an over epoch opened is in the map, then or at any later point, whatever epochs
      the session has had since. */
  lemma LateBindNeverClaims(before: seq<Event>, e: Epoch, later: seq<Event>, r: RuleId)
    requires var s := Exec(INIT, before);
             e in s.tabs.sessions && !StillLive(s.tabs, e)
    ensures var q := Exec(Exec(INIT, before), later);
            r in q.net.owned ==> q.net.owned[r] in q.net.origin && q.net.origin[q.net.owned[r]].epoch != e
  {
    RunKeeps(before);
    RunKeepsFrom(Exec(INIT, before), later);
    OverForGood(Exec(INIT, before), e, later);
  }

  // ------------------------------------------------------- a retry left behind

  /** The launch dial of rule "r" fails and its retry is pending. */
  const FAILED_RETRYING: P.Page :=
    P.Page(P.Failed, Records.None, map[], multiset{}, {}, Records.Some(P.Timer(0, 1)), {P.Timer(0, 1)}, 1,
           [P.Ladder(1, [1000], 0)])

  const FAIL: seq<Event> := [OnPage("r", P.Autostart), OnPage("r", P.Reject(0, true))]

  lemma LaunchFails()
    ensures Exec(INIT, FAIL) == INIT.(pages := map["r" := FAILED_RETRYING])
  {
    var dialling := P.Page(P.Starting, Records.Some(0), map[0 := P.Rung(0, 0)], multiset{}, {}, Records.None, {}, 1,
                           [P.Ladder(1, [], 0)]);
    assert P.Step(P.IDLE, false, P.Autostart) == dialling by {
      assert [] + [P.Ladder(0, [], 0)] == [P.Ladder(0, [], 0)];
      assert [P.Ladder(0, [], 0)][0 := P.Ladder(1, [], 0)] == [P.Ladder(1, [], 0)];
    }
    assert P.Step(dialling, false, P.Reject(0, true)) == FAILED_RETRYING by {
      assert dialling.dials - {0} == map[] && {} + {P.Timer(0, 1)} == {P.Timer(0, 1)};
      assert [] + [P.BACKOFF[0]] == [1000];
      assert [P.Ladder(1, [], 0)][0 := P.Ladder(1, [1000], 0)] == [P.Ladder(1, [1000], 0)];
    }
    var r1 := [] + [OnPage("r", P.Autostart)];
    ExecSnoc(INIT, [], OnPage("r", P.Autostart));
    ExecSnoc(INIT, r1, OnPage("r", P.Reject(0, true)));
    assert FAIL == r1 + [OnPage("r", P.Reject(0, true))];
    assert Exec(INIT, r1).pages == map["r" := dialling];
  }

  const L: Listener := Listener(7, 18080, 1)
  const TAKE: seq<Event> := [Attach(7), ListRules(0, ["r"]), NextRule(0), BindOk(0, 18080, 1), PostBind(0)]

  /** Session 7 with its one tab, its run in `phase`, and what it has opened and owns. */
  function One7(phase: Phase, bound: bool, owns: bool): Sys {
    Sys(Tabs(map[7 := 0], map[0 := 1], map[0 := Handle(7, 0)], map[0 := 7], 1),
        Net(map[0 := phase], if owns then map["r" := L] else map[], if bound then {L} else {}, {}, {},
            if bound then map[L := Opener(0, "r")] else map[]),
        map["r" := if owns then FAILED_RETRYING.(status := P.Stopped) else FAILED_RETRYING])
  }

  lemma TakeAttach()
    ensures Step(INIT.(pages := map["r" := FAILED_RETRYING]), Attach(7)) == One7(Reading, false, false)
  {
  }

  lemma TakeList()
    ensures Step(One7(Reading, false, false), ListRules(0, ["r"])) == One7(Idle(["r"]), false, false)
  {
  }

  lemma TakeBind()
    ensures Step(One7(Binding("r", []), false, false), BindOk(0, 18080, 1)) == One7(Holding("r", L, []), true, false)
  {
  }

  lemma TakeNext()
    ensures Step(One7(Idle(["r"]), false, false), NextRule(0)) == One7(Binding("r", []), false, false)
  {
    assert ["r"][1..] == [];
  }

  lemma TakeClaim()
    ensures Step(One7(Holding("r", L, []), true, false), PostBind(0)) == One7(Idle([]), true, true)
  {
  }

  const BIND: seq<Event> := [Attach(7), ListRules(0, ["r"]), NextRule(0), BindOk(0, 18080, 1)]

  /** A terminal on session 7 then binds the same rule. */
  lemma TerminalBinds(s: Sys)
    requires s == INIT.(pages := map["r" := FAILED_RETRYING])
    ensures Exec(s, BIND) == One7(Holding("r", L, []), true, false)
  {
    TakeAttach();
    TakeList();
    TakeNext();
    TakeBind();
    var r0: seq<Event> := [];
    var r1 := r0 + [Attach(7)];
    var r2 := r1 + [ListRules(0, ["r"])];
    var r3 := r2 + [NextRule(0)];
    ExecSnoc(s, r0, Attach(7));
    ExecSnoc(s, r1, ListRules(0, ["r"]));
    ExecSnoc(s, r2, NextRule(0));
    ExecSnoc(s, r3, BindOk(0, 18080, 1));
    assert BIND == r3 + [BindOk(0, 18080, 1)];
  }

  /** And claims it. */
  lemma TerminalTakes(s: Sys)
    requires s == INIT.(pages := map["r" := FAILED_RETRYING])
    ensures Exec(s, TAKE) == One7(Idle([]), true, true)
  {
    TerminalBinds(s);
    TakeClaim();
    ExecSnoc(s, BIND, PostBind(0));
    assert TAKE == BIND + [PostBind(0)];
  }

  /** A row can be terminal-owned and starting: the page's Start begins while the bind
      is out, and the claim lands before the dial does. */
  lemma OwnedWhileStarting()
    ensures var s := Exec(Exec(INIT, FAIL), BIND + [OnPage("r", P.Start)] + [PostBind(0)]);
            "r" in s.net.owned && PageOf(s, "r").status == P.Starting
  {
    LaunchFails();
    var s := Exec(INIT, FAIL);
    TerminalBinds(s);
    ExecSnoc(s, BIND, OnPage("r", P.Start));
    ExecSnoc(s, BIND + [OnPage("r", P.Start)], PostBind(0));
    StartThenClaim();
  }

  ghost predicate OwnedStarting(s: Sys, rule: RuleId) {
    rule in s.net.owned && PageOf(s, rule).status.Starting?
  }

  /** A claim over a page that is dialling. */
  ghost predicate ClaimsStarting(s: Sys, ev: Event, rule: RuleId) {
    && ev.PostBind? && PhaseOf(s.net, ev.run).Holding? && PhaseOf(s.net, ev.run).rule == rule
    && StillLive(s.tabs, ev.run) && rule !in s.net.owned && PageOf(s, rule).status.Starting?
  }

  /** Exactly such a claim makes a rule terminal-owned while the page reads starting. */
  lemma EntersOwnedStarting(s: Sys, ev: Event, rule: RuleId)
    requires !OwnedStarting(s, rule)
    ensures OwnedStarting(Step(s, ev), rule) <==> ClaimsStarting(s, ev, rule)
  {
    match ev
    case OnPage(r, e) =>
      if r == rule && rule in s.net.owned {
        OwnedNeverStarts(PageOf(s, rule), e);
      }
    case PostBind(e) => BindEntersOwnedStarting(s, e, rule);
    case _ =>
  }

  lemma BindEntersOwnedStarting(s: Sys, e: Epoch, rule: RuleId)
    requires !OwnedStarting(s, rule)
    ensures OwnedStarting(Step(s, PostBind(e)), rule) <==> ClaimsStarting(s, PostBind(e), rule)
  {
  }

  /** No page step on a terminal's rule makes the row starting. */
  lemma OwnedNeverStarts(p: P.Page, e: P.Event)
    requires !p.status.Starting?
    ensures !P.Step(p, true, e).status.Starting?
  {
  }

  lemma StartThenClaim()
    ensures var s := Step(Step(One7(Holding("r", L, []), true, false), OnPage("r", P.Start)), PostBind(0));
            "r" in s.net.owned && PageOf(s, "r").status == P.Starting
  {
    var s := Step(One7(Holding("r", L, []), true, false), OnPage("r", P.Start));
    assert PageOf(s, "r").status == P.Starting && s.net == One7(Holding("r", L, []), true, false).net;
  }

  /** A rule can be terminal-owned with a page retry pending, and a release of it then
      cancels nothing: when the tab closes, the timer dials the released rule. */
  lemma ReleaseUnderTerminalStillDials()
    ensures var taken := Exec(Exec(INIT, FAIL), TAKE);
            var released := Step(taken, OnPage("r", P.Release));
            var fired := Step(Step(released, Detach(0)), OnPage("r", P.Fire(P.Timer(0, 1))));
            && "r" in taken.net.owned && PageOf(taken, "r").retry.Some?
            && released.pages == taken.pages
            && PageOf(fired, "r").status == P.Starting && 1 in PageOf(fired, "r").dials
  {
    LaunchFails();
    TerminalTakes(Exec(INIT, FAIL));
    ReleasedThenGone();
  }

  lemma ReleasedThenGone()
    ensures var taken := One7(Idle([]), true, true);
            var released := Step(taken, OnPage("r", P.Release));
            var gone := Step(released, Detach(0));
            var fired := Step(gone, OnPage("r", P.Fire(P.Timer(0, 1))));
            && released.pages == taken.pages
            && PageOf(fired, "r").status == P.Starting && 1 in PageOf(fired, "r").dials
  {
    var taken := One7(Idle([]), true, true);
    var released := Step(taken, OnPage("r", P.Release));
    var gone := Step(released, Detach(0));
    assert PageOf(released, "r") == PageOf(taken, "r") == PageOf(gone, "r");
    assert "r" !in gone.net.owned;
  }
}
