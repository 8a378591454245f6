/**
 What every interleaving of tabs, runs, closes and page events keeps: one holder per
 open listener, one epoch per stretch of attached tabs, one owner per rule.
 */
module TerminalRuns {
  import P = PageForwards
  import opened TerminalForwards

  // ------------------------------------------------------------------- epochs

  lemma AttachKeepsTabs(t: Tabs, session: Session)
    requires TabsInv(t)
    ensures TabsInv(AttachTab(t, session))
  {
    var q := AttachTab(t, session);
    forall x | x in q.epochs
      ensures EpochOk(q, x)
    {
      AttachEpochOk(t, session, x);
    }
    forall x | x in q.attached
      ensures TabOk(q, x)
    {
      AttachTabOk(t, session, x);
    }
    if session !in t.epochs {
      assert |t.sessions| !in t.sessions;
    }
  }

  lemma AttachTabOk(t: Tabs, session: Session, x: Tab)
    requires TabsInv(t) && x in AttachTab(t, session).attached
    ensures TabOk(AttachTab(t, session), x)
  {
    if x in t.attached {
      assert TabOk(t, x);
    }
  }

  lemma AttachEpochOk(t: Tabs, session: Session, x: Session)
    requires TabsInv(t) && x in AttachTab(t, session).epochs
    ensures EpochOk(AttachTab(t, session), x)
  {
    assert t.nextTab in t.attached ==> TabOk(t, t.nextTab);
    if x != session {
      var q := AttachTab(t, session);
      assert EpochOk(t, x);
      assert session in t.epochs ==> EpochOk(t, session);
      assert TabsOn(q, q.epochs[x]) == TabsOn(t, q.epochs[x]);
    } else if session in t.epochs {
      assert EpochOk(t, session);
      AttachCounts(t, session);
    } else {
      NobodyOnFreshEpoch(t, |t.sessions|);
      AttachCounts(t, session);
    }
  }

  lemma NobodyOnFreshEpoch(t: Tabs, e: Epoch)
    requires TabsInv(t) && e !in t.sessions
    ensures TabsOn(t, e) == {}
  {
    forall y | y in t.attached
      ensures t.attached[y].epoch != e
    {
      assert TabOk(t, y) && EpochOk(t, t.attached[y].session);
    }
  }

  lemma AttachCounts(t: Tabs, session: Session)
    requires t.nextTab !in t.attached
    ensures var q := AttachTab(t, session);
            var e := q.epochs[session];
            |TabsOn(q, e)| == |TabsOn(t, e)| + 1
  {
    var q := AttachTab(t, session);
    var e := q.epochs[session];
    assert TabsOn(q, e) == TabsOn(t, e) + {t.nextTab};
  }

  lemma DetachKeepsTabs(t: Tabs, tab: Tab)
    requires TabsInv(t)
    ensures TabsInv(DetachTab(t, tab))
  {
    if tab in t.attached {
      var q := DetachTab(t, tab);
      assert TabOk(t, tab);
      forall x | x in q.epochs
        ensures EpochOk(q, x)
      {
        DetachEpochOk(t, tab, x);
      }
      forall x | x in q.attached
        ensures TabOk(q, x)
      {
        DetachTabOk(t, tab, x);
      }
    }
  }

  lemma DetachCounts(t: Tabs, tab: Tab)
    requires tab in t.attached
    ensures var e := t.attached[tab].epoch;
            TabsOn(DetachTab(t, tab), e) == TabsOn(t, e) - {tab} && |TabsOn(DetachTab(t, tab), e)| == |TabsOn(t, e)| - 1
  {
    assert tab in TabsOn(t, t.attached[tab].epoch);
  }

  lemma DetachEpochOk(t: Tabs, tab: Tab, x: Session)
    requires TabsInv(t) && tab in t.attached && x in DetachTab(t, tab).epochs
    ensures EpochOk(DetachTab(t, tab), x)
  {
    var q := DetachTab(t, tab);
    var session := t.attached[tab].session;
    assert TabOk(t, tab) && EpochOk(t, session) && EpochOk(t, x);
    DetachCounts(t, tab);
    if x != session {
      assert TabsOn(q, t.epochs[x]) == TabsOn(t, t.epochs[x]);
    }
  }

  lemma DetachTabOk(t: Tabs, tab: Tab, x: Tab)
    requires TabsInv(t) && tab in t.attached && x in DetachTab(t, tab).attached
    ensures TabOk(DetachTab(t, tab), x)
  {
    var session := t.attached[tab].session;
    assert TabOk(t, tab) && EpochOk(t, session) && TabOk(t, x);
    DetachCounts(t, tab);
    if t.attached[x].session == session {
      assert x in TabsOn(DetachTab(t, tab), t.attached[tab].epoch);
    }
  }

  // ------------------------------------------------------------------ holders

  /** A run that holds nothing before and after a step leaves every holder alone. */
  lemma QuietPhase(n: Net, e: Epoch, phase: Phase)
    requires NetInv(n) && !Grips(PhaseOf(n, e)) && !Grips(phase)
    ensures NetInv(At(n, e, phase))
  {
    var q := At(n, e, phase);
    forall l | l in q.origin
      ensures HeldOnce(q, l)
    {
      assert HeldOnce(n, l);
    }
    forall x
      ensures GripOk(q, x)
    {
      assert GripOk(n, x);
    }
    assert forall r | r in q.owned :: EntryOk(n, r);
  }

  /** The run that holds a listener may go on to close it. */
  lemma GripStays(n: Net, e: Epoch, rest: seq<RuleId>, stop: bool)
    requires NetInv(n) && PhaseOf(n, e).Holding?
    ensures NetInv(At(n, e, Closing(PhaseOf(n, e).l, rest, stop)))
  {
    var q := At(n, e, Closing(PhaseOf(n, e).l, rest, stop));
    forall l | l in q.origin
      ensures HeldOnce(q, l)
    {
      assert HeldOnce(n, l);
    }
    forall x
      ensures GripOk(q, x)
    {
      assert GripOk(n, x);
    }
    assert forall r | r in q.owned :: EntryOk(n, r);
  }

  lemma ListenerKeeps(n: Net, e: Epoch, rule: RuleId, l: Listener, rest: seq<RuleId>)
    requires NetInv(n) && !Grips(PhaseOf(n, e)) && l !in n.origin
    ensures NetInv(OpenListener(n, e, rule, l, rest))
  {
    var q := OpenListener(n, e, rule, l, rest);
    forall r | r in q.owned
      ensures EntryOk(q, r) && q.owned[r] != l
    {
      assert EntryOk(n, r);
    }
    forall k | k in q.origin
      ensures HeldOnce(q, k)
    {
      if k != l {
        assert HeldOnce(n, k);
        assert InRun(q, k) <==> InRun(n, k);
      }
    }
    forall x
      ensures GripOk(q, x)
    {
      assert GripOk(n, x);
    }
  }

  /** The claim moves the listener from the run to the map. */
  lemma ClaimKeeps(n: Net, e: Epoch)
    requires NetInv(n) && PhaseOf(n, e).Holding? && PhaseOf(n, e).rule !in n.owned
    ensures var phase := PhaseOf(n, e);
            NetInv(Claim(n, e, phase.rule, phase.l, phase.rest))
  {
    var Holding(rule, l, rest) := PhaseOf(n, e);
    var q := Claim(n, e, rule, l, rest);
    assert GripOk(n, e);
    forall k | k in q.origin
      ensures HeldOnce(q, k)
    {
      assert HeldOnce(n, k);
      if k == l {
        assert InRun(n, l) && !InMap(n, l) && !InRun(q, l) && InMap(q, l);
      } else {
        assert InRun(q, k) <==> InRun(n, k);
        assert InMap(q, k) <==> InMap(n, k);
      }
    }
    forall x
      ensures GripOk(q, x)
    {
      assert GripOk(n, x);
    }
    forall r | r in q.owned
      ensures EntryOk(q, r)
    {
      if r != rule {
        assert EntryOk(n, r);
      }
    }
  }

  lemma CloseKeeps(n: Net, e: Epoch, phase: Phase, ok: bool)
    requires NetInv(n) && PhaseOf(n, e).Closing? && !Grips(phase)
    ensures NetInv(Shut(At(n, e, phase), PhaseOf(n, e).l, ok))
  {
    var l := PhaseOf(n, e).l;
    var q := Shut(At(n, e, phase), l, ok);
    assert GripOk(n, e);
    forall k | k in q.origin
      ensures HeldOnce(q, k)
    {
      assert HeldOnce(n, k);
      if k == l {
        assert InRun(n, l) && !InRun(q, l);
      } else {
        assert InRun(q, k) <==> InRun(n, k);
      }
    }
    forall x
      ensures GripOk(q, x)
    {
      assert GripOk(n, x);
    }
    assert forall r | r in q.owned :: EntryOk(n, r);
  }

  lemma StopKeeps(n: Net, l: Listener, ok: bool)
    requires NetInv(n) && l in n.stopping
    ensures NetInv(Shut(n.(stopping := n.stopping - {l}), l, ok))
  {
    var q := Shut(n.(stopping := n.stopping - {l}), l, ok);
    forall k | k in q.origin
      ensures HeldOnce(q, k)
    {
      assert HeldOnce(n, k);
    }
    forall x
      ensures GripOk(q, x)
    {
      assert GripOk(n, x);
    }
    assert forall r | r in q.owned :: EntryOk(n, r);
  }

  /** The last detach hands each of the session's entries over to its closes. */
  lemma ReleaseKeeps(n: Net, session: Session)
    requires NetInv(n)
    ensures NetInv(ReleaseSession(n, session))
  {
    var q := ReleaseSession(n, session);
    forall k | k in q.origin
      ensures HeldOnce(q, k)
    {
      ReleaseHandsOver(n, session, k);
    }
    forall x
      ensures GripOk(q, x)
    {
      assert GripOk(n, x);
    }
    forall r | r in q.owned
      ensures EntryOk(q, r)
    {
      assert EntryOk(n, r);
    }
    forall l | l in q.stopping
      ensures l in q.origin
    {
      if l !in n.stopping {
        var r :| r in n.owned && n.owned[r] == l;
        assert EntryOk(n, r);
      }
    }
  }

  lemma ReleaseHandsOver(n: Net, session: Session, l: Listener)
    requires NetInv(n) && l in n.origin
    ensures HeldOnce(ReleaseSession(n, session), l)
  {
    var q := ReleaseSession(n, session);
    assert HeldOnce(n, l);
    assert InRun(q, l) <==> InRun(n, l);
    if InMap(n, l) && l.session == session {
      assert l in q.stopping && l !in n.stopping && !InMap(q, l);
    } else {
      forall r | r in n.owned && n.owned[r].session == session
        ensures n.owned[r] != l
      {
        assert EntryOk(n, r);
      }
      assert InMap(q, l) <==> InMap(n, l);
    }
  }

  // -------------------------------------------------------------------- links

  lemma AttachLinks(s: Sys, session: Session)
    requires TabsInv(s.tabs) && LinkInv(s)
    ensures LinkInv(Step(s, Attach(session)))
  {
    var q := Step(s, Attach(session));
    if session !in s.tabs.epochs {
      assert |s.tabs.sessions| !in s.tabs.sessions;
    }
  }

  lemma DetachLinks(s: Sys, tab: Tab)
    requires TabsInv(s.tabs) && LinkInv(s)
    ensures LinkInv(Step(s, Detach(tab)))
  {
    if tab in s.tabs.attached {
      var q := Step(s, Detach(tab));
      forall r | r in q.net.owned
        ensures StillLive(q.tabs, q.net.origin[q.net.owned[r]].epoch)
      {
        assert StillLive(s.tabs, s.net.origin[s.net.owned[r]].epoch);
      }
    }
  }

  lemma SettleLinks(s: Sys, e: Epoch, rule: RuleId, l: Listener, rest: seq<RuleId>)
    requires LinkInv(s) && e in s.net.runs && l in s.net.origin && s.net.origin[l].epoch == e
    ensures LinkInv(Settle(s, e, rule, l, rest))
  {
  }

  /** While a terminal owns the rule, no step of the page makes it running. */
  lemma PageYields(p: P.Page, e: P.Event)
    requires !p.status.Running?
    ensures !P.Step(p, true, e).status.Running?
  {
  }

  lemma PageKeeps(s: Sys, rule: RuleId, e: P.Event)
    requires Inv(s)
    ensures Inv(Step(s, OnPage(rule, e)))
  {
    PageExcludes(s, rule, e);
    assert Step(s, OnPage(rule, e)).tabs == s.tabs && Step(s, OnPage(rule, e)).net == s.net;
  }

  lemma PageExcludes(s: Sys, rule: RuleId, e: P.Event)
    requires ExclusionInv(s)
    ensures ExclusionInv(Step(s, OnPage(rule, e)))
  {
    if rule in s.net.owned {
      PageYields(PageOf(s, rule), e);
    }
  }

  lemma AttachKeeps(s: Sys, session: Session)
    requires Inv(s)
    ensures Inv(Step(s, Attach(session)))
  {
    AttachKeepsTabs(s.tabs, session);
    AttachLinks(s, session);
    AttachNet(s, session);
  }

  lemma AttachNet(s: Sys, session: Session)
    requires TabsInv(s.tabs) && NetInv(s.net) && LinkInv(s) && ExclusionInv(s)
    ensures NetInv(Step(s, Attach(session)).net) && ExclusionInv(Step(s, Attach(session)))
  {
    if session !in s.tabs.epochs {
      assert |s.tabs.sessions| !in s.tabs.sessions;
      QuietPhase(s.net, |s.tabs.sessions|, Reading);
    }
  }

  lemma DetachKeeps(s: Sys, tab: Tab)
    requires Inv(s)
    ensures Inv(Step(s, Detach(tab)))
  {
    DetachKeepsTabs(s.tabs, tab);
    DetachLinks(s, tab);
    DetachNet(s, tab);
  }

  lemma DetachNet(s: Sys, tab: Tab)
    requires NetInv(s.net) && ExclusionInv(s)
    ensures NetInv(Step(s, Detach(tab)).net) && ExclusionInv(Step(s, Detach(tab)))
  {
    if tab in s.tabs.attached {
      ReleaseKeeps(s.net, s.tabs.attached[tab].session);
    }
  }

  lemma SettleNet(s: Sys, e: Epoch)
    requires NetInv(s.net) && PhaseOf(s.net, e).Holding?
    ensures NetInv(Step(s, PostBind(e)).net)
  {
    var Holding(rule, l, rest) := PhaseOf(s.net, e);
    if !StillLive(s.tabs, e) {
      GripStays(s.net, e, rest, true);
    } else if rule in s.net.owned || PageOf(s, rule).status.Running? {
      GripStays(s.net, e, rest, false);
    } else {
      ClaimKeeps(s.net, e);
    }
  }

  lemma SettleExclusion(s: Sys, e: Epoch)
    requires ExclusionInv(s) && PhaseOf(s.net, e).Holding?
    ensures ExclusionInv(Step(s, PostBind(e)))
  {
  }

  lemma PostBindKeeps(s: Sys, e: Epoch)
    requires Inv(s)
    ensures Inv(Step(s, PostBind(e)))
  {
    var phase := PhaseOf(s.net, e);
    if phase.Holding? {
      assert GripOk(s.net, e);
      SettleLinks(s, e, phase.rule, phase.l, phase.rest);
      SettleNet(s, e);
      SettleExclusion(s, e);
    }
  }

  /** A step that moves one run between phases that hold nothing. */
  lemma MoveKeeps(s: Sys, e: Epoch, phase: Phase)
    requires Inv(s) && e in s.net.runs && !Grips(s.net.runs[e]) && !Grips(phase)
    ensures Inv(s.(net := At(s.net, e, phase)))
  {
    QuietPhase(s.net, e, phase);
  }

  lemma MovingStepKeeps(s: Sys, ev: Event)
    requires Inv(s) && (ev.ListRules? || ev.NextRule? || ev.BindFailed? || ev.Abort?)
    ensures Inv(Step(s, ev))
  {
    var e := ev.run;
    var phase := PhaseOf(s.net, e);
    match ev
    case ListRules(_, rules) =>
      if phase.Reading? {
        MoveKeeps(s, e, Idle(rules));
      }
    case NextRule(_) =>
      if phase.Idle? {
        MoveKeeps(s, e, NextPhase(s, e, phase.rules));
      }
    case BindFailed(_) =>
      if phase.Binding? {
        MoveKeeps(s, e, Idle(phase.rest));
      }
    case Abort(_) =>
      if phase.Idle? || phase.Reading? {
        MoveKeeps(s, e, Done);
      }
  }

  lemma BindOkKeeps(s: Sys, e: Epoch, port: nat, generation: nat)
    requires Inv(s)
    ensures Inv(Step(s, BindOk(e, port, generation)))
  {
    if Step(s, BindOk(e, port, generation)) != s {
      OpenKeeps(s, e, Listener(s.tabs.sessions[e], port, generation));
    }
  }

  lemma CloseDoneKeeps(s: Sys, e: Epoch, ok: bool)
    requires Inv(s)
    ensures Inv(Step(s, CloseDone(e, ok)))
  {
    var phase := PhaseOf(s.net, e);
    if phase.Closing? {
      CloseKeeps(s.net, e, if phase.stop then Done else Idle(phase.rest), ok);
      CloseLinks(s, e, ok);
    }
  }

  lemma CloseLinks(s: Sys, e: Epoch, ok: bool)
    requires LinkInv(s) && ExclusionInv(s)
    ensures LinkInv(Step(s, CloseDone(e, ok))) && ExclusionInv(Step(s, CloseDone(e, ok)))
  {
  }

  lemma OpenKeeps(s: Sys, e: Epoch, l: Listener)
    requires Inv(s) && PhaseOf(s.net, e).Binding? && l !in s.net.origin
    requires e in s.tabs.sessions && l.session == s.tabs.sessions[e]
    ensures var phase := PhaseOf(s.net, e);
            Inv(s.(net := OpenListener(s.net, e, phase.rule, l, phase.rest)))
  {
    var phase := PhaseOf(s.net, e);
    ListenerKeeps(s.net, e, phase.rule, l, phase.rest);
    OpenLinks(s, e, l);
  }

  lemma OpenLinks(s: Sys, e: Epoch, l: Listener)
    requires NetInv(s.net) && LinkInv(s) && ExclusionInv(s) && PhaseOf(s.net, e).Binding? && l !in s.net.origin
    requires e in s.tabs.sessions && l.session == s.tabs.sessions[e]
    ensures var phase := PhaseOf(s.net, e);
            var q := s.(net := OpenListener(s.net, e, phase.rule, l, phase.rest));
            LinkInv(q) && ExclusionInv(q)
  {
    assert forall r | r in s.net.owned :: EntryOk(s.net, r);
  }

  lemma StopDoneKeeps(s: Sys, l: Listener, ok: bool)
    requires Inv(s)
    ensures Inv(Step(s, StopDone(l, ok)))
  {
    if l in s.net.stopping {
      StopKeeps(s.net, l, ok);
      StopLinks(s, l, ok);
    }
  }

  lemma StopLinks(s: Sys, l: Listener, ok: bool)
    requires LinkInv(s) && ExclusionInv(s)
    ensures LinkInv(Step(s, StopDone(l, ok))) && ExclusionInv(Step(s, StopDone(l, ok)))
  {
  }

  lemma StepKeeps(s: Sys, ev: Event)
    requires Inv(s)
    ensures Inv(Step(s, ev))
  {
    match ev
    case Attach(session) => AttachKeeps(s, session);
    case Detach(tab) => DetachKeeps(s, tab);
    case PostBind(e) => PostBindKeeps(s, e);
    case StopDone(l, ok) => StopDoneKeeps(s, l, ok);
    case OnPage(rule, e) => PageKeeps(s, rule, e);
    case BindOk(e, port, generation) => BindOkKeeps(s, e, port, generation);
    case CloseDone(e, ok) => CloseDoneKeeps(s, e, ok);
    case _ => MovingStepKeeps(s, ev);
  }

  lemma {:induction false} RunKeepsFrom(s: Sys, run: seq<Event>)
    requires Inv(s)
    ensures Inv(Exec(s, run))
  {
    if run != [] {
      var n := |run| - 1;
      RunKeepsFrom(s, run[..n]);
      StepKeeps(Exec(s, run[..n]), run[n]);
    }
  }

  /** The invariant holds in every state every interleaving reaches. */
  lemma RunKeeps(run: seq<Event>)
    ensures Inv(Exec(INIT, run))
  {
    RunKeepsFrom(INIT, run);
  }

  lemma ExecSnoc(s: Sys, run: seq<Event>, ev: Event)
    ensures Exec(s, run + [ev]) == Step(Exec(s, run), ev)
  {
    assert (run + [ev])[..|run|] == run;
  }
}
