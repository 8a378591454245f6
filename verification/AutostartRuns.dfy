/**
 That a run gets through its list. A ledger kept beside the machine records what each
 run was listed and how each rule of it was settled; in every reachable state of a run
 whose epoch is still on file, the list is what was settled, then the rule in hand, then
 the rest, in order.
 */
module AutostartRuns {
  import Records
  import P = PageForwards
  import opened TerminalForwards
  import opened TerminalRuns

  /** How a run left one rule: somebody had it before the bind, the bind failed, it was
      claimed, or somebody had it after the bind and the listener was given up. */
  datatype Fate = Skipped | Failed | Claimed | Yielded

  /** What each run was listed, how it settled each rule so far, and the runs whose loop
      was cut short by a throw. */
  datatype Ledger = Ledger(
    listed: map<Epoch, seq<RuleId>>,
    settled: map<Epoch, seq<(RuleId, Fate)>>,
    aborted: set<Epoch>)

  const NOTHING: Ledger := Ledger(map[], map[], {})

  /** Somebody else has the rule, as far as the read before a bind can tell. */
  predicate Taken(s: Sys, rule: RuleId) {
    rule in s.net.owned || PageOf(s, rule).status.Running? || PageOf(s, rule).status.Starting?
  }

  function SettledOf(g: Ledger, e: Epoch): seq<(RuleId, Fate)> {
    if e in g.settled then g.settled[e] else []
  }

  function Settles(g: Ledger, e: Epoch, rule: RuleId, fate: Fate): Ledger {
    g.(settled := g.settled[e := SettledOf(g, e) + [(rule, fate)]])
  }

  /** What one event adds to the ledger, read off the state it happens in. */
  function Note(g: Ledger, s: Sys, ev: Event): Ledger {
    match ev
    case ListRules(e, rules) =>
      if PhaseOf(s.net, e).Reading? then g.(listed := g.listed[e := rules], settled := g.settled[e := []]) else g
    case NextRule(e) =>
      var phase := PhaseOf(s.net, e);
      if phase.Idle? && phase.rules != [] && StillLive(s.tabs, e) && Taken(s, phase.rules[0])
      then Settles(g, e, phase.rules[0], Skipped) else g
    case BindFailed(e) =>
      var phase := PhaseOf(s.net, e);
      if phase.Binding? then Settles(g, e, phase.rule, Failed) else g
    case PostBind(e) =>
      var phase := PhaseOf(s.net, e);
      if phase.Holding? && StillLive(s.tabs, e)
      then Settles(g, e, phase.rule,
                   if phase.rule in s.net.owned || PageOf(s, phase.rule).status.Running? then Yielded else Claimed)
      else g
    case Abort(e) =>
      if PhaseOf(s.net, e).Idle? || PhaseOf(s.net, e).Reading? then g.(aborted := g.aborted + {e}) else g
    case _ => g
  }

  /** The ledger of a whole run of events. */
  function Kept(run: seq<Event>): Ledger {
    if run == [] then NOTHING
    else
      var n := |run| - 1;
      Note(Kept(run[..n]), Exec(INIT, run[..n]), run[n])
  }

  function Rules(settled: seq<(RuleId, Fate)>): seq<RuleId> {
    if settled == [] then [] else Rules(settled[..|settled| - 1]) + [settled[|settled| - 1].0]
  }

  /** The rules a phase still has before it, the one in hand included. */
  function Ahead(phase: Phase): seq<RuleId> {
    match phase
    case Reading => []
    case Idle(rules) => rules
    case Binding(rule, rest) => [rule] + rest
    case Holding(rule, _, rest) => [rule] + rest
    case Closing(_, rest, _) => rest
    case Done => []
  }

  /** The list is what was settled and then what is ahead. */
  ghost predicate OnList(g: Ledger, s: Sys, e: Epoch) {
    e in s.net.runs && StillLive(s.tabs, e) && e !in g.aborted ==>
      Along(g, e, PhaseOf(s.net, e))
  }

  /** Nothing is on the ledger of a run that has not begun. */
  ghost predicate Unborn(g: Ledger, s: Sys, e: Epoch) {
    e !in s.net.runs ==> e !in g.listed && e !in g.settled && e !in g.aborted
  }

  /** The events that are steps of one run. */
  predicate OfRun(ev: Event) {
    ev.ListRules? || ev.NextRule? || ev.BindOk? || ev.BindFailed? || ev.PostBind? || ev.CloseDone? || ev.Abort?
  }

  /** A live epoch was live before, or begins here. */
  lemma LiveBefore(s: Sys, ev: Event, e: Epoch)
    requires TabsInv(s.tabs) && StillLive(Step(s, ev).tabs, e)
    ensures StillLive(s.tabs, e) || (ev.Attach? && e !in s.tabs.sessions && ev.session !in s.tabs.epochs)
  {
    if ev.Attach? {
      assert ev.session !in s.tabs.epochs ==> |s.tabs.sessions| !in s.tabs.sessions;
    }
  }

  /** No other run's phase moves. */
  lemma OtherPhase(s: Sys, ev: Event, e: Epoch)
    requires e in s.net.runs && LinkInv(s) && TabsInv(s.tabs)
    requires !(OfRun(ev) && ev.run == e)
    ensures e in Step(s, ev).net.runs && PhaseOf(Step(s, ev).net, e) == PhaseOf(s.net, e)
  {
    if OfRun(ev) {
      RunStepIsItsOwn(s, ev, e);
    } else if ev.Attach? {
      assert |s.tabs.sessions| !in s.tabs.sessions;
    } else {
      NoRunMoves(s, ev);
    }
  }

  lemma NoRunMoves(s: Sys, ev: Event)
    requires !OfRun(ev) && !ev.Attach?
    ensures Step(s, ev).net.runs == s.net.runs
  {
  }

  lemma RunStepIsItsOwn(s: Sys, ev: Event, e: Epoch)
    requires OfRun(ev) && ev.run != e && e in s.net.runs
    ensures e in Step(s, ev).net.runs && Step(s, ev).net.runs[e] == s.net.runs[e]
  {
  }

  lemma OtherLedger(g: Ledger, s: Sys, ev: Event, e: Epoch)
    requires !(OfRun(ev) && ev.run == e)
    ensures var h := Note(g, s, ev);
            && (e in h.listed <==> e in g.listed) && (e in g.listed ==> h.listed[e] == g.listed[e])
            && (e in h.settled <==> e in g.settled) && SettledOf(h, e) == SettledOf(g, e)
            && (e in h.aborted <==> e in g.aborted)
  {
  }

  lemma RulesSnoc(settled: seq<(RuleId, Fate)>, rule: RuleId, fate: Fate)
    ensures Rules(settled + [(rule, fate)]) == Rules(settled) + [rule]
  {
    assert (settled + [(rule, fate)])[..|settled|] == settled;
  }

  /** The list against the phase, for a run that is on it. */
  ghost predicate Along(g: Ledger, e: Epoch, phase: Phase) {
    && (phase.Closing? ==> !phase.stop)
    && (phase.Reading? <==> e !in g.listed)
    && (e in g.listed ==> g.listed[e] == Rules(SettledOf(g, e)) + Ahead(phase))
  }

  /** Settling the rule in hand keeps the list. */
  lemma SettleAlong(g: Ledger, e: Epoch, rule: RuleId, rest: seq<RuleId>, fate: Fate, before: Phase, after: Phase)
    requires Along(g, e, before) && Ahead(before) == [rule] + rest && !before.Reading?
    requires Ahead(after) == rest && !after.Reading? && (after.Closing? ==> !after.stop)
    ensures Along(Settles(g, e, rule, fate), e, after)
  {
    var h := Settles(g, e, rule, fate);
    RulesSnoc(SettledOf(g, e), rule, fate);
    assert SettledOf(h, e) == SettledOf(g, e) + [(rule, fate)];
    assert Rules(SettledOf(g, e)) + ([rule] + rest) == (Rules(SettledOf(g, e)) + [rule]) + rest;
  }

  lemma NextAlong(g: Ledger, s: Sys, e: Epoch)
    requires Along(g, e, PhaseOf(s.net, e)) && e in s.net.runs && StillLive(s.tabs, e)
    ensures Along(Note(g, s, NextRule(e)), e, PhaseOf(Step(s, NextRule(e)).net, e))
  {
    var phase := PhaseOf(s.net, e);
    if phase.Idle? && phase.rules != [] {
      var rule, rest := phase.rules[0], phase.rules[1..];
      assert phase.rules == [rule] + rest;
      if Taken(s, rule) {
        SettleAlong(g, e, rule, rest, Skipped, phase, Idle(rest));
        NextSkips(g, s, e);
      } else {
        NextBinds(g, s, e);
      }
    } else {
      NextEnds(g, s, e);
    }
  }

  lemma NextSkips(g: Ledger, s: Sys, e: Epoch)
    requires e in s.net.runs && StillLive(s.tabs, e) && PhaseOf(s.net, e).Idle? && PhaseOf(s.net, e).rules != []
    requires Taken(s, PhaseOf(s.net, e).rules[0])
    ensures Note(g, s, NextRule(e)) == Settles(g, e, PhaseOf(s.net, e).rules[0], Skipped)
    ensures PhaseOf(Step(s, NextRule(e)).net, e) == Idle(PhaseOf(s.net, e).rules[1..])
  {
  }

  lemma NextBinds(g: Ledger, s: Sys, e: Epoch)
    requires e in s.net.runs && StillLive(s.tabs, e) && PhaseOf(s.net, e).Idle? && PhaseOf(s.net, e).rules != []
    requires !Taken(s, PhaseOf(s.net, e).rules[0]) && Along(g, e, PhaseOf(s.net, e))
    ensures Along(Note(g, s, NextRule(e)), e, PhaseOf(Step(s, NextRule(e)).net, e))
  {
    var rules := PhaseOf(s.net, e).rules;
    assert PhaseOf(Step(s, NextRule(e)).net, e) == Binding(rules[0], rules[1..]);
    assert rules == [rules[0]] + rules[1..];
  }

  lemma NextEnds(g: Ledger, s: Sys, e: Epoch)
    requires e in s.net.runs && StillLive(s.tabs, e) && Along(g, e, PhaseOf(s.net, e))
    requires !(PhaseOf(s.net, e).Idle? && PhaseOf(s.net, e).rules != [])
    ensures Along(Note(g, s, NextRule(e)), e, PhaseOf(Step(s, NextRule(e)).net, e))
  {
  }

  lemma FailAlong(g: Ledger, s: Sys, e: Epoch)
    requires Along(g, e, PhaseOf(s.net, e)) && e in s.net.runs
    ensures Along(Note(g, s, BindFailed(e)), e, PhaseOf(Step(s, BindFailed(e)).net, e))
  {
    var phase := PhaseOf(s.net, e);
    if phase.Binding? {
      SettleAlong(g, e, phase.rule, phase.rest, Failed, phase, Idle(phase.rest));
    }
  }

  lemma BindAlong(g: Ledger, s: Sys, e: Epoch)
    requires Along(g, e, PhaseOf(s.net, e)) && e in s.net.runs && StillLive(s.tabs, e)
    ensures Along(Note(g, s, PostBind(e)), e, PhaseOf(Step(s, PostBind(e)).net, e))
  {
    var phase := PhaseOf(s.net, e);
    if phase.Holding? {
      var gone := phase.rule in s.net.owned || PageOf(s, phase.rule).status.Running?;
      var after := if gone then Closing(phase.l, phase.rest, false) else Idle(phase.rest);
      assert PhaseOf(Step(s, PostBind(e)).net, e) == after;
      SettleAlong(g, e, phase.rule, phase.rest, if gone then Yielded else Claimed, phase, after);
    }
  }

  lemma RestAlong(g: Ledger, s: Sys, ev: Event, e: Epoch)
    requires Along(g, e, PhaseOf(s.net, e)) && e in s.net.runs
    requires (ev.ListRules? || ev.BindOk? || ev.CloseDone?) && ev.run == e
    ensures Along(Note(g, s, ev), e, PhaseOf(Step(s, ev).net, e))
  {
  }

  /** A step of a run that is on its list moves along it. */
  lemma OwnStep(g: Ledger, s: Sys, ev: Event, e: Epoch)
    requires OnList(g, s, e) && OfRun(ev) && ev.run == e
    ensures OnList(Note(g, s, ev), Step(s, ev), e)
  {
    assert Step(s, ev).tabs == s.tabs;
    if e in s.net.runs && StillLive(s.tabs, e) && e !in g.aborted {
      match ev
      case NextRule(_) => NextAlong(g, s, e);
      case BindFailed(_) => FailAlong(g, s, e);
      case PostBind(_) => BindAlong(g, s, e);
      case Abort(_) =>
      case _ => RestAlong(g, s, ev, e);
    } else {
      OwnStays(g, s, ev, e);
    }
  }

  /** A run that has not begun has no steps, and one that was cut short stays so. */
  lemma OwnStays(g: Ledger, s: Sys, ev: Event, e: Epoch)
    requires OfRun(ev) && ev.run == e
    ensures e !in s.net.runs ==> e !in Step(s, ev).net.runs
    ensures e in g.aborted ==> e in Note(g, s, ev).aborted
  {
  }

  lemma OtherStep(g: Ledger, s: Sys, ev: Event, e: Epoch)
    requires Inv(s) && OnList(g, s, e) && Unborn(g, s, e) && !(OfRun(ev) && ev.run == e)
    ensures OnList(Note(g, s, ev), Step(s, ev), e)
  {
    OtherLedger(g, s, ev, e);
    if e in s.net.runs {
      OtherPhase(s, ev, e);
      if StillLive(Step(s, ev).tabs, e) {
        LiveBefore(s, ev, e);
      }
    } else {
      BornReading(s, ev, e);
    }
  }

  /** A run begins by reading the rules. */
  lemma BornReading(s: Sys, ev: Event, e: Epoch)
    requires e !in s.net.runs
    ensures e in Step(s, ev).net.runs ==> PhaseOf(Step(s, ev).net, e) == Reading
  {
  }

  lemma UnbornStep(g: Ledger, s: Sys, ev: Event, e: Epoch)
    requires Unborn(g, s, e)
    ensures Unborn(Note(g, s, ev), Step(s, ev), e)
  {
  }

  /** In every reachable state, for every run whose epoch is on file and whose loop was
      not cut short by a throw: the rules it was listed are those it has settled, then the
      one in hand, then the rest, in order. */
  lemma {:induction false} RunsStayOnList(run: seq<Event>, e: Epoch)
    ensures OnList(Kept(run), Exec(INIT, run), e) && Unborn(Kept(run), Exec(INIT, run), e)
  {
    if run != [] {
      var n := |run| - 1;
      RunsStayOnList(run[..n], e);
      RunKeeps(run[..n]);
      var g, s := Kept(run[..n]), Exec(INIT, run[..n]);
      UnbornStep(g, s, run[n], e);
      if OfRun(run[n]) && run[n].run == e {
        OwnStep(g, s, run[n], e);
      } else {
        OtherStep(g, s, run[n], e);
      }
    }
  }

  /** So such a run that is done has settled every rule it was listed, once each. */
  lemma DoneSettlesAll(run: seq<Event>, e: Epoch)
    requires var s := Exec(INIT, run);
             e in s.net.runs && PhaseOf(s.net, e).Done? && StillLive(s.tabs, e) && e !in Kept(run).aborted
    ensures e in Kept(run).listed && Kept(run).listed[e] == Rules(SettledOf(Kept(run), e))
  {
    RunsStayOnList(run, e);
    var all := Rules(SettledOf(Kept(run), e));
    assert all + [] == all;
  }

  /** A claim on the ledger is a claim in the map: the rule was nobody's, and is this
      run's from then on, by the listener it has just bound. */
  lemma ClaimsAreMade(g: Ledger, s: Sys, e: Epoch)
    requires PhaseOf(s.net, e).Holding? && StillLive(s.tabs, e) && GripOk(s.net, e)
    ensures var phase := PhaseOf(s.net, e);
            var q := Step(s, PostBind(e));
            if phase.rule !in s.net.owned && !PageOf(s, phase.rule).status.Running?
            then
              && SettledOf(Note(g, s, PostBind(e)), e) == SettledOf(g, e) + [(phase.rule, Claimed)]
              && phase.rule in q.net.owned && q.net.owned[phase.rule] == phase.l
              && q.net.origin[phase.l] == Opener(e, phase.rule)
            else
              && SettledOf(Note(g, s, PostBind(e)), e) == SettledOf(g, e) + [(phase.rule, Yielded)]
              && q.net.owned == s.net.owned && PhaseOf(q.net, e) == Closing(phase.l, phase.rest, false)
  {
  }

  // ---------------------------------------------------------------- a run on its own

  /** A run about to take rules nobody has, and ports nobody listens on. */
  ghost predicate Clear(s: Sys, e: Epoch, rules: seq<RuleId>, ports: seq<nat>) {
    && StillLive(s.tabs, e) && PhaseOf(s.net, e) == Idle(rules) && |ports| == |rules|
    && (forall i, j | 0 <= i < j < |rules| :: rules[i] != rules[j] && ports[i] != ports[j])
    && (forall i | 0 <= i < |rules| ::
          !Taken(s, rules[i]) && Listener(s.tabs.sessions[e], ports[i], 1) !in s.net.origin)
  }

  /** The run after its first `n` rules. */
  ghost predicate Played(s: Sys, q: Sys, e: Epoch, rules: seq<RuleId>, ports: seq<nat>, n: nat)
    requires n <= |rules| == |ports| && StillLive(s.tabs, e)
  {
    && q.tabs == s.tabs && PhaseOf(q.net, e) == Idle(rules[n..])
    && (forall i | 0 <= i < n ::
          && rules[i] in q.net.owned && q.net.owned[rules[i]] in q.net.origin
          && q.net.origin[q.net.owned[rules[i]]] == Opener(e, rules[i]))
    && (forall i | n <= i < |rules| ::
          !Taken(q, rules[i]) && Listener(s.tabs.sessions[e], ports[i], 1) !in q.net.origin)
  }

  /** One rule of it: asked for and bound. */
  lemma PlayBinds(s: Sys, q: Sys, e: Epoch, rules: seq<RuleId>, ports: seq<nat>, n: nat)
    requires Clear(s, e, rules, ports) && n < |rules| && Played(s, q, e, rules, ports, n)
    ensures var b := Step(Step(q, NextRule(e)), BindOk(e, ports[n], 1));
            var l := Listener(s.tabs.sessions[e], ports[n], 1);
            b == q.(net := OpenListener(q.net, e, rules[n], l, rules[n + 1..]))
  {
    var rule, l := rules[n], Listener(s.tabs.sessions[e], ports[n], 1);
    assert rules[n..] == [rule] + rules[n + 1..];
    var a := q.(net := At(q.net, e, Binding(rule, rules[n + 1..])));
    assert Step(q, NextRule(e)) == a;
    var b := a.(net := OpenListener(a.net, e, rule, l, rules[n + 1..]));
    assert Step(a, BindOk(e, ports[n], 1)) == b;
    assert a.net.runs[e := Holding(rule, l, rules[n + 1..])] == q.net.runs[e := Holding(rule, l, rules[n + 1..])];
  }

  /** And claimed. */
  lemma PlayOne(s: Sys, q: Sys, e: Epoch, rules: seq<RuleId>, ports: seq<nat>, n: nat)
    requires Clear(s, e, rules, ports) && n < |rules| && Played(s, q, e, rules, ports, n)
    ensures var r := Step(Step(Step(q, NextRule(e)), BindOk(e, ports[n], 1)), PostBind(e));
            Played(s, r, e, rules, ports, n + 1)
  {
    var l := Listener(s.tabs.sessions[e], ports[n], 1);
    PlayBinds(s, q, e, rules, ports, n);
    ClaimAdds(q.(net := OpenListener(q.net, e, rules[n], l, rules[n + 1..])), e, rules[n], l, rules[n + 1..]);
  }

  lemma ClaimAdds(b: Sys, e: Epoch, rule: RuleId, l: Listener, rest: seq<RuleId>)
    requires PhaseOf(b.net, e) == Holding(rule, l, rest) && StillLive(b.tabs, e) && !Taken(b, rule)
    ensures var q := Step(b, PostBind(e));
            && q.tabs == b.tabs && PhaseOf(q.net, e) == Idle(rest) && q.net.origin == b.net.origin
            && q.net.owned == b.net.owned[rule := l]
            && forall r | r != rule :: PageOf(q, r) == PageOf(b, r)
  {
  }

  /** The state a run's first `n` rules lead to when its binds all succeed: each is asked
      for, bound and settled. */
  function After(s: Sys, e: Epoch, ports: seq<nat>, n: nat): Sys
    requires n <= |ports|
  {
    if n == 0 then s
    else Step(Step(Step(After(s, e, ports, n - 1), NextRule(e)), BindOk(e, ports[n - 1], 1)), PostBind(e))
  }

  /** It is a state of a run: these events and no others. */
  lemma {:induction false} AfterIsARun(s: Sys, e: Epoch, ports: seq<nat>, n: nat) returns (run: seq<Event>)
    requires n <= |ports|
    ensures |run| == 3 * n && Exec(s, run) == After(s, e, ports, n)
  {
    if n == 0 {
      run := [];
    } else {
      var before := AfterIsARun(s, e, ports, n - 1);
      ExecThree(s, before, NextRule(e), BindOk(e, ports[n - 1], 1), PostBind(e));
      run := before + [NextRule(e)] + [BindOk(e, ports[n - 1], 1)] + [PostBind(e)];
    }
  }

  lemma ExecThree(s: Sys, run: seq<Event>, a: Event, b: Event, c: Event)
    ensures Exec(s, run + [a] + [b] + [c]) == Step(Step(Step(Exec(s, run), a), b), c)
  {
    ExecSnoc(s, run, a);
    ExecSnoc(s, run + [a], b);
    ExecSnoc(s, run + [a] + [b], c);
  }

  lemma PlayedNone(s: Sys, e: Epoch, rules: seq<RuleId>, ports: seq<nat>)
    requires Clear(s, e, rules, ports)
    ensures Played(s, s, e, rules, ports, 0)
  {
    assert rules[0..] == rules;
  }

  lemma {:induction false} PlaysAlone(s: Sys, e: Epoch, rules: seq<RuleId>, ports: seq<nat>, n: nat)
    requires Clear(s, e, rules, ports) && n <= |rules|
    ensures Played(s, After(s, e, ports, n), e, rules, ports, n)
  {
    if n == 0 {
      PlayedNone(s, e, rules, ports);
    } else {
      PlaysAlone(s, e, rules, ports, n - 1);
      PlayOne(s, After(s, e, ports, n - 1), e, rules, ports, n - 1);
    }
  }

  /** A run alone, whose binds all succeed, over rules that nobody owns and that the page
      neither runs nor starts: it ends, and every rule it was listed is its own. */
  lemma RunAloneTakesAll(s: Sys, e: Epoch, rules: seq<RuleId>, ports: seq<nat>)
    requires Clear(s, e, rules, ports)
    ensures var q := After(s, e, ports, |rules|);
            Played(s, q, e, rules, ports, |rules|) && PhaseOf(Step(q, NextRule(e)).net, e) == Done
  {
    PlaysAlone(s, e, rules, ports, |rules|);
    EndsPlayed(s, After(s, e, ports, |rules|), e, rules, ports);
  }

  lemma EndsPlayed(s: Sys, q: Sys, e: Epoch, rules: seq<RuleId>, ports: seq<nat>)
    requires StillLive(s.tabs, e) && |ports| == |rules| && Played(s, q, e, rules, ports, |rules|)
    ensures PhaseOf(Step(q, NextRule(e)).net, e) == Done
  {
    assert PhaseOf(q.net, e) == Idle([]);
  }

  /** A run whose epoch is over asks for nothing more: between rules it ends, and with a
      listener in hand it closes that one and then ends. */
  lemma DeadRunEnds(s: Sys, e: Epoch, ok: bool)
    requires !StillLive(s.tabs, e)
    ensures PhaseOf(s.net, e).Idle? ==> PhaseOf(Step(s, NextRule(e)).net, e) == Done
    ensures PhaseOf(s.net, e).Holding? ==>
              var q := Step(s, PostBind(e));
              && PhaseOf(q.net, e).Closing? && PhaseOf(q.net, e).l == PhaseOf(s.net, e).l && q.net.owned == s.net.owned
              && PhaseOf(Step(q, CloseDone(e, ok)).net, e) == Done
  {
  }

  /** A close that came back goes on with the rest of the list, the listener down if the
      close worked, and on the books as lost if it did not. */
  lemma CloseGoesOn(s: Sys, e: Epoch, ok: bool)
    requires PhaseOf(s.net, e).Closing? && !PhaseOf(s.net, e).stop
    ensures var q := Step(s, CloseDone(e, ok));
            var l := PhaseOf(s.net, e).l;
            && PhaseOf(q.net, e) == Idle(PhaseOf(s.net, e).rest)
            && (if ok then q.net.live == s.net.live - {l} && q.net.lost == s.net.lost
                else q.net.live == s.net.live && q.net.lost == s.net.lost + {l})
  {
  }
}
