/**
 What holds of a page rule over every run of events, whatever the terminals do
 meanwhile: the ladder's bounds, the silence of superseded dials, and which steps
 lose track of a reference.
 */
module PageRuns {
  import opened Records
  import opened PageForwards

  /** A Start keeps the books: a rung dials for a ladder that is waiting to. */
  lemma BeginKeeps(p: Page, owned: bool, o: Origin)
    requires Inv(p)
    requires o.Rung? ==> OnRung(p, o.ladder, o.prior, o.prior)
    ensures Inv(BeginStart(p, owned, o))
  {
    var q := Cancel(p);
    assert q.timers == {};
    if !owned {
      var r := BeginStart(p, owned, o);
      forall a | a in r.dials && r.dials[a].Rung?
        ensures OnRung(r, r.dials[a].ladder, r.dials[a].prior + 1, r.dials[a].prior)
        ensures a != q.next && o.Rung? ==> r.dials[a].ladder != o.ladder
      {
        if a != q.next {
          assert OnRung(p, p.dials[a].ladder, p.dials[a].prior + 1, p.dials[a].prior);
        }
      }
    }
  }

  lemma ResolvedKeeps(p: Page, owned: bool, a: Attempt)
    requires Inv(p) && a in p.dials
    ensures Inv(Resolved(p, owned, a))
  {
    var q := Resolved(p, owned, a);
    assert forall b | b in q.dials :: b in p.dials && q.dials[b] == p.dials[b];
  }

  lemma RejectedKeeps(p: Page, owned: bool, a: Attempt, transport: bool)
    requires Inv(p) && a in p.dials
    ensures Inv(Rejected(p, owned, a, transport))
  {
    var o := p.dials[a];
    var q := p.(dials := p.dials - {a});
    assert forall b | b in q.dials :: b in p.dials && q.dials[b] == p.dials[b];
    assert Inv(q) || p.current == Some(a);
    if p.current == Some(a) && !owned && o.Rung? {
      var f := q.(status := Failed, current := None);
      LadderedKeeps(f, o.ladder, o.prior, transport);
    }
  }

  lemma LadderedKeeps(p: Page, l: nat, prior: nat, transport: bool)
    requires Inv(p) && p.retry.None? && p.current.None?
    requires OnRung(p, l, prior + 1, prior)
    requires forall b | b in p.dials && p.dials[b].Rung? :: p.dials[b].ladder != l
    ensures Inv(Laddered(p, l, prior, transport))
  {
    if transport && prior < |BACKOFF| {
      assert BACKOFF[..prior] + [BACKOFF[prior]] == BACKOFF[..prior + 1];
    }
  }

  lemma AutostartKeeps(p: Page, owned: bool)
    requires Inv(p)
    ensures Inv(Step(p, owned, Autostart))
  {
    var q := p.(ladders := p.ladders + [Ladder(0, [], 0)]);
    assert Inv(q);
    BeginKeeps(q, owned, Rung(|p.ladders|, 0));
  }

  lemma FireKeeps(p: Page, owned: bool, t: Timer)
    requires Inv(p)
    ensures Inv(Step(p, owned, Fire(t)))
  {
    if t in p.timers {
      BeginKeeps(p.(timers := p.timers - {t}, retry := None), owned, Rung(t.ladder, t.attempt));
    }
  }

  lemma FinishKeeps(p: Page, owned: bool, t: Task)
    requires Inv(p)
    ensures Inv(Step(p, owned, Finish(t)))
  {
    assert forall u | u in p.tasks - multiset{t} :: u in p.tasks;
  }

  lemma StepKeeps(p: Page, owned: bool, e: Event)
    requires Inv(p)
    ensures Inv(Step(p, owned, e))
  {
    match e
    case Start => BeginKeeps(p, owned, Manual);
    case Autostart => AutostartKeeps(p, owned);
    case Fire(t) => FireKeeps(p, owned, t);
    case Resolve(a) =>
      if a in p.dials {
        ResolvedKeeps(p, owned, a);
      }
    case Reject(a, transport) =>
      if a in p.dials {
        RejectedKeeps(p, owned, a, transport);
      }
    case Finish(t) => FinishKeeps(p, owned, t);
    case Stop => StoppingKeeps(p, owned);
    case Release => StoppingKeeps(p, owned);
    case Claimed =>
  }

  lemma StoppingKeeps(p: Page, owned: bool)
    requires Inv(p)
    ensures Inv(Stopping(p, owned))
  {
  }

  lemma {:induction false} RunKeeps(p: Page, run: seq<(Event, bool)>)
    requires Inv(p)
    ensures Inv(Exec(p, run))
  {
    if run != [] {
      var n := |run| - 1;
      RunKeeps(p, run[..n]);
      StepKeeps(Exec(p, run[..n]), run[n].1, run[n].0);
    }
  }

  // ------------------------------------------------------------------ ladders

  /** Over every run: a rule has at most one live timer; one ladder makes at most six
      dials, its k-th retry waits the k-th rung, it raises at most one error toast,
      and once it has raised it nothing of it is left to dial or to fire. */
  lemma LadderBounds(run: seq<(Event, bool)>, l: nat)
    requires l < |Exec(IDLE, run).ladders|
    ensures var p := Exec(IDLE, run);
            && |p.timers| <= 1
            && Bounded(p.ladders[l])
            && (p.ladders[l].errors > 0 ==>
                  && (forall t | t in p.timers :: t.ladder != l)
                  && (forall a | a in p.dials && p.dials[a].Rung? :: p.dials[a].ladder != l))
  {
    RunKeeps(IDLE, run);
  }

  // --------------------------------------------------------- superseded dials

  lemma {:induction false} NeverCurrentAgain(p: Page, a: Attempt, run: seq<(Event, bool)>)
    requires a < p.next && p.current != Some(a)
    ensures a < Exec(p, run).next && Exec(p, run).current != Some(a)
  {
    if run != [] {
      var n := |run| - 1;
      NeverCurrentAgain(p, a, run[..n]);
      NotCurrentStep(Exec(p, run[..n]), a, run[n].1, run[n].0);
    }
  }

  lemma NotCurrentStep(p: Page, a: Attempt, owned: bool, e: Event)
    requires a < p.next && p.current != Some(a)
    ensures a < Step(p, owned, e).next && Step(p, owned, e).current != Some(a)
  {
  }

  /** A dial that has lost its say: whatever it comes to, and whoever owns the rule by
      then, it moves neither the status nor the attempt on file, schedules nothing, and
      hands its reference back. */
  ghost predicate Silent(q: Page, a: Attempt)
    requires a in q.dials
  {
    && (forall owned, transport :: Step(q, owned, Reject(a, transport)) == q.(dials := q.dials - {a}))
    && (forall owned :: Step(q, owned, Resolve(a)) ==
          q.(dials := q.dials - {a}, refs := q.refs + {a}, tasks := q.tasks + multiset{GiveBack(a)}))
  }

  ghost predicate SilentAfter(p: Page, a: Attempt, run: seq<(Event, bool)>) {
    a in Exec(p, run).dials ==> Silent(Exec(p, run), a)
  }

  /** The four calls meant to end whatever a rule was doing. */
  predicate Ends(e: Event) {
    e == Stop || e == Start || e == Autostart || e == Release
  }

  /** When they do: a terminal's rule is left alone by all four, and a release acts
      only behind `pageMustStopFirst`. */
  predicate Supersedes(p: Page, owned: bool, e: Event) {
    Ends(e) && !owned && (e == Release ==> p.retry.Some? || p.status.Running? || p.status.Starting?)
  }

  lemma SilentIff(q: Page, a: Attempt)
    requires a in q.dials
    ensures Silent(q, a) <==> q.current != Some(a)
  {
    if q.current == Some(a) {
      assert Step(q, false, Resolve(a)).status == Running(a);
      assert Step(q, false, Resolve(a)).tasks == q.tasks;
      assert (q.tasks + multiset{GiveBack(a)})[GiveBack(a)] == q.tasks[GiveBack(a)] + 1;
    }
  }

  /** With this attempt on file, or none, every other dial is silent. */
  lemma OthersAreSilent(q: Page)
    ensures forall a | a in q.dials && q.current != Some(a) :: Silent(q, a)
  {
    forall a | a in q.dials && q.current != Some(a) ensures Silent(q, a) {
      SilentIff(q, a);
    }
  }

  /** After a Stop, a release or a new Start that does act, no dial that was in flight
      has a say again, however late it lands. */
  lemma StaleDialsAreSilent(p: Page, owned: bool, e: Event, a: Attempt, run: seq<(Event, bool)>)
    requires Inv(p) && a in p.dials && Supersedes(p, owned, e)
    ensures SilentAfter(Step(p, owned, e), a, run)
  {
    NeverCurrentAgain(Step(p, owned, e), a, run);
    if a in Exec(Step(p, owned, e), run).dials {
      SilentIff(Exec(Step(p, owned, e), run), a);
    }
  }

  /** And exactly then: the dial on file keeps its say after one of the four calls when
      a terminal owns the rule, or when the call is a release of a row with no retry
      pending that reads neither running nor starting. */
  lemma OnFileIsSilencedIff(p: Page, owned: bool, e: Event, a: Attempt)
    requires Inv(p) && a in p.dials && p.current == Some(a) && Ends(e)
    ensures (forall run :: SilentAfter(Step(p, owned, e), a, run)) <==> Supersedes(p, owned, e)
  {
    var q := Step(p, owned, e);
    if Supersedes(p, owned, e) {
      forall run ensures SilentAfter(q, a, run) {
        StaleDialsAreSilent(p, owned, e, a, run);
      }
    } else {
      assert a in q.dials && q.current == Some(a);
      SilentIff(q, a);
      assert Exec(q, []) == q;
      assert !SilentAfter(q, a, []);
    }
  }

  /** And a Stop leaves nothing behind that could dial: until somebody starts the rule
      again there is no new dial, no timer, and no forward but the one being closed. */
  lemma {:induction false} QuietAfterStop(p: Page, run: seq<(Event, bool)>)
    requires TimerInv(p)
    requires forall x | x in run :: x.0 != Start && x.0 != Autostart
    ensures var s := Step(p, false, Stop);
            var q := Exec(s, run);
            && q.next == s.next && q.timers == {} && q.current.None?
            && (q.status.Running? ==> q.status == s.status)
  {
    if run != [] {
      var n := |run| - 1;
      assert run[n] in run;
      assert forall x | x in run[..n] :: x in run;
      QuietAfterStop(p, run[..n]);
      QuietStep(Exec(Step(p, false, Stop), run[..n]), run[n].1, run[n].0);
    }
  }

  lemma QuietStep(q: Page, owned: bool, e: Event)
    requires q.timers == {} && q.current.None? && e != Start && e != Autostart
    ensures var r := Step(q, owned, e);
            && r.next == q.next && r.timers == {} && r.current.None?
            && (r.status.Running? ==> r.status == q.status)
  {
    if e.Resolve? || e.Reject? {
      QuietDial(q, owned, e);
    }
  }

  /** With no attempt on file every dial in flight is a superseded one. */
  lemma QuietDial(q: Page, owned: bool, e: Event)
    requires q.current.None? && (e.Resolve? || e.Reject?)
    ensures var r := Step(q, owned, e);
            r == q.(dials := r.dials, refs := r.refs, tasks := r.tasks)
  {
  }

  // ------------------------------------------------------------------ release

  /** A start that is still to come of its own accord. */
  ghost predicate Pending(p: Page) {
    p.retry.Some? || (p.current.Some? && p.current.value in p.dials)
  }

  /** `releaseRule` ends a pending start exactly when `pageMustStopFirst` holds. It does
      not for a terminal-owned row, which keeps its timer, nor for a row a late close
      has marked stopped under a dial still on file. */
  lemma ReleaseEndsPending(p: Page, owned: bool)
    requires Inv(p)
    ensures Pending(Step(p, owned, Release)) <==> Pending(p) && !MustStopFirst(p, owned)
    ensures p.retry.Some? ==> (Pending(Step(p, owned, Release)) <==> owned)
  {
  }

  // --------------------------------------------------------------- references

  ghost predicate Closing(tasks: multiset<Task>, c: Attempt) {
    GiveBack(c) in tasks || YieldClose(c) in tasks || StopClose(c) in tasks
  }

  /** A reference something answers for: the running row, or a close of it. */
  ghost predicate Named(p: Page, c: Attempt) {
    p.status == Running(c) || Closing(p.tasks, c)
  }

  ghost predicate Tracked(p: Page) {
    forall c | c in p.refs :: Named(p, c)
  }

  ghost predicate Starts(p: Page, e: Event) {
    e == Start || e == Autostart || (e.Fire? && e.timer in p.timers)
  }

  /** The row reads running under a reference nothing is closing, and this step
      overwrites the row: a second Start, or the `markStopped` that trails an older
      close. */
  ghost predicate Drops(p: Page, owned: bool, e: Event) {
    && p.status.Running? && !Closing(p.tasks, p.status.claim)
    && ((!owned && Starts(p, e)) || (e.Finish? && e.task in p.tasks && !e.task.GiveBack?))
  }

  /** Exactly those steps lose a reference. */
  lemma StepTracks(p: Page, owned: bool, e: Event)
    requires AttemptInv(p) && Tracked(p)
    ensures Tracked(Step(p, owned, e)) <==> !Drops(p, owned, e)
  {
    var q := Step(p, owned, e);
    if Drops(p, owned, e) {
      DroppedIsUntracked(p, owned, e);
    } else {
      forall c | c in q.refs
        ensures Named(q, c)
      {
        StillTracked(p, owned, e, c);
      }
    }
  }

  lemma DroppedIsUntracked(p: Page, owned: bool, e: Event)
    requires AttemptInv(p) && Drops(p, owned, e)
    ensures !Tracked(Step(p, owned, e))
  {
    var q := Step(p, owned, e);
    var c := p.status.claim;
    assert c in q.refs && q.status != Running(c) && !Closing(q.tasks, c);
  }

  lemma StillTracked(p: Page, owned: bool, e: Event, c: Attempt)
    requires c in p.refs ==> Named(p, c)
    requires p.current.Some? ==> !p.status.Running?
    requires !Drops(p, owned, e)
    requires c in Step(p, owned, e).refs
    ensures Named(Step(p, owned, e), c)
  {
    if e.Finish? {
      if e.task in p.tasks {
        assert c != e.task.claim;
      }
    } else if e.Resolve? || e.Reject? {
      DialStillTracked(p, owned, e, c);
    } else {
      assert c in p.refs;
      if Closing(p.tasks, c) {
        TasksOnlyGrow(p, owned, e);
      }
    }
  }

  lemma TasksOnlyGrow(p: Page, owned: bool, e: Event)
    requires !e.Finish?
    ensures p.tasks <= Step(p, owned, e).tasks
  {
  }

  lemma DialStillTracked(p: Page, owned: bool, e: Event, c: Attempt)
    requires e.Resolve? || e.Reject?
    requires c in p.refs ==> Named(p, c)
    requires p.current.Some? ==> !p.status.Running?
    requires c in Step(p, owned, e).refs
    ensures Named(Step(p, owned, e), c)
  {
    TasksOnlyGrow(p, owned, e);
  }

  ghost predicate Trailing(p: Page) {
    exists t :: t in p.tasks && !t.GiveBack?
  }

  /** Nobody starts a row that is running or has such a close awaited. */
  ghost predicate Careful(p: Page, owned: bool, e: Event) {
    !owned && Starts(p, e) ==> !p.status.Running? && !Trailing(p)
  }

  ghost predicate CarefulRun(p: Page, run: seq<(Event, bool)>)
    decreases |run|
  {
    run == [] ||
    var n := |run| - 1;
    CarefulRun(p, run[..n]) && Careful(Exec(p, run[..n]), run[n].1, run[n].0)
  }

  /** While a trailing close is awaited, nothing else is on its way to running. */
  ghost predicate Settled(p: Page) {
    Trailing(p) ==>
      && (p.current.Some? ==> p.current.value !in p.dials)
      && (p.status.Running? ==> Closing(p.tasks, p.status.claim))
  }

  /** So a run in which every Start is careful never loses a reference. */
  lemma {:induction false} CarefulRunsTrack(run: seq<(Event, bool)>)
    requires CarefulRun(IDLE, run)
    ensures Tracked(Exec(IDLE, run)) && Settled(Exec(IDLE, run))
  {
    if run != [] {
      var n := |run| - 1;
      var p := Exec(IDLE, run[..n]);
      CarefulRunsTrack(run[..n]);
      RunKeeps(IDLE, run[..n]);
      StepTracks(p, run[n].1, run[n].0);
      CarefulStepSettles(p, run[n].1, run[n].0);
    }
  }

  lemma CarefulStepSettles(p: Page, owned: bool, e: Event)
    requires AttemptInv(p) && Settled(p) && Careful(p, owned, e)
    ensures Settled(Step(p, owned, e)) && !Drops(p, owned, e)
  {
    match e
    case Finish(t) =>
      var q := Step(p, owned, e);
      assert forall u | u in q.tasks :: u in p.tasks;
      if t in p.tasks && q.status.Running? {
        assert t.GiveBack? && t.claim != q.status.claim;
      }
    case Resolve(a) => ResolveSettles(p, owned, a);
    case _ => OtherSettles(p, owned, e);
  }

  lemma ResolveSettles(p: Page, owned: bool, a: Attempt)
    requires AttemptInv(p) && Settled(p)
    ensures Settled(Step(p, owned, Resolve(a)))
  {
    if a in p.dials {
      var q := Resolved(p, owned, a);
      if p.current != Some(a) {
        assert forall u | u in q.tasks :: u == GiveBack(a) || u in p.tasks;
      }
    }
  }

  lemma OtherSettles(p: Page, owned: bool, e: Event)
    requires AttemptInv(p) && Settled(p) && Careful(p, owned, e)
    requires !e.Finish? && !e.Resolve?
    ensures Settled(Step(p, owned, e)) && !Drops(p, owned, e)
  {
  }

  lemma ExecSnoc(p: Page, run: seq<(Event, bool)>, e: Event, owned: bool)
    ensures Exec(p, run + [(e, owned)]) == Step(Exec(p, run), owned, e)
  {
    assert (run + [(e, owned)])[..|run|] == run;
  }

  /** Without that care one is lost: a dial lands on a terminal's rule and its close
      hangs; the terminal goes, the row is stopped and started again and comes up;
      then the old close returns and marks the running row stopped. */
  lemma LateYieldDropsReference()
    ensures var run := [(Start, false), (Resolve(0), true), (Stop, false),
                        (Start, false), (Resolve(1), false), (Finish(YieldClose(0)), false)];
            var p := Exec(IDLE, run);
            p.status == Stopped && p.tasks == multiset{} && 1 in p.refs && !Tracked(p)
  {
    YieldSteps();
    AgainSteps();
    LostSteps();
    var r0: seq<(Event, bool)> := [];
    var r1 := r0 + [(Start, false)];
    var r2 := r1 + [(Resolve(0), true)];
    var r3 := r2 + [(Stop, false)];
    var r4 := r3 + [(Start, false)];
    var r5 := r4 + [(Resolve(1), false)];
    ExecSnoc(IDLE, r0, Start, false);
    ExecSnoc(IDLE, r1, Resolve(0), true);
    ExecSnoc(IDLE, r2, Stop, false);
    ExecSnoc(IDLE, r3, Start, false);
    ExecSnoc(IDLE, r4, Resolve(1), false);
    ExecSnoc(IDLE, r5, Finish(YieldClose(0)), false);
    assert r5 + [(Finish(YieldClose(0)), false)] ==
           [(Start, false), (Resolve(0), true), (Stop, false),
            (Start, false), (Resolve(1), false), (Finish(YieldClose(0)), false)];
  }

  /** A release can miss a dial with no terminal in sight: the same late close returns
      while the second dial is out, the row reads stopped, the release finds nothing to
      stop, and the dial then publishes. */
  lemma ReleaseMissesADial()
    ensures var run := [(Start, false), (Resolve(0), true), (Stop, false),
                        (Start, false), (Finish(YieldClose(0)), false)];
            var p := Exec(IDLE, run);
            && p.status == Stopped && p.current == Some(1) && 1 in p.dials && !MustStopFirst(p, false)
            && Step(p, false, Release) == p
            && Step(Step(p, false, Release), false, Resolve(1)).status == Running(1)
  {
    YieldSteps();
    AgainSteps();
    StraySteps();
    var r0: seq<(Event, bool)> := [];
    var r1 := r0 + [(Start, false)];
    var r2 := r1 + [(Resolve(0), true)];
    var r3 := r2 + [(Stop, false)];
    var r4 := r3 + [(Start, false)];
    ExecSnoc(IDLE, r0, Start, false);
    ExecSnoc(IDLE, r1, Resolve(0), true);
    ExecSnoc(IDLE, r2, Stop, false);
    ExecSnoc(IDLE, r3, Start, false);
    ExecSnoc(IDLE, r4, Finish(YieldClose(0)), false);
    assert r4 + [(Finish(YieldClose(0)), false)] ==
           [(Start, false), (Resolve(0), true), (Stop, false), (Start, false), (Finish(YieldClose(0)), false)];
  }

  /** The rows of that run: dialling once, yielding, stopped, dialling again, up, lost. */
  const DIALLING: Page := Page(Starting, Some(0), map[0 := Manual], multiset{}, {}, None, {}, 1, [])
  const YIELDING: Page := Page(Starting, Some(0), map[], multiset{YieldClose(0)}, {0}, None, {}, 1, [])
  const HALTED: Page := Page(Stopped, None, map[], multiset{YieldClose(0)}, {0}, None, {}, 1, [])
  const AGAIN: Page := Page(Starting, Some(1), map[1 := Manual], multiset{YieldClose(0)}, {0}, None, {}, 2, [])
  const UP: Page := Page(Running(1), None, map[], multiset{YieldClose(0)}, {0, 1}, None, {}, 2, [])
  const LOST: Page := Page(Stopped, None, map[], multiset{}, {1}, None, {}, 2, [])

  const STRAY: Page := Page(Stopped, Some(1), map[1 := Manual], multiset{}, {}, None, {}, 2, [])

  lemma StraySteps()
    ensures Step(AGAIN, false, Finish(YieldClose(0))) == STRAY
    ensures Step(STRAY, false, Release) == STRAY && Step(STRAY, false, Resolve(1)).status == Running(1)
  {
    assert {0} - {0} == {} && multiset{YieldClose(0)} - multiset{YieldClose(0)} == multiset{};
  }

  lemma YieldSteps()
    ensures Step(IDLE, false, Start) == DIALLING && Step(DIALLING, true, Resolve(0)) == YIELDING
  {
    assert DIALLING.dials - {0} == map[];
  }

  lemma AgainSteps()
    ensures Step(YIELDING, false, Stop) == HALTED && Step(HALTED, false, Start) == AGAIN
  {
  }

  lemma LostSteps()
    ensures Step(AGAIN, false, Resolve(1)) == UP && Step(UP, false, Finish(YieldClose(0))) == LOST
    ensures !Tracked(LOST)
  {
    assert AGAIN.dials - {1} == map[];
    assert {0, 1} - {0} == {1} && multiset{YieldClose(0)} - multiset{YieldClose(0)} == multiset{};
    assert 1 in LOST.refs && !Closing(LOST.tasks, 1);
  }
}
