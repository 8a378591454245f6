/**
 The two mutable stores of forwarding as their callers drive them: the page's row for
 one rule (`forwards/controller.ts` over `forwards/runtime.ts`) and the terminals' map
 (`forwards/hostOwned.ts`). Each call does what its machine's step says, and keeps what
 every step keeps.
 */
module ForwardController {
  import opened Records
  import opened PageForwards
  import Runs = PageRuns
  import T = TerminalForwards

  class Row {
    var status: Status
    var current: Option<Attempt>
    var dials: map<Attempt, Origin>
    var tasks: multiset<Task>
    var refs: set<Attempt>
    var retry: Option<Timer>
    var timers: set<Timer>
    var next: Attempt
    var ladders: seq<Ladder>

    constructor ()
      ensures View() == IDLE && Inv(View())
    {
      status, current, dials, tasks, refs := Stopped, None, map[], multiset{}, {};
      retry, timers, next, ladders := None, {}, 0, [];
    }

    function View(): Page
      reads this
    {
      Page(status, current, dials, tasks, refs, retry, timers, next, ladders)
    }

    /** `cancelForwardRetry`. */
    method CancelRetry()
      modifies this`retry, this`timers
      ensures View() == Cancel(old(View()))
    {
      if retry.Some? {
        timers := timers - {retry.value};
        retry := None;
      }
    }

    /** `startRule` up to its dial. No timer is left live; a terminal's rule is otherwise
        untouched; any other gets exactly one more dial, which alone is on file, so that
        every dial already out has lost its say. */
    method Begin(owned: bool, o: Origin)
      requires timers == (if retry.Some? then {retry.value} else {})
      requires forall a | a in dials :: a < next
      modifies this
      ensures View() == BeginStart(old(View()), owned, o)
      ensures retry.None? && timers == {} && refs == old(refs) && tasks == old(tasks)
      ensures owned ==> current == old(current) && status == old(status) && dials == old(dials)
      ensures !owned ==>
                && current.Some? && current.value !in old(dials)
                && dials.Keys == old(dials.Keys) + {current.value} && dials[current.value] == o
                && forall a | a in old(dials) :: dials[a] == old(dials)[a] && Runs.Silent(View(), a)
    {
      BeginEffects(View(), o);
      CancelRetry();
      if !owned {
        Dial(o);
      }
    }

    /** Its part past the ownership check: the next attempt, on file and dialled. */
    method Dial(o: Origin)
      modifies this`status, this`current, this`dials, this`next, this`ladders
      ensures View() == old(View()).(status := Starting, current := Some(old(next)), next := old(next) + 1,
                                     dials := old(dials)[old(next) := o], ladders := Counted(old(View()), o))
    {
      current, status := Some(next), Starting;
      dials := dials[next := o];
      next := next + 1;
      if o.Rung? && o.ladder < |ladders| {
        ladders := ladders[o.ladder := ladders[o.ladder].(dials := ladders[o.ladder].dials + 1)];
      }
    }

    method Start(owned: bool)
      requires Inv(View())
      modifies this
      ensures View() == Step(old(View()), owned, PageForwards.Start) && Inv(View())
      ensures timers == {} && (!owned ==> forall a | a in old(dials) :: Runs.Silent(View(), a))
    {
      Runs.StepKeeps(View(), owned, PageForwards.Start);
      Begin(owned, Manual);
    }

    /** `startForwardAutostart`: a ladder of its own, at its first rung. */
    method Autostart(owned: bool)
      requires Inv(View())
      modifies this
      ensures View() == Step(old(View()), owned, PageForwards.Autostart) && Inv(View())
      ensures timers == {} && (!owned ==> forall a | a in old(dials) :: Runs.Silent(View(), a))
    {
      Runs.StepKeeps(View(), owned, PageForwards.Autostart);
      ladders := ladders + [Ladder(0, [], 0)];
      Begin(owned, Rung(|ladders| - 1, 0));
    }

    /** A retry's callback: its entry goes, then the next rung dials. */
    method TimerFires(t: Timer, owned: bool)
      requires Inv(View())
      modifies this
      ensures View() == Step(old(View()), owned, Fire(t)) && Inv(View())
      ensures t in old(timers) ==> timers == {}
      ensures dials != old(dials) ==>
                t in old(timers) && !owned && dials == old(dials)[old(next) := Rung(t.ladder, t.attempt)]
    {
      Runs.StepKeeps(View(), owned, Fire(t));
      if t in timers {
        timers, retry := timers - {t}, None;
        Begin(owned, Rung(t.ladder, t.attempt));
      }
    }

    /** The dial came up: superseded, yielded to a terminal, or published. */
    method DialResolves(a: Attempt, owned: bool)
      requires Inv(View())
      modifies this
      ensures View() == Step(old(View()), owned, Resolve(a)) && Inv(View())
      ensures status != old(status) ==> status == Running(a) && !owned && old(current) == Some(a)
      ensures a in old(dials) && old(current) == Some(a) && !owned ==>
                status == Running(a) && current.None? && tasks == old(tasks) && a in refs
      ensures a in old(dials) && old(current) == Some(a) && owned ==> tasks == old(tasks) + multiset{YieldClose(a)}
      ensures a in old(dials) && old(current) != Some(a) ==> tasks == old(tasks) + multiset{GiveBack(a)}
    {
      Runs.StepKeeps(View(), owned, Resolve(a));
      if a !in dials {
        return;
      }
      dials, refs := dials - {a}, refs + {a};
      if current != Some(a) {
        tasks := tasks + multiset{GiveBack(a)};
      } else if owned {
        tasks := tasks + multiset{YieldClose(a)};
      } else {
        status, current := Running(a), None;
      }
    }

    /** The dial failed: silent when superseded, stopped under a terminal, else failed,
        and a ladder's rung parks, gives up or schedules the next. */
    method DialRejects(a: Attempt, transport: bool, owned: bool)
      requires Inv(View())
      modifies this
      ensures View() == Step(old(View()), owned, Reject(a, transport)) && Inv(View())
      ensures refs == old(refs) && tasks == old(tasks)
      ensures old(current) != Some(a) ==> status == old(status) && timers == old(timers)
      ensures a in old(dials) && old(current) == Some(a) ==>
                current.None? && status == if owned then Stopped else Failed
      ensures a in old(dials) && old(current) == Some(a) && !owned && old(dials)[a].Rung? && transport
              && old(dials)[a].prior < |BACKOFF| ==>
                timers == {Timer(old(dials)[a].ladder, old(dials)[a].prior + 1)}
      ensures timers != old(timers) ==> status.Failed? && transport && !owned
    {
      Runs.StepKeeps(View(), owned, Reject(a, transport));
      if a !in dials {
        return;
      }
      var o := dials[a];
      dials := dials - {a};
      if current != Some(a) {
        return;
      }
      current := None;
      if owned {
        status := Stopped;
        return;
      }
      status := Failed;
      if o.Rung? && o.ladder < |ladders| {
        RungFailed(o.ladder, o.prior, transport);
      }
    }

    /** `attemptForwardAutostart` after a failed rung: exactly one of one more error toast
        and one more timer, the timer for the next rung at that rung's own delay, and the
        toast exactly when the failure parks the ladder or it has no rung left. */
    method RungFailed(l: nat, prior: nat, transport: bool)
      requires l < |ladders|
      modifies this`retry, this`timers, this`ladders
      ensures View() == Laddered(old(View()), l, prior, transport)
      ensures |ladders| == old(|ladders|) && ladders[l].dials == old(ladders)[l].dials
      ensures forall m | 0 <= m < |ladders| && m != l :: ladders[m] == old(ladders)[m]
      ensures var gaveUp := !transport || prior >= |BACKOFF|;
              && ladders[l].errors == old(ladders)[l].errors + (if gaveUp then 1 else 0)
              && (gaveUp ==>
                    timers == old(timers) && retry == old(retry) && ladders[l].delays == old(ladders)[l].delays)
              && (!gaveUp ==>
                    && retry == Some(Timer(l, prior + 1)) && timers == old(timers) + {Timer(l, prior + 1)}
                    && ladders[l].delays == old(ladders)[l].delays + [BACKOFF[prior]])
    {
      var was := ladders[l];
      if !transport || prior + 1 > |BACKOFF| {
        ladders := ladders[l := was.(errors := was.errors + 1)];
        return;
      }
      var t := Timer(l, prior + 1);
      ladders := ladders[l := was.(delays := was.delays + [BACKOFF[prior]])];
      timers, retry := timers + {t}, Some(t);
    }

    /** An awaited close came back. */
    method CloseReturns(t: Task)
      requires Inv(View())
      modifies this
      ensures View() == Step(old(View()), false, Finish(t)) && Inv(View())
      ensures t in old(tasks) ==> tasks == old(tasks) - multiset{t} && refs == old(refs) - {t.claim}
      ensures t in old(tasks) && !t.GiveBack? ==> status == Stopped
      ensures t !in old(tasks) || t.GiveBack? ==> status == old(status)
    {
      Runs.StepKeeps(View(), false, Finish(t));
      if t !in tasks {
        return;
      }
      tasks, refs := tasks - multiset{t}, refs - {t.claim};
      match t
      case GiveBack(_) =>
      case YieldClose(c) =>
        status := Stopped;
        if current == Some(c) {
          current := None;
        }
      case StopClose(_) =>
        status := Stopped;
    }

    /** `stopRule` up to its close. */
    method StopRule(owned: bool)
      requires Inv(View())
      modifies this
      ensures View() == Step(old(View()), owned, Stop) && Inv(View())
      ensures owned ==> View() == old(View())
      ensures !owned ==> timers == {} && current.None? && forall a | a in dials :: Runs.Silent(View(), a)
      ensures !owned && old(status).Running? ==>
                status == old(status) && tasks == old(tasks) + multiset{StopClose(status.claim)}
      ensures !owned && !old(status).Running? ==> status == Stopped && tasks == old(tasks)
    {
      if owned {
        return;
      }
      StopEffects(View());
      Halt();
    }

    /** Its part past the ownership check. */
    method Halt()
      modifies this`status, this`current, this`tasks, this`retry, this`timers
      ensures View() == Stopping(old(View()), false)
    {
      CancelRetry();
      current := None;
      match status {
        case Running(c) => tasks := tasks + multiset{StopClose(c)};
        case _ => status := Stopped;
      }
    }

    /** `releaseRule`, behind `pageMustStopFirst`. */
    method ReleaseRule(owned: bool)
      requires Inv(View())
      modifies this
      ensures View() == Step(old(View()), owned, Release) && Inv(View())
      ensures MustStopFirst(old(View()), owned) ==> timers == {} && forall a | a in dials :: Runs.Silent(View(), a)
      ensures MustStopFirst(old(View()), owned) ==>
                if old(status).Running?
                then status == old(status) && tasks == old(tasks) + multiset{StopClose(status.claim)}
                else status == Stopped && tasks == old(tasks)
      ensures !MustStopFirst(old(View()), owned) ==> View() == old(View())
    {
      if !owned && (retry.Some? || status.Running? || status.Starting?) {
        StopRule(owned);
      }
    }
  }

  /** What a Stop does to a row no terminal owns. */
  lemma StopEffects(p: Page)
    requires Inv(p)
    ensures var q := Step(p, false, Stop);
            && Inv(q) && q.timers == {} && q.current.None? && forall a | a in q.dials :: Runs.Silent(q, a)
  {
    Runs.StepKeeps(p, false, Stop);
    Runs.OthersAreSilent(Step(p, false, Stop));
  }

  /** What a new dial does to those already out. */
  lemma BeginEffects(p: Page, o: Origin)
    requires forall a | a in p.dials :: a < p.next
    ensures var q := BeginStart(p, false, o);
            forall a | a in p.dials :: a in q.dials && q.dials[a] == p.dials[a] && Runs.Silent(q, a)
  {
    Runs.OthersAreSilent(BeginStart(p, false, o));
  }

  /** `useHostOwnedForwards`: one entry per rule a terminal brought up. */
  class OwnedMap {
    var byRule: map<T.RuleId, T.Listener>

    constructor ()
      ensures byRule == map[]
    {
      byRule := map[];
    }

    /** `claim`: overwrites, so that the newer listener is the one named. */
    method Claim(rule: T.RuleId, l: T.Listener)
      modifies this
      ensures byRule.Keys == old(byRule.Keys) + {rule} && byRule[rule] == l
      ensures forall r | r in old(byRule) && r != rule :: byRule[r] == old(byRule)[r]
    {
      byRule := byRule[rule := l];
    }

    /** `stopHostForwards` up to its closes: the entries of the session are gone, every
        other one stands, and each listener released is owed a close. */
    method ReleaseSession(session: T.Session) returns (owed: set<T.Listener>)
      modifies this
      ensures forall r :: r in byRule <==> r in old(byRule) && old(byRule)[r].session != session
      ensures forall r | r in byRule :: byRule[r] == old(byRule)[r]
      ensures forall l :: l in owed <==> l.session == session && l in old(byRule).Values
      ensures owed !! byRule.Values && owed + byRule.Values == old(byRule).Values
    {
      owed := set r | r in byRule && byRule[r].session == session :: byRule[r];
      byRule := map r | r in byRule && byRule[r].session != session :: byRule[r];
    }
  }
}
