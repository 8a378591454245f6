/**
 What each call does to a row, told by what a user sees of it and by the references it
 holds, and what that comes to over whole runs: a dial that counts comes up, a row that
 is stopped comes down, and every reference taken is accounted for.
 */
module PageLaws {
  import opened Records
  import opened PageForwards
  import opened PageRuns

  // ---------------------------------------------------------------- one call at a time

  /** A dial of this rule is about to begin: somebody started it, or a live timer did. */
  predicate Dials(p: Page, owned: bool, e: Event) {
    !owned && (e.Start? || e.Autostart? || (e.Fire? && e.timer in p.timers))
  }

  /** A Stop acts on this row. */
  predicate Stops(p: Page, owned: bool, e: Event) {
    && !owned
    && (e.Stop? || (e.Release? && (p.retry.Some? || p.status.Running? || p.status.Starting?)))
  }

  /** The dial that comes back is the one on file. */
  predicate OnFile(p: Page, e: Event) {
    (e.Resolve? || e.Reject?) && e.a in p.dials && p.current == Some(e.a)
  }

  /** Every change of status, and nothing else changes it. */
  lemma StatusAfter(p: Page, owned: bool, e: Event)
    ensures var s := Step(p, owned, e).status;
            if Dials(p, owned, e) then s == Starting
            else if Stops(p, owned, e) then s == if p.status.Running? then p.status else Stopped
            else if OnFile(p, e) && e.Resolve? then s == if owned then p.status else Running(e.a)
            else if OnFile(p, e) && e.Reject? then s == if owned then Stopped else Failed
            else if e.Finish? && e.task in p.tasks && !e.task.GiveBack? then s == Stopped
            else if e.Claimed? && p.status.Failed? then s == Stopped
            else s == p.status
  {
  }

  /** Every close begun, with the reference it returns. */
  lemma ClosesAfter(p: Page, owned: bool, e: Event)
    ensures var t := Step(p, owned, e).tasks;
            if Stops(p, owned, e) && p.status.Running? then t == p.tasks + multiset{StopClose(p.status.claim)}
            else if e.Resolve? && e.a in p.dials && p.current != Some(e.a) then t == p.tasks + multiset{GiveBack(e.a)}
            else if OnFile(p, e) && e.Resolve? && owned then t == p.tasks + multiset{YieldClose(e.a)}
            else if e.Finish? && e.task in p.tasks then t == p.tasks - multiset{e.task}
            else t == p.tasks
  {
    if e.Resolve? {
      ClosesAfterDial(p, owned, e.a);
    } else if Stops(p, owned, e) {
      ClosesAfterStop(p, owned, e);
    } else {
      NothingElseCloses(p, owned, e);
    }
  }

  lemma ClosesAfterDial(p: Page, owned: bool, a: Attempt)
    ensures var t := Step(p, owned, Resolve(a)).tasks;
            if a !in p.dials then t == p.tasks
            else if p.current != Some(a) then t == p.tasks + multiset{GiveBack(a)}
            else t == if owned then p.tasks + multiset{YieldClose(a)} else p.tasks
  {
  }

  lemma ClosesAfterStop(p: Page, owned: bool, e: Event)
    requires Stops(p, owned, e)
    ensures Step(p, owned, e).tasks
         == if p.status.Running? then p.tasks + multiset{StopClose(p.status.claim)} else p.tasks
  {
  }

  lemma NothingElseCloses(p: Page, owned: bool, e: Event)
    requires !e.Resolve? && !Stops(p, owned, e)
    ensures Step(p, owned, e).tasks
         == if e.Finish? && e.task in p.tasks then p.tasks - multiset{e.task} else p.tasks
  {
  }

  /** Every reference taken and given back. */
  lemma ReferencesAfter(p: Page, owned: bool, e: Event)
    ensures Step(p, owned, e).refs ==
            if e.Resolve? && e.a in p.dials then p.refs + {e.a}
            else if e.Finish? && e.task in p.tasks then p.refs - {e.task.claim}
            else p.refs
  {
    if e.Resolve? {
      TakesReference(p, owned, e.a);
    } else if e.Finish? {
      GivesReferenceBack(p, owned, e.task);
    }
  }

  lemma TakesReference(p: Page, owned: bool, a: Attempt)
    ensures Step(p, owned, Resolve(a)).refs == if a in p.dials then p.refs + {a} else p.refs
  {
  }

  lemma GivesReferenceBack(p: Page, owned: bool, t: Task)
    ensures Step(p, owned, Finish(t)).refs == if t in p.tasks then p.refs - {t.claim} else p.refs
  {
  }

  /** Every dial begun, under a number never used before, and every one ended. */
  lemma DialsAfter(p: Page, owned: bool, e: Event)
    ensures var q := Step(p, owned, e);
            if Dials(p, owned, e) then q.dials.Keys == p.dials.Keys + {p.next} && q.next == p.next + 1
            else
              && q.next == p.next
              && q.dials.Keys == if e.Resolve? || e.Reject? then p.dials.Keys - {e.a} else p.dials.Keys
  {
    if Dials(p, owned, e) {
      DialBegins(p, owned, e);
    } else {
      NoDialBegins(p, owned, e);
    }
  }

  lemma DialBegins(p: Page, owned: bool, e: Event)
    requires Dials(p, owned, e)
    ensures Step(p, owned, e).dials.Keys == p.dials.Keys + {p.next} && Step(p, owned, e).next == p.next + 1
  {
  }

  lemma NoDialBegins(p: Page, owned: bool, e: Event)
    requires !Dials(p, owned, e)
    ensures Step(p, owned, e).next == p.next
    ensures Step(p, owned, e).dials.Keys == if e.Resolve? || e.Reject? then p.dials.Keys - {e.a} else p.dials.Keys
  {
    if e.Resolve? || e.Reject? {
      DialEnds(p, owned, e);
    }
  }

  lemma DialEnds(p: Page, owned: bool, e: Event)
    requires e.Resolve? || e.Reject?
    ensures Step(p, owned, e).next == p.next
    ensures Step(p, owned, e).dials == if e.a in p.dials then p.dials - {e.a} else p.dials
  {
  }

  /** Who asked for a dial stays with it: a person, a launch's ladder at its first rung, or
      a retry at its own. */
  lemma OriginsAfter(p: Page, owned: bool, e: Event, a: Attempt)
    requires a in Step(p, owned, e).dials
    ensures var o := Step(p, owned, e).dials[a];
            if Dials(p, owned, e) && a == p.next
            then o == match e
                      case Start => Manual
                      case Fire(t) => Rung(t.ladder, t.attempt)
                      case _ => Rung(|p.ladders|, 0)
            else a in p.dials && o == p.dials[a]
  {
  }

  /** The attempt on file: a dial puts itself there, its own outcome takes it off, and so
      does a Stop; a resolved dial that yields leaves it until its close is done. */
  lemma OnFileAfter(p: Page, owned: bool, e: Event)
    ensures var c := Step(p, owned, e).current;
            if Dials(p, owned, e) then c == Some(p.next)
            else if Stops(p, owned, e) then c == None
            else if OnFile(p, e) then c == if e.Resolve? && owned then p.current else None
            else if e.Finish? && e.task in p.tasks && e.task.YieldClose? && p.current == Some(e.task.claim)
            then c == None
            else c == p.current
  {
  }

  // ------------------------------------------------------------------ over whole runs

  predicate Begins(e: Event) {
    e.Start? || e.Autostart?
  }

  /** What holds from the Stop of a forward on: its close is awaited, or it is down. */
  ghost predicate GoingDown(p: Page, c: Attempt) {
    && AttemptInv(p) && p.timers == {} && p.current.None? && c < p.next && c !in p.dials
    && (p.status == Running(c) || p.status == Stopped)
    && (StopClose(c) in p.tasks || (p.status == Stopped && c !in p.refs))
  }

  lemma GoesDown(p: Page, c: Attempt, owned: bool, e: Event)
    requires GoingDown(p, c) && Inv(p) && !Begins(e)
    ensures GoingDown(Step(p, owned, e), c)
  {
    StatusAfter(p, owned, e);
    ClosesAfter(p, owned, e);
    ReferencesAfter(p, owned, e);
    DialsAfter(p, owned, e);
    OnFileAfter(p, owned, e);
    StepKeeps(p, owned, e);
    QuietStep(p, owned, e);
  }

  /** Stopping a running forward brings it down: a Stop, or a release, of a row no
      terminal owns awaits exactly one close of the recorded reference; and until somebody
      starts the rule again, whatever happens, once no such close is awaited the row reads
      stopped and the reference is given back. */
  lemma {:induction false} StopComesDown(p: Page, e: Event, run: seq<(Event, bool)>)
    requires Inv(p) && p.status.Running? && (e.Stop? || e.Release?)
    requires forall x | x in run :: !Begins(x.0)
    ensures Step(p, false, e).tasks == p.tasks + multiset{StopClose(p.status.claim)}
    ensures var q := Exec(Step(p, false, e), run);
            && Inv(q) && GoingDown(q, p.status.claim)
            && (StopClose(p.status.claim) !in q.tasks ==> q.status == Stopped && p.status.claim !in q.refs)
  {
    ClosesAfter(p, false, e);
    if run == [] {
      StopStarts(p, e);
    } else {
      var n := |run| - 1;
      assert run[n] in run;
      assert forall x | x in run[..n] :: x in run;
      StopComesDown(p, e, run[..n]);
      var s := Exec(Step(p, false, e), run[..n]);
      GoesDown(s, p.status.claim, run[n].1, run[n].0);
      StepKeeps(s, run[n].1, run[n].0);
    }
  }

  lemma StopStarts(p: Page, e: Event)
    requires Inv(p) && p.status.Running? && (e.Stop? || e.Release?)
    ensures Inv(Step(p, false, e)) && GoingDown(Step(p, false, e), p.status.claim)
  {
    StatusAfter(p, false, e);
    ClosesAfter(p, false, e);
    ReferencesAfter(p, false, e);
    DialsAfter(p, false, e);
    OnFileAfter(p, false, e);
    StepKeeps(p, false, e);
    assert p.current.None? && p.status.claim in p.refs;
  }

  /** And a row that is not running is stopped at once. */
  lemma StopIsImmediate(p: Page, run: seq<(Event, bool)>)
    requires Inv(p) && !p.status.Running?
    requires forall x | x in run :: !Begins(x.0)
    ensures Step(p, false, Stop).status == Stopped && Step(p, false, Stop).tasks == p.tasks
    ensures Exec(Step(p, false, Stop), run).status == Stopped
  {
    StatusAfter(p, false, Stop);
    ClosesAfter(p, false, Stop);
    StaysStopped(Step(p, false, Stop), run);
  }

  lemma {:induction false} StaysStopped(p: Page, run: seq<(Event, bool)>)
    requires p.status == Stopped && p.timers == {} && p.current.None?
    requires forall x | x in run :: !Begins(x.0)
    ensures var q := Exec(p, run); q.status == Stopped && q.timers == {} && q.current.None?
  {
    if run != [] {
      var n := |run| - 1;
      assert run[n] in run;
      assert forall x | x in run[..n] :: x in run;
      StaysStopped(p, run[..n]);
      StatusAfter(Exec(p, run[..n]), run[n].1, run[n].0);
      QuietStep(Exec(p, run[..n]), run[n].1, run[n].0);
    }
  }

  /** Nobody stops, starts or claims the rule, and no close that marks it stopped is
      awaited when the dial is begun. */
  predicate LeftAlone(e: Event) {
    !e.Start? && !e.Autostart? && !e.Stop? && !e.Release? && !e.Claimed?
  }

  /** A dial on file that nothing awaited can disturb. */
  ghost predicate ComingUp(q: Page, a: Attempt) {
    && q.status == Starting && q.current == Some(a) && a in q.dials && q.timers == {}
    && forall t | t in q.tasks :: t.GiveBack?
  }

  lemma StaysComingUp(q: Page, a: Attempt, owned: bool, e: Event)
    requires ComingUp(q, a) && LeftAlone(e) && !((e.Resolve? || e.Reject?) && e.a == a)
    ensures ComingUp(Step(q, owned, e), a)
  {
    StatusAfter(q, owned, e);
    ClosesAfter(q, owned, e);
    DialsAfter(q, owned, e);
    OnFileAfter(q, owned, e);
  }

  /** A Start that is left alone comes up, or fails, by the outcome of its own dial, and
      by nothing else: until then the row reads starting. */
  lemma {:induction false} StartComesUp(p: Page, run: seq<(Event, bool)>)
    requires Inv(p) && forall t | t in p.tasks :: t.GiveBack?
    requires forall x | x in run :: LeftAlone(x.0) && !((x.0.Resolve? || x.0.Reject?) && x.0.a == p.next)
    ensures ComingUp(Exec(Step(p, false, Start), run), p.next)
  {
    if run == [] {
      StatusAfter(p, false, Start);
      ClosesAfter(p, false, Start);
      DialsAfter(p, false, Start);
      OnFileAfter(p, false, Start);
      StepKeeps(p, false, Start);
    } else {
      var n := |run| - 1;
      assert run[n] in run;
      assert forall x | x in run[..n] :: x in run;
      StartComesUp(p, run[..n]);
      StaysComingUp(Exec(Step(p, false, Start), run[..n]), p.next, run[n].1, run[n].0);
    }
  }

  /** What its dial then makes of it: running, failed, or stopped under a terminal. */
  lemma ComesUpAs(q: Page, a: Attempt, transport: bool)
    requires ComingUp(q, a)
    ensures Step(q, false, Resolve(a)).status == Running(a)
    ensures Step(q, false, Reject(a, transport)).status == Failed
    ensures Step(q, true, Reject(a, transport)).status == Stopped
  {
    StatusAfter(q, false, Resolve(a));
    StatusAfter(q, false, Reject(a, transport));
    StatusAfter(q, true, Reject(a, transport));
  }
}
