/**
 One forward rule as the Port Forwarding page runs it (`forwards/controller.ts`
 over `forwards/runtime.ts`): Start, Stop, the dials in flight, the closes awaited,
 and the retry ladder of `startForwardAutostart`. A step is everything between two
 suspension points; a dial and an awaited close each end in a step of their own.
 Whether a terminal owns the rule is read from outside, so every step takes it.
 */
module PageForwards {
  import opened Records

  /** `FORWARD_RECONNECT_BACKOFF_MS`. */
  const BACKOFF: seq<nat> := [1000, 3000, 7000, 15000, 30000]

  /** A dial is named by its attempt, and so is the reference it takes. */
  type Attempt = nat

  datatype Status = Stopped | Starting | Running(claim: Attempt) | Failed

  /** Who asked for a dial: a person, or one rung of a ladder after `prior` retries. */
  datatype Origin = Manual | Rung(ladder: nat, prior: nat)

  /** A close being awaited, and what its caller does once it is done. */
  datatype Task =
    | GiveBack(claim: Attempt)    // a superseded dial returns its reference: nothing
    | YieldClose(claim: Attempt)  // a dial yields to a terminal: then markStopped
    | StopClose(claim: Attempt)   // a Stop: then markStopped

  /** A scheduled retry. */
  datatype Timer = Timer(ladder: nat, attempt: nat)

  /** What one ladder has done since it began. */
  datatype Ladder = Ladder(dials: nat, delays: seq<nat>, errors: nat)

  datatype Page = Page(
    status: Status,
    current: Option<Attempt>,     // `startAttempts`
    dials: map<Attempt, Origin>,  // in flight
    tasks: multiset<Task>,        // awaited closes
    refs: set<Attempt>,           // references taken and not yet given back
    retry: Option<Timer>,         // `forwardRetries`
    timers: set<Timer>,           // callbacks neither fired nor cleared
    next: Attempt,
    ladders: seq<Ladder>)

  datatype Event =
    | Start | Autostart | Fire(timer: Timer)
    | Resolve(a: Attempt) | Reject(a: Attempt, transport: bool)
    | Finish(task: Task)
    | Stop | Release
    | Claimed                     // a terminal claims the rule: markPageStopped on `failed`

  const IDLE: Page := Page(Stopped, None, map[], multiset{}, {}, None, {}, 0, [])

  /** `cancelForwardRetry`. */
  function Cancel(p: Page): Page {
    if p.retry.None? then p else p.(retry := None, timers := p.timers - {p.retry.value})
  }

  function Counted(p: Page, o: Origin): seq<Ladder> {
    if o.Rung? && o.ladder < |p.ladders|
    then p.ladders[o.ladder := p.ladders[o.ladder].(dials := p.ladders[o.ladder].dials + 1)]
    else p.ladders
  }

  /** `startRule` up to its dial: the retry cancelled, then refused to a terminal's
      owner, else a new attempt on file. */
  function BeginStart(p: Page, owned: bool, o: Origin): Page {
    var q := Cancel(p);
    if owned then q
    else q.(status := Starting, current := Some(q.next), dials := q.dials[q.next := o],
            next := q.next + 1, ladders := Counted(q, o))
  }

  /** The dial resolved: superseded, yielded, or published. */
  function Resolved(p: Page, owned: bool, a: Attempt): Page {
    var q := p.(dials := p.dials - {a}, refs := p.refs + {a});
    if p.current != Some(a) then q.(tasks := q.tasks + multiset{GiveBack(a)})
    else if owned then q.(tasks := q.tasks + multiset{YieldClose(a)})
    else q.(status := Running(a), current := None)
  }

  /** What a ladder does with a real failure of its rung: one error toast when it
      parks or gives up, otherwise the next rung's timer. */
  function Laddered(p: Page, l: nat, prior: nat, transport: bool): Page
    requires l < |p.ladders|
  {
    var was := p.ladders[l];
    if !transport || prior + 1 > |BACKOFF|
    then p.(ladders := p.ladders[l := was.(errors := was.errors + 1)])
    else
      var t := Timer(l, prior + 1);
      p.(retry := Some(t), timers := p.timers + {t},
         ladders := p.ladders[l := was.(delays := was.delays + [BACKOFF[prior]])])
  }

  /** The dial rejected: silent when superseded, stopped when a terminal has the
      rule, else failed, and the ladder (if it was a rung) reacts. */
  function Rejected(p: Page, owned: bool, a: Attempt, transport: bool): Page
    requires a in p.dials
  {
    var o := p.dials[a];
    var q := p.(dials := p.dials - {a});
    if p.current != Some(a) then q
    else if owned then q.(status := Stopped, current := None)
    else
      var f := q.(status := Failed, current := None);
      if o.Rung? && o.ladder < |f.ladders| then Laddered(f, o.ladder, o.prior, transport) else f
  }

  /** An awaited close came back. The last two kinds then mark the row stopped,
      whatever it reads by now. */
  function Finished(p: Page, t: Task): Page {
    var q := p.(tasks := p.tasks - multiset{t}, refs := p.refs - {t.claim});
    match t
    case GiveBack(_) => q
    case YieldClose(c) => q.(status := Stopped, current := if q.current == Some(c) then None else q.current)
    case StopClose(_) => q.(status := Stopped)
  }

  /** `stopRule` up to its close: nothing for a terminal's rule; else the retry and
      the attempt on file dropped, and the recorded reference given back. */
  function Stopping(p: Page, owned: bool): Page {
    if owned then p
    else
      var q := Cancel(p).(current := None);
      match q.status
      case Running(c) => q.(tasks := q.tasks + multiset{StopClose(c)})
      case _ => q.(status := Stopped)
  }

  /** `pageMustStopFirst`. */
  predicate MustStopFirst(p: Page, owned: bool) {
    !owned && (p.retry.Some? || p.status.Running? || p.status.Starting?)
  }

  /** One step. An event that is not possible in this state changes nothing. */
  function Step(p: Page, owned: bool, e: Event): Page {
    match e
    case Start => BeginStart(p, owned, Manual)
    case Autostart => BeginStart(p.(ladders := p.ladders + [Ladder(0, [], 0)]), owned, Rung(|p.ladders|, 0))
    case Fire(t) =>
      if t !in p.timers then p
      else BeginStart(p.(timers := p.timers - {t}, retry := None), owned, Rung(t.ladder, t.attempt))
    case Resolve(a) => if a in p.dials then Resolved(p, owned, a) else p
    case Reject(a, transport) => if a in p.dials then Rejected(p, owned, a, transport) else p
    case Finish(t) => if t in p.tasks then Finished(p, t) else p
    case Stop => Stopping(p, owned)
    case Release => if MustStopFirst(p, owned) then Stopping(p, owned) else p
    case Claimed => if p.status.Failed? then p.(status := Stopped) else p
  }

  /** The page after a run of events, each with what it read of the terminal. */
  function Exec(p: Page, run: seq<(Event, bool)>): Page {
    if run == [] then p
    else
      var q := Exec(p, run[..|run| - 1]);
      Step(q, run[|run| - 1].1, run[|run| - 1].0)
  }

  // --------------------------------------------------------------- invariants

  /** A ladder that has dialled for rung `k` and not failed it yet. */
  ghost predicate OnRung(p: Page, l: nat, dials: nat, k: nat) {
    l < |p.ladders| && k <= |BACKOFF| && p.ladders[l] == Ladder(dials, BACKOFF[..k], 0)
  }

  /** At most one live timer, the one on file, and none while an attempt is. */
  ghost predicate TimerInv(p: Page) {
    && p.timers == (if p.retry.Some? then {p.retry.value} else {})
    && (p.current.Some? ==> p.retry.None?)
  }

  /** A ladder is at one place at a time: one dial in flight or one timer pending. */
  ghost predicate LadderInv(p: Page) {
    && (forall a | a in p.dials && p.dials[a].Rung? ::
          OnRung(p, p.dials[a].ladder, p.dials[a].prior + 1, p.dials[a].prior))
    && (forall a, b | a in p.dials && b in p.dials && a != b && p.dials[a].Rung? && p.dials[b].Rung? ::
          p.dials[a].ladder != p.dials[b].ladder)
    && (forall t | t in p.timers :: 1 <= t.attempt && OnRung(p, t.ladder, t.attempt, t.attempt))
    && (forall l | 0 <= l < |p.ladders| :: Bounded(p.ladders[l]))
  }

  /** What one ladder may ever have done. */
  ghost predicate Bounded(l: Ladder) {
    && l.dials <= |BACKOFF| + 1
    && l.delays <= BACKOFF
    && l.errors <= 1
  }

  /** Attempts are fresh, and each is dialling, holding a reference, or over. */
  ghost predicate AttemptInv(p: Page) {
    && (forall a | a in p.dials :: a < p.next && a !in p.refs)
    && (forall a | a in p.refs :: a < p.next)
    && (forall t | t in p.tasks :: t.claim < p.next && t.claim !in p.dials)
    && (p.current.Some? ==> p.current.value < p.next && !p.status.Running?)
    && (p.status.Running? ==> p.status.claim in p.refs
                              && GiveBack(p.status.claim) !in p.tasks && YieldClose(p.status.claim) !in p.tasks)
  }

  ghost predicate Inv(p: Page) {
    TimerInv(p) && LadderInv(p) && AttemptInv(p)
  }
}
