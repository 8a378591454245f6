/**
 The forwards terminals open for themselves (`forwards/autostart.ts` over
 `forwards/hostOwned.ts`), interleaved with the page. Tabs attach to and detach
 from sessions; each 0-to-1 attach begins an epoch and one run of
 `startHostForwards`; the runs, the last-detach closes and the page's own steps
 interleave freely at every suspension point. A bind is two steps (asked for, then
 open), and the post-bind checks and the claim are one step, as in the source.
 */
module TerminalForwards {
  import P = PageForwards

  type Session = nat
  type Epoch = nat
  type Tab = nat
  type RuleId = string

  // ------------------------------------------------------------ tabs and epochs

  datatype Handle = Handle(session: Session, epoch: Epoch)

  datatype Tabs = Tabs(
    epochs: map<Session, Epoch>,     // `tabsBySession`: the epoch object on file
    counts: map<Epoch, nat>,         // that object's `tabs`
    attached: map<Tab, Handle>,      // tabs whose detach has not run
    sessions: map<Epoch, Session>,   // the session each epoch was begun on
    nextTab: Tab)

  /** `attachHostForwards`: the first tab on a session begins an epoch. */
  function AttachTab(t: Tabs, session: Session): Tabs {
    var first := session !in t.epochs;
    var e := if first then |t.sessions| else t.epochs[session];
    var count := if !first && e in t.counts then t.counts[e] else 0;
    Tabs(t.epochs[session := e], t.counts[e := count + 1],
         t.attached[t.nextTab := Handle(session, e)],
         if first then t.sessions[e := session] else t.sessions,
         t.nextTab + 1)
  }

  /** The detach an attach returned: idempotent, and the last one drops the epoch. */
  function DetachTab(t: Tabs, tab: Tab): Tabs {
    if tab !in t.attached then t
    else
      var Handle(session, e) := t.attached[tab];
      var left := if e in t.counts && t.counts[e] > 0 then t.counts[e] - 1 else 0;
      t.(attached := t.attached - {tab}, counts := t.counts[e := left],
         epochs := if left > 0 || session !in t.epochs || t.epochs[session] != e then t.epochs
                   else t.epochs - {session})
  }

  /** `stillLive`: the epoch object is the one on file for its session. */
  predicate StillLive(t: Tabs, e: Epoch) {
    e in t.sessions && t.sessions[e] in t.epochs && t.epochs[t.sessions[e]] == e
  }

  // ---------------------------------------------------------- runs and listeners

  /** What an open hands back, which is also what a map entry records: the session,
      the port bound and the generation that names this listener. */
  datatype Listener = Listener(session: Session, port: nat, generation: nat)

  datatype Opener = Opener(epoch: Epoch, rule: RuleId)

  /** Where one run is. `Holding` is the window between its bind and its post-bind
      checks; `Closing` is a close it awaits before going on, or before stopping. */
  datatype Phase =
    | Reading
    | Idle(rules: seq<RuleId>)
    | Binding(rule: RuleId, rest: seq<RuleId>)
    | Holding(rule: RuleId, l: Listener, rest: seq<RuleId>)
    | Closing(l: Listener, rest: seq<RuleId>, stop: bool)
    | Done

  datatype Net = Net(
    runs: map<Epoch, Phase>,
    owned: map<RuleId, Listener>,     // `hostOwned.byRule`
    live: set<Listener>,              // listeners the backend has open for runs
    stopping: set<Listener>,          // closes `stopHostForwards` still owes
    lost: set<Listener>,              // closes that reported a failure
    origin: map<Listener, Opener>)    // who opened each listener, ever

  function At(n: Net, e: Epoch, phase: Phase): Net {
    n.(runs := n.runs[e := phase])
  }

  /** A bind resolved: the listener is open and this run holds it. */
  function OpenListener(n: Net, e: Epoch, rule: RuleId, l: Listener, rest: seq<RuleId>): Net {
    n.(runs := n.runs[e := Holding(rule, l, rest)], live := n.live + {l}, origin := n.origin[l := Opener(e, rule)])
  }

  /** `claimHostOwned`. */
  function Claim(n: Net, e: Epoch, rule: RuleId, l: Listener, rest: seq<RuleId>): Net {
    n.(runs := n.runs[e := Idle(rest)], owned := n.owned[rule := l])
  }

  /** A close came back; one that reported a failure may have left the listener up. */
  function Shut(n: Net, l: Listener, ok: bool): Net {
    if ok then n.(live := n.live - {l}) else n.(lost := n.lost + {l})
  }

  /** `stopHostForwards` up to its closes: every entry of the session released. */
  function ReleaseSession(n: Net, session: Session): Net {
    var mine := set r | r in n.owned && n.owned[r].session == session;
    n.(owned := n.owned - mine, stopping := n.stopping + (set r | r in mine :: n.owned[r]))
  }

  // ------------------------------------------------------------------ the system

  datatype Sys = Sys(tabs: Tabs, net: Net, pages: map<RuleId, P.Page>)

  datatype Event =
    | Attach(session: Session)
    | Detach(tab: Tab)
    | ListRules(run: Epoch, rules: seq<RuleId>)
    | NextRule(run: Epoch)
    | BindOk(run: Epoch, port: nat, generation: nat)
    | BindFailed(run: Epoch)
    | PostBind(run: Epoch)
    | CloseDone(run: Epoch, ok: bool)
    | StopDone(l: Listener, ok: bool)
    | Abort(run: Epoch)
    | OnPage(rule: RuleId, e: P.Event)

  const INIT: Sys := Sys(Tabs(map[], map[], map[], map[], 0), Net(map[], map[], {}, {}, {}, map[]), map[])

  function PageOf(s: Sys, rule: RuleId): P.Page {
    if rule in s.pages then s.pages[rule] else P.IDLE
  }

  /** The phase of a run; `Done` for one that never was. */
  function PhaseOf(n: Net, e: Epoch): Phase {
    if e in n.runs then n.runs[e] else Done
  }

  /** The head of the loop over rules: liveness, then the terminals' map, then the
      page's, then the bind is asked for. */
  function NextPhase(s: Sys, e: Epoch, rules: seq<RuleId>): Phase {
    if rules == [] || !StillLive(s.tabs, e) then Done
    else
      var status := PageOf(s, rules[0]).status;
      if rules[0] in s.net.owned || status.Running? || status.Starting? then Idle(rules[1..])
      else Binding(rules[0], rules[1..])
  }

  /** The post-bind checks and the claim. */
  function Settle(s: Sys, e: Epoch, rule: RuleId, l: Listener, rest: seq<RuleId>): Sys {
    if !StillLive(s.tabs, e) then s.(net := At(s.net, e, Closing(l, rest, true)))
    else if rule in s.net.owned || PageOf(s, rule).status.Running?
    then s.(net := At(s.net, e, Closing(l, rest, false)))
    else s.(net := Claim(s.net, e, rule, l, rest),
            pages := s.pages[rule := P.Step(PageOf(s, rule), false, P.Claimed)])
  }

  /** One step of the whole system; an event that is not possible changes nothing. */
  function Step(s: Sys, ev: Event): Sys {
    match ev
    case Attach(session) =>
      var t := AttachTab(s.tabs, session);
      s.(tabs := t, net := if session in s.tabs.epochs then s.net else At(s.net, |s.tabs.sessions|, Reading))
    case Detach(tab) =>
      var t := DetachTab(s.tabs, tab);
      s.(tabs := t, net := if t.epochs == s.tabs.epochs then s.net
                           else ReleaseSession(s.net, s.tabs.attached[tab].session))
    case ListRules(e, rules) =>
      if PhaseOf(s.net, e).Reading? then s.(net := At(s.net, e, Idle(rules))) else s
    case NextRule(e) =>
      var phase := PhaseOf(s.net, e);
      if phase.Idle? then s.(net := At(s.net, e, NextPhase(s, e, phase.rules))) else s
    case BindOk(e, port, generation) =>
      var phase := PhaseOf(s.net, e);
      if phase.Binding? && e in s.tabs.sessions
         && Listener(s.tabs.sessions[e], port, generation) !in s.net.origin
      then s.(net := OpenListener(s.net, e, phase.rule, Listener(s.tabs.sessions[e], port, generation), phase.rest))
      else s
    case BindFailed(e) =>
      var phase := PhaseOf(s.net, e);
      if phase.Binding? then s.(net := At(s.net, e, Idle(phase.rest))) else s
    case PostBind(e) =>
      var phase := PhaseOf(s.net, e);
      if phase.Holding? then Settle(s, e, phase.rule, phase.l, phase.rest) else s
    case CloseDone(e, ok) =>
      var phase := PhaseOf(s.net, e);
      if phase.Closing?
      then s.(net := Shut(At(s.net, e, if phase.stop then Done else Idle(phase.rest)), phase.l, ok))
      else s
    case StopDone(l, ok) =>
      if l in s.net.stopping then s.(net := Shut(s.net.(stopping := s.net.stopping - {l}), l, ok)) else s
    case Abort(e) =>
      var phase := PhaseOf(s.net, e);
      if phase.Idle? || phase.Reading? then s.(net := At(s.net, e, Done)) else s
    case OnPage(rule, e) =>
      if e.Claimed? then s
      else s.(pages := s.pages[rule := P.Step(PageOf(s, rule), rule in s.net.owned, e)])
  }

  function Exec(s: Sys, run: seq<Event>): Sys {
    if run == [] then s else Step(Exec(s, run[..|run| - 1]), run[|run| - 1])
  }

  // --------------------------------------------------------------- invariants

  function TabsOn(t: Tabs, e: Epoch): set<Tab> {
    set x | x in t.attached && t.attached[x].epoch == e
  }

  /** An epoch on file belongs to its session, and counts exactly the tabs that hold
      it, of which there is one at least. */
  ghost predicate EpochOk(t: Tabs, x: Session)
    requires x in t.epochs
  {
    var e := t.epochs[x];
    && e in t.sessions && t.sessions[e] == x
    && e in t.counts && t.counts[e] == |TabsOn(t, e)| > 0
  }

  /** A tab that has not detached holds the epoch on file for its session. */
  ghost predicate TabOk(t: Tabs, x: Tab)
    requires x in t.attached
  {
    var Handle(session, e) := t.attached[x];
    x < t.nextTab && session in t.epochs && t.epochs[session] == e
  }

  ghost predicate TabsInv(t: Tabs) {
    && (forall x | x in t.epochs :: EpochOk(t, x))
    && (forall x | x in t.attached :: TabOk(t, x))
    && (forall e :: e in t.sessions <==> 0 <= e < |t.sessions|)
  }

  predicate Grips(phase: Phase) {
    phase.Holding? || phase.Closing?
  }

  ghost predicate InMap(n: Net, l: Listener) {
    l in n.origin && n.origin[l].rule in n.owned && n.owned[n.origin[l].rule] == l
  }

  ghost predicate InRun(n: Net, l: Listener) {
    && l in n.origin
    && var phase := PhaseOf(n, n.origin[l].epoch);
       Grips(phase) && phase.l == l
  }

  function One(b: bool): nat { if b then 1 else 0 }

  /** How many things answer for a listener. */
  ghost function Holders(n: Net, l: Listener): nat {
    One(InMap(n, l)) + One(InRun(n, l)) + One(l in n.stopping) + One(l in n.lost)
  }

  /** An open listener has exactly one holder, and one that is not open has none. */
  ghost predicate HeldOnce(n: Net, l: Listener) {
    Holders(n, l) == One(l in n.live)
  }

  /** What a run holds it opened itself, for the rule it is at. */
  ghost predicate GripOk(n: Net, e: Epoch) {
    var phase := PhaseOf(n, e);
    Grips(phase) ==>
      && phase.l in n.origin && n.origin[phase.l].epoch == e
      && (phase.Holding? ==> n.origin[phase.l].rule == phase.rule)
  }

  /** What the map names was opened for that rule. */
  ghost predicate EntryOk(n: Net, r: RuleId)
    requires r in n.owned
  {
    n.owned[r] in n.origin && n.origin[n.owned[r]].rule == r
  }

  ghost predicate NetInv(n: Net) {
    && (forall e :: GripOk(n, e))
    && (forall r | r in n.owned :: EntryOk(n, r))
    && n.live + n.stopping + n.lost <= n.origin.Keys
    && (forall l | l in n.origin :: HeldOnce(n, l))
  }

  /** A listener is on the session its epoch was begun on, and what the map names was
      opened in the epoch that is on file for its session now. */
  ghost predicate LinkInv(s: Sys) {
    && s.net.runs.Keys == s.tabs.sessions.Keys
    && (forall l | l in s.net.origin ::
          s.net.origin[l].epoch in s.tabs.sessions && s.tabs.sessions[s.net.origin[l].epoch] == l.session)
    && (forall r | r in s.net.owned ::
          s.net.owned[r] in s.net.origin && StillLive(s.tabs, s.net.origin[s.net.owned[r]].epoch))
  }

  /** The page and a terminal never have one rule at once. */
  ghost predicate ExclusionInv(s: Sys) {
    forall r | r in s.net.owned :: !PageOf(s, r).status.Running?
  }

  ghost predicate Inv(s: Sys) {
    TabsInv(s.tabs) && NetInv(s.net) && LinkInv(s) && ExclusionInv(s)
  }
}
