/**
 Several converts of one host at once. Every keychain write, record write and delete
 is a step of its own, so the runs interleave anywhere the calls await; a host write
 can throw after the record was set, and a stale account can refuse to be cleared.
 */
module ConvertRuns {
  import opened Records
  import opened HostStore
  import opened JumpChains
  import opened Vault
  import opened CredentialMoves

  datatype Stage =
    | Begin | Copying(i: nat) | PutKey | PutIdentity | PutHost
    | Releasing(todo: set<Field>, stuck: bool)
    | UndoIdentity | UndoKey
    | Finished | Failed | Stranded

  /** `won` records that this run's host write set the record. */
  datatype Run = Run(q: Request, stage: Stage, copied: set<Field>, won: bool)

  /** Which run moves; whether its host write or its delete throws this time; which
      stale account it is about to clear. */
  datatype Event = Event(run: nat, fault: bool, field: Field)

  /** `lead` and `cleared` record whose host write landed and what it has released. */
  datatype State = State(w: World, runs: seq<Run>, lead: Option<nat>, cleared: set<Field>)

  function StepWorld(w: World, r: Run, e: Event, cap: nat): World {
    var q := r.q;
    match r.stage
    case Copying(i) => if i < |Moves(q)| then w.(keychain := Copy(w.keychain, Moves(q)[i])) else w
    case PutKey =>
      if Minted(q).None? || !KeyWritable(w, q) then w else w.(keys := w.keys[q.keyId := NewKey(q, r.copied)])
    case PutIdentity =>
      if IdentityWritable(w, q) then w.(identities := w.identities[q.identityId := NewIdentity(q, r.copied)]) else w
    case PutHost => if HostWriteOk(w, BoundHost(q), OwnsInline, cap) then PersistHost(w, BoundHost(q), {}) else w
    case Releasing(todo, _) =>
      if e.field in todo && !e.fault then w.(keychain := w.keychain - {HostAccount(q.host.id, e.field)}) else w
    case UndoIdentity => DropIdentity(w, q.identityId)
    case UndoKey => if Minted(q).Some? then DropKey(w, q.keyId) else w
    case _ => w
  }

  /** `upsertKey`'s own checks: a name, and nothing at a minted id. */
  predicate KeyWritable(w: World, q: Request) {
    q.choice.Mint? && q.choice.name != "" && q.keyId !in w.keys
  }

  /** `upsertIdentity`'s own checks. */
  predicate IdentityWritable(w: World, q: Request) {
    q.identityId !in w.identities && KeyRefOk(NewIdentity(q, {}), w.keys.Keys)
  }

  function StepRun(w: World, r: Run, e: Event, cap: nat): Run {
    var q := r.q;
    match r.stage
    case Begin => r.(stage := if PreCheck(q, w.keys).Some? then Failed else Copying(0))
    case Copying(i) =>
      if i < |Moves(q)|
      then r.(stage := Copying(i + 1),
              copied := if Moves(q)[i].source in w.keychain then r.copied + {Moves(q)[i].field} else r.copied)
      else r.(stage := PutKey)
    case PutKey => r.(stage := if Minted(q).Some? && !KeyWritable(w, q) then Stranded else PutIdentity)
    case PutIdentity => r.(stage := if IdentityWritable(w, q) then PutHost else Stranded)
    case PutHost =>
      if !HostWriteOk(w, BoundHost(q), OwnsInline, cap) then r.(stage := UndoIdentity)
      else r.(won := true,
              stage := if e.fault then UndoIdentity
                       else Releasing(StaleFields(BoundHost(q), Lookup(w.hosts, q.host.id)), false))
    case Releasing(todo, stuck) =>
      if e.field in todo then r.(stage := Releasing(todo - {e.field}, stuck || e.fault))
      else if todo == {} then r.(stage := if stuck then UndoIdentity else Finished)
      else r
    case UndoIdentity => r.(stage := UndoKey)
    case UndoKey => r.(stage := Failed)
    case _ => r
  }

  function Step(s: State, e: Event, cap: nat): State {
    if e.run >= |s.runs| then s
    else
      var r := s.runs[e.run];
      var t := StepRun(s.w, r, e, cap);
      State(StepWorld(s.w, r, e, cap), s.runs[e.run := t],
            if t.won then Some(e.run) else s.lead,
            if r.stage.Releasing? && e.field in r.stage.todo && !e.fault then s.cleared + {e.field} else s.cleared)
  }

  function Exec(s: State, es: seq<Event>, cap: nat): State {
    if es == [] then s else Step(Exec(s, es[..|es| - 1], cap), es[|es| - 1], cap)
  }

  function Started(w: World, qs: seq<Request>): State {
    State(w, seq(|qs|, i requires 0 <= i < |qs| => Run(qs[i], Begin, {}, false)), None, {})
  }

  // ----------------------------------------------------------------- invariants

  /** Two converts mint different ids, and neither reuses a key the other is only
      now creating: what the user was offered was listed before any of them ran. */
  ghost predicate Apart(p: Request, q: Request) {
    && p.identityId != q.identityId && p.keyId != q.keyId
    && NamedKey(p) != Some(q.keyId) && NamedKey(q) != Some(p.keyId)
  }

  /** Converts of one host, all with ids that are fresh in the same world. */
  ghost predicate WellPosed(w: World, id: Id, qs: seq<Request>) {
    && (forall i | 0 <= i < |qs| :: qs[i].host.id == id && Fresh(w, qs[i])
          && (Minted(qs[i]).None? ==> NamedKey(qs[i]) != Some(qs[i].keyId)))
    && (forall i, j | 0 <= i < |qs| && 0 <= j < |qs| && i != j :: Apart(qs[i], qs[j]))
  }

  function Rank(f: Field): nat {
    match f case PasswordField => 0 case PrivateKeyField => 1 case PassphraseField => 2
  }

  /** How many moves a run has tried. */
  function Progress(r: Run): nat {
    match r.stage case Begin => 0 case Copying(i) => i case _ => 3
  }

  predicate Travels(q: Request, f: Field) {
    f == PasswordField || Minted(q).Some?
  }

  predicate HasIdentity(r: Run) {
    r.won || r.stage.PutHost? || r.stage.UndoIdentity?
  }

  predicate HasKey(r: Run) {
    Minted(r.q).Some? &&
    (r.won || r.stage.PutIdentity? || r.stage.PutHost? || r.stage.UndoIdentity? || r.stage.UndoKey?)
  }

  /** The vault accounts a run's own records, or its copies, account for. */
  predicate Holds(r: Run, f: Field) {
    f in r.copied && (r.won || !(r.stage.Failed? || (r.stage.UndoKey? && f == PasswordField)))
  }

  predicate Mine(q: Request, a: Account) {
    a == VaultAccount(q.identityId, q.keyId, a.field)
  }

  ghost predicate IdentitySlot(w: World, r: Run) {
    Lookup(w.identities, r.q.identityId) == if HasIdentity(r) then Some(NewIdentity(r.q, r.copied)) else None
  }

  ghost predicate KeySlot(w: World, r: Run) {
    && (HasKey(r) ==> r.q.choice.Mint?)
    && Lookup(w.keys, r.q.keyId) == if HasKey(r) then Some(NewKey(r.q, r.copied)) else None
  }

  ghost predicate AccountSlot(kc: Keychain, w: World, r: Run, f: Field) {
    Lookup(w.keychain, VaultAccount(r.q.identityId, r.q.keyId, f))
    == if Holds(r, f) then Lookup(kc, HostAccount(r.q.host.id, f)) else None
  }

  ghost predicate CopiedSlot(kc: Keychain, r: Run, f: Field) {
    f in r.copied ==> HostAccount(r.q.host.id, f) in kc && Travels(r.q, f) && Rank(f) < Progress(r)
  }

  /** Nothing was released while this run copied, so it missed nothing. */
  ghost predicate FullSlot(kc: Keychain, r: Run, f: Field) {
    && Travels(r.q, f) && Rank(f) < Progress(r) && HostAccount(r.q.host.id, f) in kc
    && (r.won || !r.stage.Failed?)
    ==> f in r.copied
  }

  ghost predicate StageOk(w0: World, r: Run) {
    && (!r.stage.Begin? && !r.stage.Failed? ==> PreCheck(r.q, w0.keys) == None)
    && (r.won ==> PreCheck(r.q, w0.keys) == None)
    && (r.stage.Copying? ==> r.stage.i <= |Moves(r.q)|)
    && (r.stage.Releasing? || r.stage.Finished? ==> r.won)
    && (r.won ==> || r.stage.Releasing? || r.stage.Finished?
                  || r.stage.UndoIdentity? || r.stage.UndoKey? || r.stage.Failed?)
    && (r.stage.Stranded? ==> Minted(r.q).Some? && r.q.choice.name == "")
  }

  /** What one run may say of the world, given the keychain all of them started from. */
  ghost predicate RunOk(w0: World, w: World, r: Run) {
    && IdentitySlot(w, r) && KeySlot(w, r) && StageOk(w0, r)
    && (forall f :: AccountSlot(w0.keychain, w, r, f))
    && (forall f :: CopiedSlot(w0.keychain, r, f))
  }

  /** What a run relies on the rest of the world for. */
  ghost predicate Context(w0: World, w: World, r: Run) {
    var q := r.q;
    && (q.choice.Reuse? && NeedsKey(q.host) ==>
          q.choice.keyId != q.keyId && Lookup(w.keys, q.choice.keyId) == Lookup(w0.keys, q.choice.keyId))
    && (!r.won ==> !Held(w, q.identityId))
    && (r.won ==> q.host.id in w.hosts && w.hosts[q.host.id].cred == Bound(q.identityId))
    && (forall i | i in w.identities && i != q.identityId :: w.identities[i].keyId != Some(q.keyId))
  }

  ghost predicate HostSlot(kc: Keychain, w: World, q: Request, f: Field) {
    Lookup(w.keychain, HostAccount(q.host.id, f)) in {None, Lookup(kc, HostAccount(q.host.id, f))}
  }

  // ------------------------------------------------------------- one run's step

  lemma MoveAt(q: Request, i: nat)
    requires i < |Moves(q)|
    ensures var m := Moves(q)[i];
            && Rank(m.field) == i && Travels(q, m.field)
            && m.source == HostAccount(q.host.id, m.field)
            && m.target == VaultAccount(q.identityId, q.keyId, m.field)
  {
  }

  lemma MoveCount(q: Request, f: Field)
    requires Travels(q, f)
    ensures Rank(f) < |Moves(q)|
  {
  }

  lemma OwnStage(w0: World, w: World, r: Run, e: Event, cap: nat)
    requires StageOk(w0, r) && Context(w0, w, r) && IdentitySlot(w, r) && KeySlot(w, r)
    ensures StageOk(w0, StepRun(w, r, e, cap))
  {
    var q := r.q;
    match r.stage
    case Begin => PreCheckSame(w0, w, r);
    case PutIdentity => assert NamedKey(q).Some? && Minted(q).None? ==> q.choice.Reuse?;
    case _ =>
  }

  lemma PreCheckSame(w0: World, w: World, r: Run)
    requires Context(w0, w, r)
    ensures PreCheck(r.q, w.keys) == PreCheck(r.q, w0.keys)
  {
  }

  lemma OwnIdentity(w0: World, w: World, r: Run, e: Event, cap: nat)
    requires StageOk(w0, r) && Context(w0, w, r) && IdentitySlot(w, r)
    ensures IdentitySlot(StepWorld(w, r, e, cap), StepRun(w, r, e, cap))
  {
    if r.stage.UndoIdentity? {
      assert r.won ==> Held(w, r.q.identityId);
    }
  }

  lemma OwnKey(w0: World, w: World, r: Run, e: Event, cap: nat)
    requires StageOk(w0, r) && Context(w0, w, r) && IdentitySlot(w, r) && KeySlot(w, r)
    ensures KeySlot(StepWorld(w, r, e, cap), StepRun(w, r, e, cap))
  {
    if r.stage.UndoKey? && Minted(r.q).Some? {
      if r.won {
        assert w.identities[r.q.identityId].keyId == Some(r.q.keyId);
        assert KeyInUse(w, r.q.keyId);
      } else {
        assert !KeyInUse(w, r.q.keyId);
      }
    }
  }

  lemma OwnCopied(w0: World, w: World, r: Run, e: Event, cap: nat, f: Field)
    requires StageOk(w0, r) && CopiedSlot(w0.keychain, r, f) && HostSlot(w0.keychain, w, r.q, f)
    ensures CopiedSlot(w0.keychain, StepRun(w, r, e, cap), f)
  {
    if r.stage.Copying? && r.stage.i < |Moves(r.q)| {
      MoveAt(r.q, r.stage.i);
    }
  }

  lemma OwnAccountCopied(w0: World, w: World, r: Run, e: Event, cap: nat, f: Field)
    requires r.stage.Copying? && !r.won
    requires AccountSlot(w0.keychain, w, r, f) && CopiedSlot(w0.keychain, r, f) && HostSlot(w0.keychain, w, r.q, f)
    ensures AccountSlot(w0.keychain, StepWorld(w, r, e, cap), StepRun(w, r, e, cap), f)
  {
    if r.stage.i < |Moves(r.q)| {
      MoveAt(r.q, r.stage.i);
    }
  }

  lemma OwnAccountUndone(w0: World, w: World, r: Run, e: Event, cap: nat, f: Field)
    requires r.stage.UndoIdentity? || r.stage.UndoKey?
    requires Context(w0, w, r) && IdentitySlot(w, r) && KeySlot(w, r)
    requires AccountSlot(w0.keychain, w, r, f) && CopiedSlot(w0.keychain, r, f)
    ensures AccountSlot(w0.keychain, StepWorld(w, r, e, cap), StepRun(w, r, e, cap), f)
  {
    var q := r.q;
    if r.stage.UndoIdentity? {
      assert r.won ==> Held(w, q.identityId);
    } else if r.won && Minted(q).Some? {
      assert w.identities[q.identityId].keyId == Some(q.keyId);
      assert KeyInUse(w, q.keyId);
    } else if Minted(q).Some? {
      assert !KeyInUse(w, q.keyId);
    }
  }

  lemma OwnAccount(w0: World, w: World, r: Run, e: Event, cap: nat, f: Field)
    requires StageOk(w0, r) && Context(w0, w, r) && IdentitySlot(w, r) && KeySlot(w, r)
    requires AccountSlot(w0.keychain, w, r, f) && CopiedSlot(w0.keychain, r, f) && HostSlot(w0.keychain, w, r.q, f)
    ensures AccountSlot(w0.keychain, StepWorld(w, r, e, cap), StepRun(w, r, e, cap), f)
  {
    if r.stage.Copying? {
      OwnAccountCopied(w0, w, r, e, cap, f);
    } else if r.stage.UndoIdentity? || r.stage.UndoKey? {
      OwnAccountUndone(w0, w, r, e, cap, f);
    } else {
      OwnAccountKept(w0.keychain, w, r, e, cap, f);
    }
  }

  lemma OwnAccountKept(kc: Keychain, w: World, r: Run, e: Event, cap: nat, f: Field)
    requires !(r.stage.Copying? || r.stage.UndoIdentity? || r.stage.UndoKey?)
    requires r.stage.Begin? ==> f !in r.copied
    requires AccountSlot(kc, w, r, f)
    ensures AccountSlot(kc, StepWorld(w, r, e, cap), StepRun(w, r, e, cap), f)
  {
  }

  lemma OwnFull(w0: World, w: World, r: Run, e: Event, cap: nat, f: Field)
    requires StageOk(w0, r) && FullSlot(w0.keychain, r, f)
    requires !r.won ==>
               Lookup(w.keychain, HostAccount(r.q.host.id, f)) == Lookup(w0.keychain, HostAccount(r.q.host.id, f))
    ensures FullSlot(w0.keychain, StepRun(w, r, e, cap), f)
  {
    if r.stage.Copying? && r.stage.i < |Moves(r.q)| {
      MoveAt(r.q, r.stage.i);
    } else if r.stage.Copying? && Travels(r.q, f) {
      MoveCount(r.q, f);
    }
  }

  // ----------------------------------------------------------- the other slots

  /** A step writes only its own run's vault accounts, and clears only host accounts. */
  lemma TouchesOwn(w: World, r: Run, e: Event, cap: nat, a: Account)
    requires !Mine(r.q, a) && a.service == VaultService
    ensures Lookup(StepWorld(w, r, e, cap).keychain, a) == Lookup(w.keychain, a)
  {
    if r.stage.Copying? && r.stage.i < |Moves(r.q)| {
      MoveAt(r.q, r.stage.i);
    }
  }

  lemma TouchesHost(w: World, r: Run, e: Event, cap: nat, a: Account)
    requires a.service == HostService
    ensures Lookup(StepWorld(w, r, e, cap).keychain, a) ==
            if r.stage.Releasing? && e.field in r.stage.todo && !e.fault && a == HostAccount(r.q.host.id, e.field)
            then None else Lookup(w.keychain, a)
  {
    if r.stage.Copying? && r.stage.i < |Moves(r.q)| {
      MoveAt(r.q, r.stage.i);
    }
  }

  lemma TouchesRecords(w: World, r: Run, e: Event, cap: nat, x: Id)
    ensures x != r.q.identityId ==>
              Lookup(StepWorld(w, r, e, cap).identities, x) == Lookup(w.identities, x)
    ensures x != r.q.keyId ==> Lookup(StepWorld(w, r, e, cap).keys, x) == Lookup(w.keys, x)
    ensures StepWorld(w, r, e, cap).defaults == w.defaults
  {
  }

  /** One run's step is invisible to another. */
  lemma OtherRun(w0: World, w: World, r: Run, e: Event, cap: nat, p: Run)
    requires Apart(p.q, r.q) && RunOk(w0, w, p)
    ensures RunOk(w0, StepWorld(w, r, e, cap), p)
  {
    TouchesRecords(w, r, e, cap, p.q.identityId);
    TouchesRecords(w, r, e, cap, p.q.keyId);
    forall f ensures AccountSlot(w0.keychain, StepWorld(w, r, e, cap), p, f) {
      assert AccountSlot(w0.keychain, w, p, f);
      TouchesOwn(w, r, e, cap, VaultAccount(p.q.identityId, p.q.keyId, f));
    }
  }

  lemma OwnRun(w0: World, w: World, r: Run, e: Event, cap: nat)
    requires RunOk(w0, w, r) && Context(w0, w, r) && forall f :: HostSlot(w0.keychain, w, r.q, f)
    ensures RunOk(w0, StepWorld(w, r, e, cap), StepRun(w, r, e, cap))
  {
    OwnStage(w0, w, r, e, cap);
    OwnIdentity(w0, w, r, e, cap);
    OwnKey(w0, w, r, e, cap);
    forall f ensures AccountSlot(w0.keychain, StepWorld(w, r, e, cap), StepRun(w, r, e, cap), f) {
      assert AccountSlot(w0.keychain, w, r, f) && CopiedSlot(w0.keychain, r, f) && HostSlot(w0.keychain, w, r.q, f);
      OwnAccount(w0, w, r, e, cap, f);
    }
    forall f ensures CopiedSlot(w0.keychain, StepRun(w, r, e, cap), f) {
      assert CopiedSlot(w0.keychain, r, f) && HostSlot(w0.keychain, w, r.q, f);
      OwnCopied(w0, w, r, e, cap, f);
    }
  }

  // ------------------------------------------------------------------ a blank key name

  /** One run alone, its first `n` copies made. */
  ghost predicate CopyingAt(s: State, w: World, q: Request, n: nat) {
    && n <= |Moves(q)| && |s.runs| == 1 && s.runs[0].q == q && s.runs[0].stage == Copying(n)
    && s.w == w.(keychain := CopyAll(w.keychain, Moves(q)[..n]))
  }

  lemma FirstStep(w: World, q: Request, e: Event, cap: nat)
    requires e.run == 0 && PreCheck(q, w.keys).None?
    ensures CopyingAt(Step(Started(w, [q]), e, cap), w, q, 0)
  {
  }

  lemma CopyStep(s: State, w: World, q: Request, n: nat, e: Event, cap: nat)
    requires e.run == 0 && n < |Moves(q)| && CopyingAt(s, w, q, n)
    ensures CopyingAt(Step(s, e, cap), w, q, n + 1)
  {
    assert Moves(q)[..n + 1][..n] == Moves(q)[..n];
  }

  lemma LastSteps(s: State, w: World, q: Request, e: Event, cap: nat)
    requires e.run == 0 && CopyingAt(s, w, q, |Moves(q)|) && Minted(q).Some? && q.choice.name == ""
    ensures var t := Step(Step(s, e, cap), e, cap);
            |t.runs| == 1 && t.runs[0].stage.Stranded? && t.w == w.(keychain := CopyAll(w.keychain, Moves(q)))
  {
    assert Moves(q)[..|Moves(q)|] == Moves(q);
  }

  function Repeat(e: Event, n: nat): seq<Event> {
    if n == 0 then [] else Repeat(e, n - 1) + [e]
  }

  lemma ExecRepeat(s: State, e: Event, n: nat, cap: nat)
    ensures Exec(s, Repeat(e, n + 1), cap) == Step(Exec(s, Repeat(e, n), cap), e, cap)
  {
    assert Repeat(e, n + 1)[..|Repeat(e, n + 1)| - 1] == Repeat(e, n);
  }

  /** The copies of a run on its own. */
  lemma {:induction false} CopiesAlone(w: World, q: Request, e: Event, n: nat, cap: nat)
    requires e.run == 0 && PreCheck(q, w.keys).None? && n <= |Moves(q)|
    ensures CopyingAt(Exec(Started(w, [q]), Repeat(e, n + 1), cap), w, q, n)
  {
    ExecRepeat(Started(w, [q]), e, n, cap);
    if n == 0 {
      FirstStep(w, q, e, cap);
    } else {
      CopiesAlone(w, q, e, n - 1, cap);
      CopyStep(Exec(Started(w, [q]), Repeat(e, n), cap), w, q, n - 1, e, cap);
    }
  }

  /** Every convert that mints a key under a blank name, run alone, ends with all its
      copies in the vault and not one record over them. */
  lemma BlankNameStrands(w: World, q: Request, e: Event, cap: nat)
    requires e.run == 0 && PreCheck(q, w.keys).None? && Minted(q).Some? && q.choice.name == ""
    ensures var s := Exec(Started(w, [q]), Repeat(e, |Moves(q)| + 3), cap);
            && |s.runs| == 1 && s.runs[0].stage.Stranded?
            && s.w == w.(keychain := CopyAll(w.keychain, Moves(q)))
  {
    var n := |Moves(q)|;
    CopiesAlone(w, q, e, n, cap);
    ExecRepeat(Started(w, [q]), e, n + 1, cap);
    ExecRepeat(Started(w, [q]), e, n + 2, cap);
    LastSteps(Exec(Started(w, [q]), Repeat(e, n + 1), cap), w, q, e, cap);
  }

  /** One such convert: an SSH host whose private key is left at a vault account that no
      record names. */
  lemma KeyIsStranded(e: Event, cap: nat)
    requires e.run == 0
    ensures var host := Ssh("h", "", None, Inline("h", "root", Key, false, true, false), "");
            var w := World(map[HostAccount("h", PrivateKeyField) := "pem"], map["h" := host], map[], map[], {});
            var q := Request(host, "root", Mint("", "print"), "i", "k");
            var s := Exec(Started(w, [q]), Repeat(e, |Moves(q)| + 3), cap);
            Account(VaultService, "k", PrivateKeyField) in s.w.keychain && s.w.keys == map[] && s.w.identities == map[]
  {
    var host := Ssh("h", "", None, Inline("h", "root", Key, false, true, false), "");
    var w := World(map[HostAccount("h", PrivateKeyField) := "pem"], map["h" := host], map[], map[], {});
    var q := Request(host, "root", Mint("", "print"), "i", "k");
    BlankNameStrands(w, q, e, cap);
    CopiedAccount(w, q, PrivateKeyField);
  }
}
