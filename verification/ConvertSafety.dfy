/**
 What every interleaving of converts of one host keeps, and what that buys: one
 commit at most, losers that leave nothing behind, a credential that is readable at
 every instant, and a final state some single convert would have produced.
 */
module ConvertSafety {
  import opened Records
  import opened HostStore
  import opened JumpChains
  import opened Vault
  import opened CredentialMoves
  import opened ConvertRuns

  // ------------------------------------------------------------------ invariant

  function Requests(runs: seq<Run>): seq<Request> {
    seq(|runs|, i requires 0 <= i < |runs| => runs[i].q)
  }

  ghost predicate Foreign(runs: seq<Run>, a: Account) {
    forall i | 0 <= i < |runs| :: !Mine(runs[i].q, a)
  }

  ghost predicate ForeignIdentity(runs: seq<Run>, x: Id) {
    forall i | 0 <= i < |runs| :: runs[i].q.identityId != x
  }

  ghost predicate ForeignKey(runs: seq<Run>, x: Id) {
    forall i | 0 <= i < |runs| :: runs[i].q.keyId != x
  }

  ghost predicate LeadOk(s: State) {
    && (s.lead.Some? ==> s.lead.value < |s.runs|)
    && (forall i | 0 <= i < |s.runs| :: s.runs[i].won <==> s.lead == Some(i))
  }

  /** The host record is the one all of them loaded, or the winner's. */
  ghost predicate HostsOk(w0: World, id: Id, s: State)
    requires LeadOk(s)
  {
    s.w.hosts == if s.lead.None? then w0.hosts else w0.hosts[id := BoundHost(s.runs[s.lead.value].q)]
  }

  function OwnFields(w0: World, id: Id): set<Field> {
    if id in w0.hosts then SecretFields(w0.hosts[id]) else {}
  }

  /** What the winner has released so far. */
  ghost predicate ClearedOk(w0: World, id: Id, s: State)
    requires LeadOk(s)
  {
    && (s.lead.None? ==> s.cleared == {})
    && (s.lead.Some? ==>
          var st := s.runs[s.lead.value].stage;
          && id in w0.hosts && w0.hosts[id].cred.Inline?
          && s.cleared <= OwnFields(w0, id)
          && (st.Releasing? ==>
                st.todo <= OwnFields(w0, id) && (!st.stuck ==> s.cleared + st.todo == OwnFields(w0, id)))
          && (st.Finished? ==> s.cleared == OwnFields(w0, id)))
  }

  /** The host service's accounts are as loaded, less what was released. */
  ghost predicate HostAccountOk(w0: World, id: Id, s: State, a: Account) {
    a.service == HostService ==>
      Lookup(s.w.keychain, a) == if a.id == id && a.field in s.cleared then None else Lookup(w0.keychain, a)
  }

  ghost predicate VaultAccountOk(w0: World, s: State, a: Account) {
    a.service == VaultService && Foreign(s.runs, a) ==> Lookup(s.w.keychain, a) == Lookup(w0.keychain, a)
  }

  ghost predicate RecordsOk(w0: World, s: State, x: Id) {
    && (ForeignIdentity(s.runs, x) ==> Lookup(s.w.identities, x) == Lookup(w0.identities, x))
    && (ForeignKey(s.runs, x) ==> Lookup(s.w.keys, x) == Lookup(w0.keys, x))
  }

  ghost predicate FullOk(w0: World, s: State, i: nat)
    requires i < |s.runs|
  {
    s.lead.None? || s.runs[i].won ==> forall f :: FullSlot(w0.keychain, s.runs[i], f)
  }

  ghost predicate Inv(w0: World, id: Id, s: State) {
    && WellPosed(w0, id, Requests(s.runs))
    && LeadOk(s) && HostsOk(w0, id, s) && ClearedOk(w0, id, s) && s.w.defaults == w0.defaults
    && (forall i | 0 <= i < |s.runs| :: RunOk(w0, s.w, s.runs[i]) && FullOk(w0, s, i))
    && (forall a :: HostAccountOk(w0, id, s, a))
    && (forall a :: VaultAccountOk(w0, s, a))
    && (forall x :: RecordsOk(w0, s, x))
  }

  // ---------------------------------------------------------------- preservation

  lemma Posed(w0: World, id: Id, runs: seq<Run>, i: nat)
    requires WellPosed(w0, id, Requests(runs)) && i < |runs|
    ensures runs[i].q.host.id == id && Fresh(w0, runs[i].q)
    ensures Minted(runs[i].q).None? ==> NamedKey(runs[i].q) != Some(runs[i].q.keyId)
    ensures forall j | 0 <= j < |runs| && j != i :: Apart(runs[j].q, runs[i].q)
  {
    assert Requests(runs)[i] == runs[i].q;
    assert forall j | 0 <= j < |runs| :: Requests(runs)[j] == runs[j].q;
  }

  /** No other identity names this run's new key. */
  lemma KeyIsPrivate(w0: World, id: Id, s: State, i: nat, x: Id)
    requires WellPosed(w0, id, Requests(s.runs)) && i < |s.runs|
    requires forall j | 0 <= j < |s.runs| :: IdentitySlot(s.w, s.runs[j])
    requires RecordsOk(w0, s, x)
    requires x in s.w.identities && x != s.runs[i].q.identityId
    ensures s.w.identities[x].keyId != Some(s.runs[i].q.keyId)
  {
    Posed(w0, id, s.runs, i);
    if ForeignIdentity(s.runs, x) {
      assert Lookup(s.w.identities, x) == Lookup(w0.identities, x);
      assert !KeyInUse(w0, s.runs[i].q.keyId);
    } else {
      var j :| 0 <= j < |s.runs| && s.runs[j].q.identityId == x;
      assert IdentitySlot(s.w, s.runs[j]);
      assert Apart(s.runs[j].q, s.runs[i].q);
    }
  }

  /** A run that has not won is named by no host. */
  lemma LoserIsUnheld(w0: World, id: Id, s: State, i: nat)
    requires WellPosed(w0, id, Requests(s.runs)) && i < |s.runs|
    requires LeadOk(s) && HostsOk(w0, id, s) && s.w.defaults == w0.defaults
    requires !s.runs[i].won
    ensures !Held(s.w, s.runs[i].q.identityId)
  {
    Posed(w0, id, s.runs, i);
    assert !Held(w0, s.runs[i].q.identityId);
    if s.lead.Some? {
      assert Apart(s.runs[s.lead.value].q, s.runs[i].q);
    }
  }

  lemma ReusedIsUntouched(w0: World, id: Id, s: State, i: nat)
    requires WellPosed(w0, id, Requests(s.runs)) && i < |s.runs|
    requires forall x :: RecordsOk(w0, s, x)
    requires s.runs[i].q.choice.Reuse? && NeedsKey(s.runs[i].q.host)
    ensures var q := s.runs[i].q;
            q.choice.keyId != q.keyId && Lookup(s.w.keys, q.choice.keyId) == Lookup(w0.keys, q.choice.keyId)
  {
    Posed(w0, id, s.runs, i);
    var k := s.runs[i].q.choice.keyId;
    assert NamedKey(s.runs[i].q) == Some(k);
    assert ForeignKey(s.runs, k);
    assert RecordsOk(w0, s, k);
  }

  lemma InContext(w0: World, id: Id, s: State, i: nat)
    requires Inv(w0, id, s) && i < |s.runs|
    ensures Context(w0, s.w, s.runs[i])
  {
    var r := s.runs[i];
    Posed(w0, id, s.runs, i);
    if !r.won {
      LoserIsUnheld(w0, id, s, i);
    }
    if r.q.choice.Reuse? && NeedsKey(r.q.host) {
      ReusedIsUntouched(w0, id, s, i);
    }
    forall x | x in s.w.identities && x != r.q.identityId ensures s.w.identities[x].keyId != Some(r.q.keyId) {
      KeyIsPrivate(w0, id, s, i, x);
    }
  }

  lemma HostSlots(w0: World, id: Id, s: State, q: Request, f: Field)
    requires HostAccountOk(w0, id, s, HostAccount(id, f)) && q.host.id == id
    ensures HostSlot(w0.keychain, s.w, q, f)
    ensures s.cleared == {} ==> Lookup(s.w.keychain, HostAccount(id, f)) == Lookup(w0.keychain, HostAccount(id, f))
  {
  }

  lemma RunsStep(w0: World, id: Id, s: State, e: Event, cap: nat, i: nat)
    requires Inv(w0, id, s) && e.run < |s.runs| && i < |s.runs|
    ensures RunOk(w0, Step(s, e, cap).w, Step(s, e, cap).runs[i])
  {
    Posed(w0, id, s.runs, e.run);
    if i == e.run {
      InContext(w0, id, s, i);
      forall f ensures HostSlot(w0.keychain, s.w, s.runs[i].q, f) {
        assert HostAccountOk(w0, id, s, HostAccount(id, f));
        HostSlots(w0, id, s, s.runs[i].q, f);
      }
      OwnRun(w0, s.w, s.runs[i], e, cap);
    } else {
      OtherRun(w0, s.w, s.runs[e.run], e, cap, s.runs[i]);
    }
  }

  lemma FullStep(w0: World, id: Id, s: State, e: Event, cap: nat, i: nat)
    requires Inv(w0, id, s) && e.run < |s.runs| && i < |s.runs|
    ensures FullOk(w0, Step(s, e, cap), i)
  {
    assert FullOk(w0, s, i) && FullOk(w0, s, e.run);
    var r := s.runs[e.run];
    if i == e.run && (s.lead.None? || r.won) {
      Posed(w0, id, s.runs, i);
      assert RunOk(w0, s.w, r);
      forall f ensures FullSlot(w0.keychain, StepRun(s.w, r, e, cap), f) {
        assert HostAccountOk(w0, id, s, HostAccount(id, f));
        HostSlots(w0, id, s, r.q, f);
        OwnFull(w0, s.w, r, e, cap, f);
      }
    } else if i == e.run {
      NoSecondWin(w0, id, s, e, cap);
    }
  }

  /** The stamp: once a host write landed, no other run's can. */
  lemma NoSecondWin(w0: World, id: Id, s: State, e: Event, cap: nat)
    requires WellPosed(w0, id, Requests(s.runs)) && e.run < |s.runs|
    requires LeadOk(s) && HostsOk(w0, id, s) && s.lead.Some? && !s.runs[e.run].won
    ensures !StepRun(s.w, s.runs[e.run], e, cap).won
    ensures StepWorld(s.w, s.runs[e.run], e, cap).hosts == s.w.hosts
  {
    Posed(w0, id, s.runs, e.run);
  }

  lemma LeadStep(w0: World, id: Id, s: State, e: Event, cap: nat)
    requires WellPosed(w0, id, Requests(s.runs)) && e.run < |s.runs|
    requires LeadOk(s) && HostsOk(w0, id, s)
    requires StageOk(w0, s.runs[e.run])
    ensures LeadOk(Step(s, e, cap)) && HostsOk(w0, id, Step(s, e, cap))
  {
    Posed(w0, id, s.runs, e.run);
    if s.lead.Some? && !s.runs[e.run].won {
      NoSecondWin(w0, id, s, e, cap);
    }
  }

  lemma ClearedStep(w0: World, id: Id, s: State, e: Event, cap: nat)
    requires WellPosed(w0, id, Requests(s.runs)) && e.run < |s.runs|
    requires LeadOk(s) && HostsOk(w0, id, s) && ClearedOk(w0, id, s)
    requires StageOk(w0, s.runs[e.run])
    ensures LeadOk(Step(s, e, cap)) && ClearedOk(w0, id, Step(s, e, cap))
  {
    Posed(w0, id, s.runs, e.run);
    LeadStep(w0, id, s, e, cap);
    if s.lead.Some? && !s.runs[e.run].won {
      NoSecondWin(w0, id, s, e, cap);
    }
  }

  lemma AccountsStep(w0: World, id: Id, s: State, e: Event, cap: nat, a: Account)
    requires e.run < |s.runs| && s.runs[e.run].q.host.id == id
    requires HostAccountOk(w0, id, s, a) && VaultAccountOk(w0, s, a)
    ensures HostAccountOk(w0, id, Step(s, e, cap), a) && VaultAccountOk(w0, Step(s, e, cap), a)
  {
    if a.service == HostService {
      TouchesHost(s.w, s.runs[e.run], e, cap, a);
    } else {
      SameForeign(s, e, cap, a);
      if Foreign(s.runs, a) {
        TouchesOwn(s.w, s.runs[e.run], e, cap, a);
      }
    }
  }

  lemma SameForeign(s: State, e: Event, cap: nat, a: Account)
    requires e.run < |s.runs|
    ensures Foreign(Step(s, e, cap).runs, a) <==> Foreign(s.runs, a)
  {
    var t := Step(s, e, cap);
    assert forall i | 0 <= i < |s.runs| :: t.runs[i].q == s.runs[i].q;
  }

  lemma RecordsStep(w0: World, s: State, e: Event, cap: nat, x: Id)
    requires e.run < |s.runs| && RecordsOk(w0, s, x)
    ensures RecordsOk(w0, Step(s, e, cap), x)
  {
    var t := Step(s, e, cap);
    assert forall i | 0 <= i < |s.runs| :: t.runs[i].q == s.runs[i].q;
    assert ForeignIdentity(t.runs, x) ==> ForeignIdentity(s.runs, x);
    assert ForeignKey(t.runs, x) ==> ForeignKey(s.runs, x);
    TouchesRecords(s.w, s.runs[e.run], e, cap, x);
  }

  lemma StepKeeps(w0: World, id: Id, s: State, e: Event, cap: nat)
    requires Inv(w0, id, s)
    ensures Inv(w0, id, Step(s, e, cap))
  {
    if e.run < |s.runs| {
      var t := Step(s, e, cap);
      assert Requests(t.runs) == Requests(s.runs);
      Posed(w0, id, s.runs, e.run);
      assert RunOk(w0, s.w, s.runs[e.run]);
      LeadStep(w0, id, s, e, cap);
      ClearedStep(w0, id, s, e, cap);
      TouchesRecords(s.w, s.runs[e.run], e, cap, "");
      forall i | 0 <= i < |t.runs| ensures RunOk(w0, t.w, t.runs[i]) && FullOk(w0, t, i) {
        RunsStep(w0, id, s, e, cap, i);
        FullStep(w0, id, s, e, cap, i);
      }
      forall a ensures HostAccountOk(w0, id, t, a) && VaultAccountOk(w0, t, a) {
        assert HostAccountOk(w0, id, s, a) && VaultAccountOk(w0, s, a);
        AccountsStep(w0, id, s, e, cap, a);
      }
      forall x ensures RecordsOk(w0, t, x) {
        RecordsStep(w0, s, e, cap, x);
      }
    }
  }

  lemma StartIsOk(w0: World, id: Id, qs: seq<Request>)
    requires WellPosed(w0, id, qs)
    ensures Inv(w0, id, Started(w0, qs))
  {
    var s := Started(w0, qs);
    assert Requests(s.runs) == qs;
    forall i | 0 <= i < |s.runs| ensures RunOk(w0, s.w, s.runs[i]) && FullOk(w0, s, i) {
      assert Fresh(w0, qs[i]);
    }
  }

  lemma SameRequests(s: State, e: Event, cap: nat)
    ensures Requests(Step(s, e, cap).runs) == Requests(s.runs)
  {
  }

  /** The invariant holds in every reachable state. */
  lemma {:induction false} RunKeeps(w0: World, id: Id, qs: seq<Request>, es: seq<Event>, cap: nat)
    requires WellPosed(w0, id, qs)
    ensures Inv(w0, id, Exec(Started(w0, qs), es, cap))
    ensures Requests(Exec(Started(w0, qs), es, cap).runs) == qs
  {
    if es == [] {
      StartIsOk(w0, id, qs);
      assert Requests(Started(w0, qs).runs) == qs;
    } else {
      var n := |es| - 1;
      RunKeeps(w0, id, qs, es[..n], cap);
      var s := Exec(Started(w0, qs), es[..n], cap);
      StepKeeps(w0, id, s, es[n], cap);
      SameRequests(s, es[n], cap);
    }
  }

  // -------------------------------------------------------------------- theorems

  /** At most one convert's host write ever lands. */
  lemma AtMostOneCommits(w0: World, id: Id, qs: seq<Request>, es: seq<Event>, cap: nat, i: nat, j: nat)
    requires WellPosed(w0, id, qs) && i < |qs| && j < |qs|
    ensures var s := Exec(Started(w0, qs), es, cap);
            |s.runs| == |qs| && (s.runs[i].won && s.runs[j].won ==> i == j)
  {
    RunKeeps(w0, id, qs, es, cap);
  }

  /** A convert that failed without landing has left no identity, no key and no vault
      account, whatever ran beside it; and one strands its copies only over a blank name. */
  lemma LosersLeaveNothing(w0: World, id: Id, qs: seq<Request>, es: seq<Event>, cap: nat, i: nat, f: Field)
    requires WellPosed(w0, id, qs) && i < |qs|
    ensures var s := Exec(Started(w0, qs), es, cap);
            && |s.runs| == |qs|
            && (s.runs[i].stage.Failed? && !s.runs[i].won ==>
                  && qs[i].identityId !in s.w.identities && qs[i].keyId !in s.w.keys
                  && VaultAccount(qs[i].identityId, qs[i].keyId, f) !in s.w.keychain)
            && (s.runs[i].stage.Stranded? ==> Minted(qs[i]).Some? && qs[i].choice.name == "")
  {
    RunKeeps(w0, id, qs, es, cap);
    var s := Exec(Started(w0, qs), es, cap);
    assert Requests(s.runs)[i] == s.runs[i].q;
    assert RunOk(w0, s.w, s.runs[i]);
    assert AccountSlot(w0.keychain, s.w, s.runs[i], f);
  }

  /** What the winner copied is everything there was to copy. */
  lemma WinnerCopied(w0: World, id: Id, s: State, f: Field)
    requires Inv(w0, id, s) && s.lead.Some?
    ensures var r := s.runs[s.lead.value];
            f in r.copied <==> Travels(r.q, f) && HostAccount(id, f) in w0.keychain
  {
    var i := s.lead.value;
    var r := s.runs[i];
    Posed(w0, id, s.runs, i);
    assert RunOk(w0, s.w, r) && FullOk(w0, s, i);
    assert CopiedSlot(w0.keychain, r, f) && FullSlot(w0.keychain, r, f);
  }

  lemma WinnerReads(w0: World, id: Id, s: State, f: Field)
    requires Inv(w0, id, s) && s.lead.Some?
    ensures var q := s.runs[s.lead.value].q;
            Reads(s.w, id, f) ==
            if Travels(q, f) then Lookup(w0.keychain, HostAccount(id, f))
            else if NamedKey(q).Some? then Lookup(w0.keychain, Account(VaultService, NamedKey(q).value, f))
            else None
  {
    var i := s.lead.value;
    var r := s.runs[i];
    Posed(w0, id, s.runs, i);
    WinnerCopied(w0, id, s, f);
    assert RunOk(w0, s.w, r);
    assert AccountSlot(w0.keychain, s.w, r, f);
    if !Travels(r.q, f) && NamedKey(r.q).Some? {
      ReusedAccount(w0, id, s, i, f);
    }
  }

  lemma ReusedAccount(w0: World, id: Id, s: State, i: nat, f: Field)
    requires Inv(w0, id, s) && i < |s.runs| && f != PasswordField && s.runs[i].won
    requires NamedKey(s.runs[i].q).Some? && Minted(s.runs[i].q).None?
    ensures var k := NamedKey(s.runs[i].q).value;
            && k in s.w.keys
            && Lookup(s.w.keychain, Account(VaultService, k, f)) == Lookup(w0.keychain, Account(VaultService, k, f))
  {
    var q := s.runs[i].q;
    Posed(w0, id, s.runs, i);
    ReusedIsUntouched(w0, id, s, i);
    assert RunOk(w0, s.w, s.runs[i]);
    var a := Account(VaultService, NamedKey(q).value, f);
    assert Foreign(s.runs, a);
    assert VaultAccountOk(w0, s, a);
  }

  /** Crash safety: stop at any instant of any interleaving, under any faults, and the
      host still authenticates with the secret it had, provided the landed convert, if
      there is one, was a lossless one (a minted key always is). */
  lemma CrashSafe(w0: World, id: Id, qs: seq<Request>, es: seq<Event>, cap: nat, f: Field)
    requires WellPosed(w0, id, qs)
    requires id in w0.hosts && w0.hosts[id].cred.Inline? && f in SecretFields(w0.hosts[id])
    requires forall i | 0 <= i < |qs| :: qs[i].host.id == id && NothingAtStake(w0, qs[i])
    ensures Reads(Exec(Started(w0, qs), es, cap).w, id, f) == Reads(w0, id, f)
  {
    RunKeeps(w0, id, qs, es, cap);
    var s := Exec(Started(w0, qs), es, cap);
    if s.lead.None? {
      assert HostAccountOk(w0, id, s, HostAccount(id, f));
    } else {
      WinnerReads(w0, id, s, f);
      assert Requests(s.runs)[s.lead.value] == qs[s.lead.value];
      assert NothingAtStake(w0, qs[s.lead.value]);
    }
  }

  /** Every run has ended: landed and cleaned up, or failed before landing. */
  ghost predicate Settled(s: State) {
    forall i | 0 <= i < |s.runs| :: s.runs[i].stage.Finished? || (s.runs[i].stage.Failed? && !s.runs[i].won)
  }

  lemma WinnerFields(w0: World, id: Id, s: State)
    requires Inv(w0, id, s) && s.lead.Some?
    ensures s.runs[s.lead.value].copied == CopiedFields(w0.keychain, Moves(s.runs[s.lead.value].q))
  {
    var q := s.runs[s.lead.value].q;
    Posed(w0, id, s.runs, s.lead.value);
    forall f ensures f in s.runs[s.lead.value].copied <==> f in CopiedFields(w0.keychain, Moves(q)) {
      WinnerCopied(w0, id, s, f);
      if Travels(q, f) {
        CopiedIff(w0, q, f);
      } else if f in CopiedFields(w0.keychain, Moves(q)) {
        var m :| m in Moves(q) && m.field == f;
        ConvertMoveIs(q.host, q.identityId, Minted(q), m);
      }
    }
  }

  /** The world one run alone would have left. */
  function Outcome(w0: World, s: State): World
    requires s.lead.Some? ==> s.lead.value < |s.runs|
  {
    if s.lead.None? then w0 else Committed(w0, s.runs[s.lead.value].q)
  }

  lemma SettledAccount(w0: World, id: Id, s: State, a: Account)
    requires Inv(w0, id, s) && Settled(s)
    ensures Lookup(s.w.keychain, a) == Lookup(Outcome(w0, s).keychain, a)
  {
    assert HostAccountOk(w0, id, s, a) && VaultAccountOk(w0, s, a);
    if s.lead.None? {
      if a.service == VaultService && !Foreign(s.runs, a) {
        var i :| 0 <= i < |s.runs| && Mine(s.runs[i].q, a);
        LoserAccount(w0, id, s, i, a);
      }
    } else {
      WinnerAccount(w0, id, s, a);
    }
  }

  lemma LoserAccount(w0: World, id: Id, s: State, i: nat, a: Account)
    requires Inv(w0, id, s) && Settled(s) && i < |s.runs| && !s.runs[i].won && Mine(s.runs[i].q, a)
    ensures Lookup(s.w.keychain, a) == None && Lookup(w0.keychain, a) == None
  {
    Posed(w0, id, s.runs, i);
    assert RunOk(w0, s.w, s.runs[i]);
    assert AccountSlot(w0.keychain, s.w, s.runs[i], a.field);
  }

  lemma CommittedAccount(w0: World, q: Request, a: Account)
    requires Fresh(w0, q) && q.host.id in w0.hosts
    ensures Lookup(Committed(w0, q).keychain, a) ==
            if a.service == HostService && a.id == q.host.id && a.field in OwnFields(w0, q.host.id) then None
            else if Mine(q, a) && Travels(q, a.field) then Lookup(w0.keychain, HostAccount(q.host.id, a.field))
            else Lookup(w0.keychain, a)
  {
    var gone := HostAccounts(q.host.id, StaleFields(BoundHost(q), Lookup(w0.hosts, q.host.id)));
    assert OwnFields(w0, q.host.id) == StaleFields(BoundHost(q), Lookup(w0.hosts, q.host.id));
    assert a == Account(a.service, a.id, a.field);
    assert a in gone <==> a.service == HostService && a.id == q.host.id && a.field in OwnFields(w0, q.host.id);
    if Mine(q, a) && Travels(q, a.field) {
      CopiedAccount(w0, q, a.field);
    } else {
      UncopiedAccount(w0, q, a);
    }
  }

  lemma WinnerAccount(w0: World, id: Id, s: State, a: Account)
    requires Inv(w0, id, s) && Settled(s) && s.lead.Some?
    ensures Lookup(s.w.keychain, a) == Lookup(Outcome(w0, s).keychain, a)
  {
    var l := s.lead.value;
    var q := s.runs[l].q;
    Posed(w0, id, s.runs, l);
    CommittedAccount(w0, q, a);
    assert HostAccountOk(w0, id, s, a) && VaultAccountOk(w0, s, a);
    if a.service == VaultService && !Foreign(s.runs, a) {
      var i :| 0 <= i < |s.runs| && Mine(s.runs[i].q, a);
      if i == l {
        WinnerCopied(w0, id, s, a.field);
        assert RunOk(w0, s.w, s.runs[l]);
        assert AccountSlot(w0.keychain, s.w, s.runs[l], a.field);
      } else {
        LoserAccount(w0, id, s, i, a);
        assert Apart(s.runs[i].q, q);
      }
    }
  }

  lemma SettledRecords(w0: World, id: Id, s: State, x: Id)
    requires Inv(w0, id, s) && Settled(s)
    ensures Lookup(s.w.identities, x) == Lookup(Outcome(w0, s).identities, x)
    ensures Lookup(s.w.keys, x) == Lookup(Outcome(w0, s).keys, x)
  {
    assert RecordsOk(w0, s, x);
    if i :| 0 <= i < |s.runs| && s.runs[i].q.identityId == x {
      SettledIdentity(w0, id, s, i);
    } else {
      ForeignRecords(w0, s, x);
    }
    if i :| 0 <= i < |s.runs| && s.runs[i].q.keyId == x {
      SettledKey(w0, id, s, i);
    } else {
      ForeignRecords(w0, s, x);
    }
  }

  lemma ForeignRecords(w0: World, s: State, x: Id)
    requires s.lead.Some? ==> s.lead.value < |s.runs|
    ensures ForeignIdentity(s.runs, x) ==> Lookup(Outcome(w0, s).identities, x) == Lookup(w0.identities, x)
    ensures ForeignKey(s.runs, x) ==> Lookup(Outcome(w0, s).keys, x) == Lookup(w0.keys, x)
  {
  }

  lemma SettledIdentity(w0: World, id: Id, s: State, i: nat)
    requires Inv(w0, id, s) && Settled(s) && i < |s.runs|
    ensures var x := s.runs[i].q.identityId; Lookup(s.w.identities, x) == Lookup(Outcome(w0, s).identities, x)
  {
    Posed(w0, id, s.runs, i);
    assert RunOk(w0, s.w, s.runs[i]);
    if s.lead.Some? {
      WinnerFields(w0, id, s);
      assert i != s.lead.value ==> Apart(s.runs[s.lead.value].q, s.runs[i].q);
    }
  }

  lemma SettledKey(w0: World, id: Id, s: State, i: nat)
    requires Inv(w0, id, s) && Settled(s) && i < |s.runs|
    ensures var x := s.runs[i].q.keyId; Lookup(s.w.keys, x) == Lookup(Outcome(w0, s).keys, x)
  {
    Posed(w0, id, s.runs, i);
    assert RunOk(w0, s.w, s.runs[i]);
    if s.lead.Some? {
      WinnerFields(w0, id, s);
      assert i != s.lead.value ==> Apart(s.runs[s.lead.value].q, s.runs[i].q);
    }
  }

  /** Serializability: when every convert has ended with no fault left behind, the two
      stores and the whole keychain are exactly what they were before any of them, or
      exactly what the winner running alone would have left. */
  lemma Serializable(w0: World, id: Id, qs: seq<Request>, es: seq<Event>, cap: nat)
    requires WellPosed(w0, id, qs) && Settled(Exec(Started(w0, qs), es, cap))
    ensures var s := Exec(Started(w0, qs), es, cap);
            |s.runs| == |qs| &&
            ((s.w == w0 && forall i | 0 <= i < |s.runs| :: !s.runs[i].won)
             || exists l | 0 <= l < |qs| :: s.runs[l].won && s.w == Committed(w0, qs[l]))
  {
    RunKeeps(w0, id, qs, es, cap);
    var s := Exec(Started(w0, qs), es, cap);
    var o := Outcome(w0, s);
    forall a ensures Lookup(s.w.keychain, a) == Lookup(o.keychain, a) {
      SettledAccount(w0, id, s, a);
    }
    SameMap(s.w.keychain, o.keychain);
    forall x ensures Lookup(s.w.identities, x) == Lookup(o.identities, x) && Lookup(s.w.keys, x) == Lookup(o.keys, x) {
      SettledRecords(w0, id, s, x);
    }
    SameMap(s.w.identities, o.identities);
    SameMap(s.w.keys, o.keys);
    if s.lead.Some? {
      assert Requests(s.runs)[s.lead.value] == qs[s.lead.value];
      Posed(w0, id, s.runs, s.lead.value);
    }
    assert s.w == o;
  }

  // ------------------------------------------------------------- somebody does win

  /** The call could have gone through in the world all of them started from. */
  predicate CouldCommit(w0: World, q: Request, cap: nat) {
    PreCheck(q, w0.keys).None? && HostWriteOk(w0, BoundHost(q), OwnsInline, cap)
  }

  /** A run that has given up while nobody has won could never have gone through. */
  ghost predicate GaveUpRightly(w0: World, s: State, r: Run, cap: nat) {
    s.lead.None? && (r.stage.UndoIdentity? || r.stage.UndoKey? || r.stage.Failed?) ==> !CouldCommit(w0, r.q, cap)
  }

  lemma GivesUpRightly(w0: World, id: Id, s: State, e: Event, cap: nat, i: nat)
    requires Inv(w0, id, s) && i < |s.runs| && GaveUpRightly(w0, s, s.runs[i], cap)
    ensures GaveUpRightly(w0, Step(s, e, cap), Step(s, e, cap).runs[i], cap)
  {
    if e.run == i && s.lead.None? {
      InContext(w0, id, s, i);
      PreCheckSame(w0, s.w, s.runs[i]);
      OwnStage(w0, s.w, s.runs[i], e, cap);
    }
  }

  lemma {:induction false} AllGiveUpRightly(w0: World, id: Id, qs: seq<Request>, es: seq<Event>, cap: nat, i: nat)
    requires WellPosed(w0, id, qs) && i < |qs|
    ensures var s := Exec(Started(w0, qs), es, cap);
            |s.runs| == |qs| && s.runs[i].q == qs[i] && GaveUpRightly(w0, s, s.runs[i], cap)
  {
    RunKeeps(w0, id, qs, es, cap);
    var s := Exec(Started(w0, qs), es, cap);
    assert Requests(s.runs)[i] == s.runs[i].q;
    if es != [] {
      var n := |es| - 1;
      AllGiveUpRightly(w0, id, qs, es[..n], cap, i);
      RunKeeps(w0, id, qs, es[..n], cap);
      GivesUpRightly(w0, id, Exec(Started(w0, qs), es[..n], cap), es[n], cap, i);
    }
  }

  /** When all have ended with no fault left behind, one has won exactly if one of them
      could have: the stamp makes rivals lose, but never all of them. */
  lemma SomeoneCommits(w0: World, id: Id, qs: seq<Request>, es: seq<Event>, cap: nat)
    requires WellPosed(w0, id, qs) && Settled(Exec(Started(w0, qs), es, cap))
    ensures var s := Exec(Started(w0, qs), es, cap);
            |s.runs| == |qs|
            && ((exists i :: 0 <= i < |qs| && CouldCommit(w0, qs[i], cap))
                ==> exists l :: 0 <= l < |qs| && s.runs[l].won && s.w == Committed(w0, qs[l]))
  {
    Serializable(w0, id, qs, es, cap);
    if i :| 0 <= i < |qs| && CouldCommit(w0, qs[i], cap) {
      AllGiveUpRightly(w0, id, qs, es, cap, i);
      RunKeeps(w0, id, qs, es, cap);
      var s := Exec(Started(w0, qs), es, cap);
      assert RunOk(w0, s.w, s.runs[i]);
    }
  }

  const GO: Event := Event(0, false, PasswordField)

  const KEY_NEXT: Event := Event(0, false, PrivateKeyField)
  const PHRASE_NEXT: Event := Event(0, false, PassphraseField)

  /** The schedule of one run on its own: its steps up to the host write, then the fields
      it has to release. */
  function Whole(q: Request): seq<Event> {
    Repeat(GO, |Moves(q)| + 5) + [GO] + [KEY_NEXT] + [PHRASE_NEXT] + [GO]
  }

  lemma ExecMore(s: State, es: seq<Event>, e: Event, cap: nat)
    ensures Exec(s, es + [e], cap) == Step(Exec(s, es, cap), e, cap)
  {
    assert (es + [e])[..|es + [e]| - 1] == es;
  }

  lemma WritesKeyAlone(s: State, w: World, q: Request, cap: nat)
    requires CopyingAt(s, w, q, |Moves(q)|) && Fresh(w, q) && CouldCommit(w, q, cap)
    requires !(Minted(q).Some? && q.choice.name == "")
    ensures var t := Step(Step(s, GO, cap), GO, cap);
            && |t.runs| == 1 && t.runs[0].q == q && t.runs[0].stage.PutIdentity?
            && t.w.hosts == w.hosts && t.w.identities == w.identities
            && (NamedKey(q).Some? ==> NamedKey(q).value in t.w.keys)
  {
  }

  lemma WritesHostAlone(s: State, w: World, q: Request, cap: nat)
    requires |s.runs| == 1 && s.runs[0].q == q && s.runs[0].stage.PutIdentity?
    requires s.w.hosts == w.hosts && q.identityId !in s.w.identities && CouldCommit(w, q, cap)
    requires NamedKey(q).Some? ==> NamedKey(q).value in s.w.keys
    ensures var t := Step(Step(s, GO, cap), GO, cap);
            |t.runs| == 1 && t.runs[0].stage.Releasing? && !t.runs[0].stage.stuck
  {
  }

  lemma WritesAlone(s: State, w: World, q: Request, cap: nat)
    requires CopyingAt(s, w, q, |Moves(q)|) && Fresh(w, q) && CouldCommit(w, q, cap)
    requires !(Minted(q).Some? && q.choice.name == "")
    ensures var t := Step(Step(Step(Step(s, GO, cap), GO, cap), GO, cap), GO, cap);
            |t.runs| == 1 && t.runs[0].stage.Releasing? && !t.runs[0].stage.stuck
  {
    WritesKeyAlone(s, w, q, cap);
    WritesHostAlone(Step(Step(s, GO, cap), GO, cap), w, q, cap);
  }

  /** One run on its own with at most these fields left to release. */
  ghost predicate Draining(s: State, left: set<Field>) {
    && |s.runs| == 1
    && (s.runs[0].stage.Finished?
        || (s.runs[0].stage.Releasing? && !s.runs[0].stage.stuck && s.runs[0].stage.todo <= left))
  }

  lemma Drains(s: State, left: set<Field>, e: Event, cap: nat)
    requires Draining(s, left) && e.run == 0 && !e.fault
    ensures Draining(Step(s, e, cap), left - {e.field})
    ensures left == {} ==> Step(s, e, cap).runs[0].stage.Finished?
  {
  }

  lemma ReleasesAlone(s: State, cap: nat)
    requires |s.runs| == 1 && s.runs[0].stage.Releasing? && !s.runs[0].stage.stuck
    ensures var t := Step(Step(Step(Step(s, GO, cap), KEY_NEXT, cap), PHRASE_NEXT, cap), GO, cap);
            |t.runs| == 1 && t.runs[0].stage.Finished?
  {
    var all := {PasswordField, PrivateKeyField, PassphraseField};
    forall f: Field ensures f in all {
      assert f.PasswordField? || f.PrivateKeyField? || f.PassphraseField?;
    }
    Drains(s, all, GO, cap);
    Drains(Step(s, GO, cap), all - {PasswordField}, KEY_NEXT, cap);
    Drains(Step(Step(s, GO, cap), KEY_NEXT, cap), all - {PasswordField} - {PrivateKeyField}, PHRASE_NEXT, cap);
    assert all - {PasswordField} - {PrivateKeyField} - {PassphraseField} == {};
    Drains(Step(Step(Step(s, GO, cap), KEY_NEXT, cap), PHRASE_NEXT, cap), {}, GO, cap);
  }

  lemma EndsAlone(w: World, q: Request, cap: nat)
    requires Fresh(w, q) && CouldCommit(w, q, cap) && !(Minted(q).Some? && q.choice.name == "")
    ensures var s := Exec(Started(w, [q]), Whole(q), cap);
            |s.runs| == 1 && s.runs[0].stage.Finished?
  {
    var n := |Moves(q)|;
    var start := Started(w, [q]);
    CopiesAlone(w, q, GO, n, cap);
    ExecRepeat(start, GO, n + 1, cap);
    ExecRepeat(start, GO, n + 2, cap);
    ExecRepeat(start, GO, n + 3, cap);
    ExecRepeat(start, GO, n + 4, cap);
    WritesAlone(Exec(start, Repeat(GO, n + 1), cap), w, q, cap);
    var writes := Repeat(GO, n + 5);
    ExecMore(start, writes, GO, cap);
    ExecMore(start, writes + [GO], KEY_NEXT, cap);
    ExecMore(start, writes + [GO] + [KEY_NEXT], PHRASE_NEXT, cap);
    ExecMore(start, writes + [GO] + [KEY_NEXT] + [PHRASE_NEXT], GO, cap);
    ReleasesAlone(Exec(start, writes, cap), cap);
  }

  /** A convert that could go through does, when nothing runs beside it. */
  lemma RunAloneCommits(w: World, q: Request, cap: nat)
    requires Fresh(w, q) && CouldCommit(w, q, cap) && !(Minted(q).Some? && q.choice.name == "")
    requires Minted(q).None? ==> NamedKey(q) != Some(q.keyId)
    ensures var s := Exec(Started(w, [q]), Whole(q), cap);
            |s.runs| == 1 && s.runs[0].stage.Finished? && s.w == Committed(w, q)
  {
    assert WellPosed(w, q.host.id, [q]);
    EndsAlone(w, q, cap);
    assert CouldCommit(w, [q][0], cap);
    SomeoneCommits(w, q.host.id, [q], Whole(q), cap);
  }
}
