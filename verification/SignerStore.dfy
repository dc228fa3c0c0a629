/** The client's identity store: module variables changed by steps that run between awaits, and
    what any interleaving of bootstrap, reconciliation, lookup and profile refresh keeps. */
module SignerStore {
  import opened Text

  type Pubkey = string

  datatype SignerStatus = Checking | Confirmed | TimedOut

  const SIGNER_GIVE_UP_MS := 10000
  const MIN_RECONCILE_GAP_MS := 1200

  /** The module-level variables. */
  datatype Vars = Vars(
    activePubkey: Option<Pubkey>, activeAuthoritative: bool, signerStatus: SignerStatus,
    signerWaitStartedAt: Option<int>, started: bool, reconciling: bool, lastReconcileAt: int,
    refreshInFlight: set<Pubkey>)

  const INITIAL := Vars(None, false, Checking, None, false, false, 0, {})

  // ---------- atomic steps ----------

  function SetActive(v: Vars, pubkey: Option<Pubkey>, authoritative: bool): Vars {
    var set1 := v.(activePubkey := pubkey, activeAuthoritative := authoritative && pubkey.Some?);
    if set1.activeAuthoritative then set1.(signerWaitStartedAt := None, signerStatus := Confirmed)
    else if pubkey.None? then set1.(signerWaitStartedAt := None, signerStatus := Checking)
    else set1
  }

  /** The signer did not answer. The clock is read once to start the wait and once to measure it. */
  function SignerMissing(v: Vars, neutral: bool, now: int, later: int): Vars {
    var waited :=
      if v.activePubkey.Some? && !v.activeAuthoritative then
        var since := v.signerWaitStartedAt.GetOr(now);
        v.(signerWaitStartedAt := Some(since),
           signerStatus := if later - since >= SIGNER_GIVE_UP_MS then TimedOut else Checking)
      else v.(signerStatus := Checking);
    if neutral && waited.activePubkey.None? then SetActive(waited, None, false) else waited
  }

  function SignerAnswered(v: Vars, pubkey: Pubkey): Vars {
    SetActive(v, Some(pubkey), true).(signerStatus := Confirmed)
  }

  predicate MayReconcile(v: Vars, now: int) {
    !v.reconciling && now - v.lastReconcileAt >= MIN_RECONCILE_GAP_MS
  }

  function BeginReconcile(v: Vars, now: int): Vars {
    if MayReconcile(v, now) then v.(reconciling := true, lastReconcileAt := now) else v
  }

  function Bootstrap(v: Vars, cached: Option<Pubkey>): Vars {
    SetActive(v.(started := true), cached, false)
  }

  /** The variables and the steps on them, as the module holds them. */
  class IdentityStore {
    var activePubkey: Option<Pubkey>
    var activeAuthoritative: bool
    var signerStatus: SignerStatus
    var signerWaitStartedAt: Option<int>
    var started: bool
    var reconciling: bool
    var lastReconcileAt: int
    var refreshInFlight: set<Pubkey>

    function State(): Vars
      reads this
    {
      Vars(activePubkey, activeAuthoritative, signerStatus, signerWaitStartedAt, started, reconciling,
           lastReconcileAt, refreshInFlight)
    }

    constructor ()
      ensures State() == INITIAL
    {
      activePubkey, activeAuthoritative, signerStatus := None, false, Checking;
      signerWaitStartedAt, started, reconciling, lastReconcileAt, refreshInFlight := None, false, false, 0, {};
    }

    method SetActivePubkey(pubkey: Option<Pubkey>, authoritative: bool)
      modifies this
      ensures State() == SetActive(old(State()), pubkey, authoritative)
    {
      activePubkey := pubkey;
      activeAuthoritative := authoritative && pubkey.Some?;
      if activeAuthoritative {
        signerWaitStartedAt := None;
        signerStatus := Confirmed;
      } else if activePubkey.None? {
        signerWaitStartedAt := None;
        signerStatus := Checking;
      }
    }

    /** The synchronous head of reconcileWithSigner: whether it goes on to ask the signer. */
    method TryReconcile(now: int) returns (asks: bool)
      modifies this
      ensures asks == MayReconcile(old(State()), now) && State() == BeginReconcile(old(State()), now)
    {
      if reconciling { return false; }
      if now - lastReconcileAt < MIN_RECONCILE_GAP_MS { return false; }
      reconciling := true;
      lastReconcileAt := now;
      asks := true;
    }

    /** Its continuation when no pubkey came back. */
    method ReconcileMissing(neutralOnMissingSigner: bool, now: int, later: int)
      modifies this
      ensures State() == SignerMissing(old(State()), neutralOnMissingSigner, now, later).(reconciling := false)
    {
      if activePubkey.Some? && !activeAuthoritative {
        if signerWaitStartedAt.None? { signerWaitStartedAt := Some(now); }
        var elapsed := later - signerWaitStartedAt.value;
        if elapsed >= SIGNER_GIVE_UP_MS { signerStatus := TimedOut; } else { signerStatus := Checking; }
      } else {
        signerStatus := Checking;
      }
      if neutralOnMissingSigner && activePubkey.None? { SetActivePubkey(None, false); }
      reconciling := false;
    }

    /** Its continuation when a pubkey came back, up to the refresh of the profile. */
    method ReconcileAnswered(pubkey: Pubkey) returns (switched: bool)
      modifies this
      ensures State() == SignerAnswered(old(State()), pubkey)
      ensures switched <==> old(activePubkey) != Some(pubkey)
    {
      switched := activePubkey != Some(pubkey);
      SetActivePubkey(Some(pubkey), true);
      signerStatus := Confirmed;
    }

    method BootstrapFromCache(cached: Option<Pubkey>)
      modifies this
      ensures State() == Bootstrap(old(State()), cached)
    {
      started := true;
      if cached.None? {
        SetActivePubkey(None, false);
        return;
      }
      SetActivePubkey(cached, false);
    }

    /** The head of refreshIdentity: whether this call starts a request or joins one. */
    method StartRefresh(pubkey: Pubkey) returns (starts: bool)
      modifies this`refreshInFlight
      ensures starts <==> pubkey !in old(refreshInFlight)
      ensures refreshInFlight == old(refreshInFlight) + {pubkey}
    {
      if pubkey in refreshInFlight { return false; }
      refreshInFlight := refreshInFlight + {pubkey};
      starts := true;
    }

    method EndRefresh(pubkey: Pubkey)
      modifies this`refreshInFlight
      ensures refreshInFlight == old(refreshInFlight) - {pubkey}
    {
      refreshInFlight := refreshInFlight - {pubkey};
    }
  }

  // ---------- interleavings ----------

  /** A reconciliation suspended at an await. */
  datatype Task = AskingSigner(neutral: bool) | RefreshingProfile

  /** The variables, the suspended continuations, the backend requests running (`requests`) or
      answered but not yet removed from the in-flight map (`settled`), and the clock. */
  datatype World = World(
    vars: Vars, reconciles: seq<Task>, lookups: nat, requests: multiset<Pubkey>, settled: multiset<Pubkey>, clock: int)

  datatype Step =
    | Boot(cached: Option<Pubkey>, now: int)                 // startIdentityStore
    | Reconcile(now: int)                                    // focus, page show, visibility or the interval
    | NoSigner(i: nat, now: int, later: int)                 // the i-th reconciliation got no pubkey
    | Signer(i: nat, pubkey: Pubkey, refresh: bool)          // it got one, and refreshes the profile or not
    | EndReconcile(i: nat)                                   // its refresh is over
    | Lookup                                                 // getCurrentPubkey that must ask the signer
    | LookupAnswered(found: Option<Pubkey>)
    | Refresh(pubkey: Pubkey)                                // refreshIdentity from anywhere
    | Settle(pubkey: Pubkey)                                 // the backend answered or failed
    | Release(pubkey: Pubkey)                                // the first caller removes the map entry

  predicate Enabled(w: World, s: Step) {
    match s
    case Boot(_, now) => now >= w.clock
    case Reconcile(now) => w.vars.started && now >= w.clock
    case NoSigner(i, now, later) => i < |w.reconciles| && w.reconciles[i].AskingSigner? && w.clock <= now <= later
    case Signer(i, _, _) => i < |w.reconciles| && w.reconciles[i].AskingSigner?
    case EndReconcile(i) => i < |w.reconciles| && w.reconciles[i].RefreshingProfile?
    case Lookup => w.vars.started && w.vars.activePubkey.None?
    case LookupAnswered(_) => w.lookups > 0
    case Refresh(_) => true
    case Settle(p) => p in w.requests
    case Release(p) => p in w.settled
  }

  function Without(tasks: seq<Task>, i: nat): seq<Task>
    requires i < |tasks|
  {
    tasks[..i] + tasks[i + 1..]
  }

  function StartReconcile(w: World, neutral: bool, now: int): World {
    var vars := BeginReconcile(w.vars, now);
    w.(vars := vars, clock := now,
       reconciles := if MayReconcile(w.vars, now) then w.reconciles + [AskingSigner(neutral)] else w.reconciles)
  }

  function StartRequest(w: World, pubkey: Pubkey): World {
    if pubkey in w.vars.refreshInFlight then w
    else w.(vars := w.vars.(refreshInFlight := w.vars.refreshInFlight + {pubkey}),
        requests := w.requests + multiset{pubkey})
  }

  function EndTask(w: World, i: nat): World
    requires i < |w.reconciles|
  {
    w.(reconciles := Without(w.reconciles, i), vars := w.vars.(reconciling := false))
  }

  function Apply(w: World, s: Step): World
    requires Enabled(w, s)
  {
    match s
    case Boot(cached, now) =>
      if w.vars.started then w.(clock := now) else StartReconcile(w.(vars := Bootstrap(w.vars, cached)), true, now)
    case Reconcile(now) => StartReconcile(w, false, now)
    case NoSigner(i, now, later) =>
      EndTask(w.(vars := SignerMissing(w.vars, w.reconciles[i].neutral, now, later), clock := later), i)
    case Signer(i, pubkey, refresh) =>
      var answered := w.(vars := SignerAnswered(w.vars, pubkey));
      if refresh then StartRequest(answered.(reconciles := w.reconciles[i := RefreshingProfile]), pubkey)
      else EndTask(answered, i)
    case EndReconcile(i) => EndTask(w, i)
    case Lookup => w.(lookups := w.lookups + 1)
    case LookupAnswered(pubkey) =>
      w.(lookups := w.lookups - 1, vars := if pubkey.Some? then SetActive(w.vars, pubkey, true) else w.vars)
    case Refresh(pubkey) => StartRequest(w, pubkey)
    case Settle(p) => w.(requests := w.requests - multiset{p}, settled := w.settled + multiset{p})
    case Release(p) =>
      w.(settled := w.settled - multiset{p}, vars := w.vars.(refreshInFlight := w.vars.refreshInFlight - {p}))
  }

  function Run(w: World, steps: seq<Step>): Option<World> {
    if |steps| == 0 then Some(w)
    else
      match Run(w, steps[..|steps| - 1])
      case None => None
      case Some(before) =>
        if Enabled(before, steps[|steps| - 1]) then Some(Apply(before, steps[|steps| - 1])) else None
  }

  function Opened(now: int): World { World(INITIAL, [], 0, multiset{}, multiset{}, now) }

  // ---------- what every step keeps ----------

  predicate SignerInv(v: Vars, clock: int) {
    && (v.activeAuthoritative ==> v.activePubkey.Some?)
    && (v.signerStatus == Confirmed ==> v.activeAuthoritative)
    && (v.signerStatus == TimedOut ==>
         v.activePubkey.Some? && !v.activeAuthoritative && v.signerWaitStartedAt.Some?
         && clock - v.signerWaitStartedAt.value >= SIGNER_GIVE_UP_MS)
    && (v.signerWaitStartedAt.Some? ==>
         v.activePubkey.Some? && !v.activeAuthoritative && clock >= v.signerWaitStartedAt.value)
    && (!v.started ==> v.activePubkey.None? && !v.reconciling)
  }

  predicate OneReconcile(w: World) {
    |w.reconciles| == (if w.vars.reconciling then 1 else 0)
  }

  ghost predicate OneRequestEach(w: World) {
    forall p :: w.requests[p] + w.settled[p] == (if p in w.vars.refreshInFlight then 1 else 0)
  }

  ghost predicate Inv(w: World) {
    SignerInv(w.vars, w.clock) && OneReconcile(w) && OneRequestEach(w) && (!w.vars.started ==> w.lookups == 0)
  }

  lemma {:induction false} VarsSteps(v: Vars, clock: int, later: int)
    requires SignerInv(v, clock) && clock <= later
    ensures SignerInv(v, later)
    ensures SignerInv(v.(reconciling := false), clock)
    ensures v.started ==> SignerInv(BeginReconcile(v, later), later)
    ensures !v.started ==> forall cached :: SignerInv(Bootstrap(v, cached), clock)
  {
  }

  lemma {:induction false} MissingKeepsSigner(v: Vars, clock: int, neutral: bool, now: int, later: int)
    requires SignerInv(v, clock) && clock <= now <= later
    ensures SignerInv(SignerMissing(v, neutral, now, later), later)
    ensures v.activeAuthoritative ==> SignerMissing(v, neutral, now, later).activeAuthoritative
  {
  }

  lemma {:induction false} StepKeepsSigner(w: World, s: Step)
    requires Inv(w) && Enabled(w, s)
    ensures SignerInv(Apply(w, s).vars, Apply(w, s).clock)
    ensures w.vars.activeAuthoritative ==> Apply(w, s).vars.activeAuthoritative
  {
    match s
    case Boot(cached, now) =>
      VarsSteps(w.vars, w.clock, now);
      if !w.vars.started { VarsSteps(Bootstrap(w.vars, cached), w.clock, now); }
    case Reconcile(now) => VarsSteps(w.vars, w.clock, now);
    case NoSigner(i, now, later) =>
      MissingKeepsSigner(w.vars, w.clock, w.reconciles[i].neutral, now, later);
      VarsSteps(SignerMissing(w.vars, w.reconciles[i].neutral, now, later), later, later);
    case Signer(i, pubkey, refresh) =>
    case EndReconcile(i) =>
    case Lookup =>
    case LookupAnswered(found) =>
    case Refresh(pubkey) =>
    case Settle(p) =>
    case Release(p) =>
  }

  lemma {:induction false} RequestKeeps(w: World, pubkey: Pubkey)
    requires OneRequestEach(w)
    ensures OneRequestEach(StartRequest(w, pubkey))
    ensures StartRequest(w, pubkey).reconciles == w.reconciles
    ensures StartRequest(w, pubkey).vars.reconciling == w.vars.reconciling
  {
  }

  /** Ending one request moves it along without touching the others. */
  lemma {:induction false} RequestEnds(w: World, p: Pubkey)
    requires OneRequestEach(w)
    ensures p in w.requests ==> OneRequestEach(Apply(w, Settle(p)))
    ensures p in w.settled ==> OneRequestEach(Apply(w, Release(p)))
  {
    assert w.requests[p] + w.settled[p] <= 1;
    if p in w.settled {
      var w' := Apply(w, Release(p));
      forall q ensures w'.requests[q] + w'.settled[q] == (if q in w'.vars.refreshInFlight then 1 else 0) {
        assert w.requests[q] + w.settled[q] == (if q in w.vars.refreshInFlight then 1 else 0);
      }
    }
  }

  predicate SameRequests(w: World, v: World) {
    v.requests == w.requests && v.settled == w.settled && v.vars.refreshInFlight == w.vars.refreshInFlight
  }

  lemma {:induction false} StepKeepsRequests(w: World, s: Step)
    requires OneRequestEach(w) && Enabled(w, s)
    ensures OneRequestEach(Apply(w, s))
  {
    match s
    case Signer(i, pubkey, refresh) =>
      if refresh {
        var answered := w.(vars := SignerAnswered(w.vars, pubkey), reconciles := w.reconciles[i := RefreshingProfile]);
        assert SameRequests(w, answered) && OneRequestEach(answered);
        RequestKeeps(answered, pubkey);
      } else {
        assert SameRequests(w, Apply(w, s));
      }
    case Refresh(pubkey) => RequestKeeps(w, pubkey);
    case Settle(p) => RequestEnds(w, p);
    case Release(p) => RequestEnds(w, p);
    case Boot(_, _) => assert SameRequests(w, Apply(w, s));
    case Reconcile(_) => assert SameRequests(w, Apply(w, s));
    case NoSigner(_, _, _) => assert SameRequests(w, Apply(w, s));
    case EndReconcile(_) => assert SameRequests(w, Apply(w, s));
    case Lookup => assert SameRequests(w, Apply(w, s));
    case LookupAnswered(_) => assert SameRequests(w, Apply(w, s));
  }

  lemma {:induction false} StepKeepsTasks(w: World, s: Step)
    requires Inv(w) && Enabled(w, s)
    ensures OneReconcile(Apply(w, s))
    ensures !Apply(w, s).vars.started ==> Apply(w, s).lookups == 0
  {
  }

  lemma {:induction false} RunKeepsInv(w: World, steps: seq<Step>)
    requires Inv(w) && Run(w, steps).Some?
    ensures Inv(Run(w, steps).value)
    ensures w.vars.activeAuthoritative ==> Run(w, steps).value.vars.activeAuthoritative
    ensures w.clock <= Run(w, steps).value.clock
  {
    if |steps| > 0 {
      var before := Run(w, steps[..|steps| - 1]).value;
      RunKeepsInv(w, steps[..|steps| - 1]);
      StepKeepsSigner(before, steps[|steps| - 1]);
      StepKeepsTasks(before, steps[|steps| - 1]);
      StepKeepsRequests(before, steps[|steps| - 1]);
    }
  }

  /** Signer authority, over every interleaving from a freshly opened page. */
  lemma {:induction false} SignerAuthority(openedAt: int, steps: seq<Step>)
    requires Run(Opened(openedAt), steps).Some?
    ensures var w := Run(Opened(openedAt), steps).value;
            && (w.vars.activeAuthoritative ==> w.vars.activePubkey.Some?)
            && (w.vars.signerStatus == Confirmed ==> w.vars.activeAuthoritative)
            && (w.vars.signerStatus == TimedOut ==>
                 w.vars.activePubkey.Some? && !w.vars.activeAuthoritative && w.vars.signerWaitStartedAt.Some?
                 && w.clock - w.vars.signerWaitStartedAt.value >= 10000)
  {
    RunKeepsInv(Opened(openedAt), steps);
  }

  /** Once the signer has spoken the store never falls back to a provisional pubkey. */
  lemma {:induction false} AuthorityStays(openedAt: int, steps: seq<Step>, more: seq<Step>)
    requires Run(Opened(openedAt), steps).Some? && Run(Run(Opened(openedAt), steps).value, more).Some?
    requires Run(Opened(openedAt), steps).value.vars.activeAuthoritative
    ensures Run(Run(Opened(openedAt), steps).value, more).value.vars.activeAuthoritative
  {
    RunKeepsInv(Opened(openedAt), steps);
    RunKeepsInv(Run(Opened(openedAt), steps).value, more);
  }

  /** Reconciliations never overlap, and each pubkey has at most one backend request running. */
  lemma {:induction false} NoOverlap(openedAt: int, steps: seq<Step>, p: Pubkey)
    requires Run(Opened(openedAt), steps).Some?
    ensures |Run(Opened(openedAt), steps).value.reconciles| <= 1
    ensures Run(Opened(openedAt), steps).value.requests[p] <= 1
  {
    RunKeepsInv(Opened(openedAt), steps);
  }
}
