/** Whose key the identity store holds: its variables read off the steps that happened, without
    the functions that make the steps. */
module SignerHistory {
  import opened Text
  import opened SignerStore

  // ---------- what the steps say ----------

  /** The key a step has from the signer itself. */
  function Answer(step: Step): Option<Pubkey> {
    match step
    case Signer(_, pubkey, _) => Some(pubkey)
    case LookupAnswered(found) => found
    case _ => None
  }

  /** The key of the signer's last answer. */
  function LastAnswer(steps: seq<Step>): Option<Pubkey> {
    if |steps| == 0 then None
    else
      var answer := Answer(steps[|steps| - 1]);
      if answer.Some? then answer else LastAnswer(steps[..|steps| - 1])
  }

  predicate HasBooted(steps: seq<Step>) { exists i :: 0 <= i < |steps| && steps[i].Boot? }

  /** The key that was cached when the store was first started. */
  function CachedKey(steps: seq<Step>): Option<Pubkey> {
    if |steps| == 0 then None
    else
      var front, last := steps[..|steps| - 1], steps[|steps| - 1];
      if last.Boot? && !HasBooted(front) then last.cached else CachedKey(front)
  }

  /** When a reconciliation first found no signer. */
  function FirstMissing(steps: seq<Step>): Option<int> {
    if |steps| == 0 then None
    else
      var first, last := FirstMissing(steps[..|steps| - 1]), steps[|steps| - 1];
      if first.None? && last.NoSigner? then Some(last.now) else first
  }

  /** Whether a reconciliation has found no signer since the signer's last answer, and when it last did. */
  function LastMissing(steps: seq<Step>): Option<int> {
    if |steps| == 0 then None
    else
      var last := steps[|steps| - 1];
      if last.NoSigner? then Some(last.later)
      else if Answer(last).Some? then None
      else LastMissing(steps[..|steps| - 1])
  }

  /** A cached key no signer has confirmed. */
  predicate IsProvisional(steps: seq<Step>) { LastAnswer(steps).None? && CachedKey(steps).Some? }

  /** The variables as the steps tell them. */
  predicate Tells(steps: seq<Step>, v: Vars) {
    && v.started == HasBooted(steps)
    && v.activePubkey == (if LastAnswer(steps).Some? then LastAnswer(steps) else CachedKey(steps))
    && v.activeAuthoritative == LastAnswer(steps).Some?
    && v.signerWaitStartedAt == (if IsProvisional(steps) then FirstMissing(steps) else None)
    && v.signerStatus == (
         if LastAnswer(steps).Some? && LastMissing(steps).None? then Confirmed
         else if IsProvisional(steps) && HasWaited(steps) then TimedOut
         else Checking)
  }

  /** The last reconciliation without a signer came ten seconds after the first. */
  predicate HasWaited(steps: seq<Step>) {
    FirstMissing(steps).Some? && LastMissing(steps).Some?
    && LastMissing(steps).value - FirstMissing(steps).value >= 10000
  }

  // ---------- one more step ----------

  predicate Follows(steps: seq<Step>, front: seq<Step>, last: Step) {
    |steps| > 0 && front == steps[..|steps| - 1] && last == steps[|steps| - 1]
  }

  lemma {:induction false} BootedStep(steps: seq<Step>, front: seq<Step>, last: Step)
    requires Follows(steps, front, last)
    ensures HasBooted(steps) <==> HasBooted(front) || last.Boot?
  {
    if HasBooted(front) {
      var i :| 0 <= i < |front| && front[i].Boot?;
      assert steps[i].Boot?;
    }
    if last.Boot? { assert steps[|front|].Boot?; }
  }

  predicate IsUnstarted(w: World) { !w.vars.started && w.lookups == 0 && w.reconciles == [] }

  lemma {:induction false} UnstartedStep(w: World, s: Step)
    requires IsUnstarted(w) && Enabled(w, s) && !s.Boot?
    ensures IsUnstarted(Apply(w, s)) && Answer(s).None? && !s.NoSigner?
  {
  }

  /** What cannot have happened before the store was started. */
  lemma {:induction false} NothingBeforeBoot(w: World, steps: seq<Step>)
    requires IsUnstarted(w) && Run(w, steps).Some? && !HasBooted(steps)
    ensures IsUnstarted(Run(w, steps).value)
    ensures LastAnswer(steps).None? && CachedKey(steps).None? && FirstMissing(steps).None? && LastMissing(steps).None?
  {
    if |steps| > 0 {
      BootedStep(steps, steps[..|steps| - 1], steps[|steps| - 1]);
      NothingBeforeBoot(w, steps[..|steps| - 1]);
      UnstartedStep(Run(w, steps[..|steps| - 1]).value, steps[|steps| - 1]);
    }
  }

  predicate SameSigner(v: Vars, u: Vars) {
    && v.started == u.started && v.activePubkey == u.activePubkey && v.activeAuthoritative == u.activeAuthoritative
    && v.signerWaitStartedAt == u.signerWaitStartedAt && v.signerStatus == u.signerStatus
  }

  predicate IsSilent(s: Step, w: World) {
    !s.NoSigner? && Answer(s).None? && (s.Boot? ==> w.vars.started)
  }

  /** Steps that bring no news of the signer leave its variables alone. */
  lemma {:induction false} SilentStep(w: World, s: Step)
    requires Enabled(w, s) && IsSilent(s, w)
    ensures SameSigner(w.vars, Apply(w, s).vars)
  {
  }

  lemma {:induction false} SilentTells(steps: seq<Step>, front: seq<Step>, last: Step, w: World)
    requires Follows(steps, front, last) && Enabled(w, last) && IsSilent(last, w) && Tells(front, w.vars)
    ensures Tells(steps, Apply(w, last).vars)
  {
    SilentStep(w, last);
    BootedStep(steps, front, last);
  }

  lemma {:induction false} AnswerTells(steps: seq<Step>, front: seq<Step>, last: Step, w: World)
    requires Follows(steps, front, last) && Enabled(w, last) && Answer(last).Some? && Tells(front, w.vars)
    ensures Tells(steps, Apply(w, last).vars)
  {
    BootedStep(steps, front, last);
  }

  lemma {:induction false} MissingTells(steps: seq<Step>, front: seq<Step>, last: Step, w: World)
    requires Follows(steps, front, last) && Enabled(w, last) && last.NoSigner? && Tells(front, w.vars)
    ensures Tells(steps, Apply(w, last).vars)
  {
    BootedStep(steps, front, last);
  }

  lemma {:induction false} BootTells(steps: seq<Step>, front: seq<Step>, last: Step, w: World)
    requires Follows(steps, front, last) && Enabled(w, last) && last.Boot? && !w.vars.started && Tells(front, w.vars)
    requires LastAnswer(front).None? && FirstMissing(front).None? && LastMissing(front).None?
    ensures Tells(steps, Apply(w, last).vars)
  {
    BootedStep(steps, front, last);
  }

  /** Over all interleavings: the active key is authoritative exactly if the signer ever answered, and
      is then the key of its last answer, and otherwise the one cached at the start; the status is
      confirmed exactly if that answer is the latest news of the signer, and timed out exactly if
      there was none and reconciliations have found no signer for ten seconds or more. */
  lemma {:induction false} StoreTellsSigner(openedAt: int, steps: seq<Step>)
    requires Run(Opened(openedAt), steps).Some?
    ensures Tells(steps, Run(Opened(openedAt), steps).value.vars)
  {
    if |steps| > 0 {
      var front, last := steps[..|steps| - 1], steps[|steps| - 1];
      var w := Run(Opened(openedAt), front).value;
      StoreTellsSigner(openedAt, front);
      if last.NoSigner? {
        MissingTells(steps, front, last, w);
      } else if Answer(last).Some? {
        AnswerTells(steps, front, last, w);
      } else if last.Boot? && !w.vars.started {
        NothingBeforeBoot(Opened(openedAt), front);
        BootTells(steps, front, last, w);
      } else {
        SilentTells(steps, front, last, w);
      }
    }
  }

  // ---------- when reconciliations start ----------

  /** When a reconciliation last started: at the last start of the store, focus, page show or interval
      tick that left one more running than before. */
  function LastStart(openedAt: int, steps: seq<Step>): Option<int>
    requires Run(Opened(openedAt), steps).Some?
  {
    if |steps| == 0 then None
    else
      var front, last := steps[..|steps| - 1], steps[|steps| - 1];
      var before, after := Run(Opened(openedAt), front).value, Run(Opened(openedAt), steps).value;
      if IsStart(before, last, after) then Some(last.now) else LastStart(openedAt, front)
  }

  predicate IsStart(before: World, s: Step, after: World) {
    (s.Boot? || s.Reconcile?) && |after.reconciles| > |before.reconciles|
  }

  lemma {:induction false} StartIsRecorded(w: World, s: Step)
    requires Enabled(w, s)
    ensures Apply(w, s).vars.lastReconcileAt
         == if IsStart(w, s, Apply(w, s)) then s.now else w.vars.lastReconcileAt
  {
  }

  lemma {:induction false} StartsAreRecorded(openedAt: int, steps: seq<Step>)
    requires Run(Opened(openedAt), steps).Some?
    ensures Run(Opened(openedAt), steps).value.vars.lastReconcileAt == LastStart(openedAt, steps).GetOr(0)
  {
    if |steps| > 0 {
      StartsAreRecorded(openedAt, steps[..|steps| - 1]);
      StartIsRecorded(Run(Opened(openedAt), steps[..|steps| - 1]).value, steps[|steps| - 1]);
    }
  }

  /** A reconciliation starts exactly if none is running and 1.2 seconds have passed since the last
      one started. */
  lemma {:induction false} StartsIffIdle(openedAt: int, steps: seq<Step>, now: int)
    requires Run(Opened(openedAt), steps).Some? && Enabled(Run(Opened(openedAt), steps).value, Reconcile(now))
    ensures var w := Run(Opened(openedAt), steps).value;
            |Apply(w, Reconcile(now)).reconciles| > |w.reconciles| <==>
              |w.reconciles| == 0 && now - LastStart(openedAt, steps).GetOr(0) >= 1200
  {
    StartsAreRecorded(openedAt, steps);
    RunKeepsInv(Opened(openedAt), steps);
  }

  /** A refresh that is asked for runs, alone: its own request or one already on its way. */
  lemma {:induction false} RefreshRuns(openedAt: int, steps: seq<Step>, p: Pubkey)
    requires Run(Opened(openedAt), steps).Some?
    ensures var w := Run(Opened(openedAt), steps).value;
            && Enabled(w, Refresh(p))
            && Apply(w, Refresh(p)).requests[p] + Apply(w, Refresh(p)).settled[p] == 1
            && (p !in w.requests && p !in w.settled ==> Apply(w, Refresh(p)).requests[p] == 1)
  {
    RunKeepsInv(Opened(openedAt), steps);
    StepKeepsRequests(Run(Opened(openedAt), steps).value, Refresh(p));
  }
}
