/** What every interleaving of the containment protocol guarantees. */
module ContainmentLaws {
  import opened Wrappers
  import opened Events
  import opened Containment
  import opened ContainmentProtocol

  // ---------------------------------------------------------------- exactly once

  predicate CommitsId(e: Event, id: DetectionId) { e.change.Commit? && e.change.det.id == id }

  /** Successful EXECs for one detection id. */
  function Commits(log: seq<Event>, id: DetectionId): nat {
    if log == [] then 0 else Commits(log[..|log| - 1], id) + if CommitsId(log[|log| - 1], id) then 1 else 0
  }

  /** The actions of the latest successful EXEC for an id. */
  function Applied(log: seq<Event>, id: DetectionId): Option<seq<Action>> {
    if log == [] then None
    else if CommitsId(log[|log| - 1], id) then Some(log[|log| - 1].change.plan.actions)
    else Applied(log[..|log| - 1], id)
  }

  ghost predicate NeverDropped(log: seq<Event>, k: Key) {
    forall i :: 0 <= i < |log| ==> log[i].change != Drop(k)
  }

  lemma {:induction false} ReceiptTellsCommit(ttls: Ttls, db: Db, log: seq<Event>, id: DetectionId)
    requires Sequential(ttls, db, log) && NeverDropped(log, Receipt(id)) && !HasReceipt(db, id)
    ensures var now := Replay(ttls, db, log);
            && Commits(log, id) == (if HasReceipt(now, id) then 1 else 0)
            && Applied(log, id) == (if HasReceipt(now, id) then Some(ReceiptActions(now, id)) else None)
    decreases |log|
  {
    if log != [] {
      var n := |log| - 1;
      var before, e := Replay(ttls, db, log[..n]), log[n];
      ReceiptTellsCommit(ttls, db, log[..n], id);
      if CommitsId(e, id) {
        ExecuteFrame(before, e.change.det, Guard(e.change.det) in before, ttls, Receipt(id));
      } else {
        OtherEventsKeepReceipt(ttls, before, e, id);
      }
    }
  }

  lemma OtherEventsKeepReceipt(ttls: Ttls, db: Db, e: Event, id: DetectionId)
    requires AsIfAtomic(ttls, db, e) && !CommitsId(e, id) && e.change != Drop(Receipt(id))
    ensures Lookup(Effect(ttls, db, e), Receipt(id)) == Lookup(db, Receipt(id))
  {
    if e.change.Commit? {
      ExecuteFrame(db, e.change.det, Guard(e.change.det) in db, ttls, Receipt(id));
    }
  }

  /** A key is dropped only by its own expiry or, unless it is a receipt, by its own deletion. */
  lemma DropNeedsStep(ttls: Ttls, s: State, step: Step, k: Key)
    requires NeverDropped(s.log, k) && step != Expire(k) && (k.Receipt? || step != ApiDelete(k))
    ensures NeverDropped(Next(ttls, s, step).log, k)
  {
  }

  lemma {:induction false} DropsComeFromSteps(ttls: Ttls, db: Db, steps: seq<Step>, k: Key)
    requires Expire(k) !in steps && (k.Receipt? || ApiDelete(k) !in steps)
    ensures NeverDropped(Run(ttls, db, steps).log, k)
    decreases |steps|
  {
    if steps != [] {
      var n := |steps| - 1;
      DropsComeFromSteps(ttls, db, steps[..n], k);
      assert steps[n] in steps;
      DropNeedsStep(ttls, Run(ttls, db, steps[..n]), steps[n], k);
    }
  }

  /** The receipt was not there before the run and does not expire during it. */
  ghost predicate ReceiptKept(db: Db, steps: seq<Step>, id: DetectionId) {
    !HasReceipt(db, id) && Expire(Receipt(id)) !in steps
  }

  /**
   * Whatever interleaves, whatever is lost, as long as its receipt does not expire: an
   * id is applied at most once, a finished call for a known detection was applied
   * exactly once, and every finished call returns the actions of that one application.
   */
  lemma {:induction false} ExactlyOnce(ttls: Ttls, db: Db, steps: seq<Step>, id: DetectionId)
    requires Expire(Receipt(id)) !in steps && !HasReceipt(db, id)
    ensures var s := Run(ttls, db, steps);
            && Commits(s.log, id) <= 1
            && (HasReceipt(s.db, id) <==> Commits(s.log, id) == 1)
            && forall w :: w in s.calls && s.calls[w].det.id == id && s.calls[w].pc.Done? && Known(s.calls[w].det) ==>
                 Commits(s.log, id) == 1 && Applied(s.log, id) == Some(s.calls[w].pc.actions)
  {
    var s := Run(ttls, db, steps);
    InvHolds(ttls, db, steps);
    DropsComeFromSteps(ttls, db, steps, Receipt(id));
    ReceiptTellsCommit(ttls, db, s.log, id);
    forall w | w in s.calls && s.calls[w].det.id == id && s.calls[w].pc.Done? && Known(s.calls[w].det)
      ensures Commits(s.log, id) == 1 && Applied(s.log, id) == Some(s.calls[w].pc.actions)
    {
      assert CallOk(ttls, s, w);
      var i :| 0 <= i < |s.log| && AnswerAt(s.log[i], w, s.calls[w]);
      AnswerIsTheCommit(ttls, db, s.log, i, w, s.calls[w]);
    }
  }

  /** The answer at position i is the answer recorded under the receipt ever since. */
  lemma {:induction false} AnswerIsTheCommit(ttls: Ttls, db: Db, log: seq<Event>, i: nat, w: nat, c: Call)
    requires Sequential(ttls, db, log) && NeverDropped(log, Receipt(c.det.id)) && !HasReceipt(db, c.det.id)
    requires i < |log| && AnswerAt(log[i], w, c) && Known(c.det)
    ensures Commits(log, c.det.id) == 1 && Applied(log, c.det.id) == Some(c.pc.actions)
    decreases |log|
  {
    var n, id := |log| - 1, c.det.id;
    ReceiptTellsCommit(ttls, db, log, id);
    if i < n {
      AnswerIsTheCommit(ttls, db, log[..n], i, w, c);
    } else {
      ReceiptTellsCommit(ttls, db, log[..n], id);
    }
  }

  /** A receipt that was not there at the start was written by a commit, whatever has expired since. */
  lemma {:induction false} ReceiptNeedsCommit(ttls: Ttls, db: Db, log: seq<Event>, id: DetectionId)
    requires Sequential(ttls, db, log) && HasReceipt(Replay(ttls, db, log), id) && !HasReceipt(db, id)
    ensures Commits(log, id) >= 1
    decreases |log|
  {
    var n := |log| - 1;
    var before, e := Replay(ttls, db, log[..n]), log[n];
    if HasReceipt(before, id) {
      ReceiptNeedsCommit(ttls, db, log[..n], id);
    } else if e.change.Commit? && e.change.det.id != id {
      ExecuteFrame(before, e.change.det, Guard(e.change.det) in before, ttls, Receipt(id));
      assert false;
    }
  }

  lemma {:induction false} CommitsGrow(log: seq<Event>, i: nat, id: DetectionId)
    requires i <= |log|
    ensures Commits(log[..i], id) <= Commits(log, id)
    ensures i < |log| && CommitsId(log[i], id) ==> Commits(log, id) >= 1
    decreases |log|
  {
    if i < |log| {
      assert log[..|log| - 1][..i] == log[..i];
      CommitsGrow(log[..|log| - 1], i, id);
    } else {
      assert log[..i] == log;
    }
  }

  /** A finished call for a known detection has been applied at least once, even if receipts expire. */
  lemma {:induction false} FinishedWasApplied(ttls: Ttls, db: Db, steps: seq<Step>, w: nat)
    requires var s := Run(ttls, db, steps); w in s.calls && s.calls[w].pc.Done? && Known(s.calls[w].det)
    ensures var s := Run(ttls, db, steps); HasReceipt(db, s.calls[w].det.id) || Commits(s.log, s.calls[w].det.id) >= 1
  {
    var s := Run(ttls, db, steps);
    var id := s.calls[w].det.id;
    InvHolds(ttls, db, steps);
    assert CallOk(ttls, s, w);
    var i :| s.calls[w].begun <= i < |s.log| && AnswerAt(s.log[i], w, s.calls[w]);
    SequentialAt(ttls, db, s.log, i);
    CommitsGrow(s.log, i, id);
    if s.log[i].change.Observe? && !HasReceipt(db, id) {
      ReceiptNeedsCommit(ttls, db, s.log[..i], id);
    }
  }

  /** However often a detection is delivered, every finished call reports the same actions. */
  lemma {:induction false} RedeliveriesAgree(ttls: Ttls, db: Db, steps: seq<Step>, v: nat, w: nat)
    requires var s := Run(ttls, db, steps);
             && v in s.calls && s.calls[v].pc.Done? && Known(s.calls[v].det)
             && w in s.calls && s.calls[w].pc.Done? && Known(s.calls[w].det)
             && s.calls[v].det.id == s.calls[w].det.id
             && Expire(Receipt(s.calls[v].det.id)) !in steps && !HasReceipt(db, s.calls[v].det.id)
    ensures var s := Run(ttls, db, steps); s.calls[v].pc.actions == s.calls[w].pc.actions
  {
    ExactlyOnce(ttls, db, steps, Run(ttls, db, steps).calls[v].det.id);
  }

  /** A redelivery that finds the receipt changes no key at all. */
  lemma RedeliveryChangesNothing(ttls: Ttls, db: Db, steps: seq<Step>, w: nat)
    requires var s := Run(ttls, db, steps);
             w in s.calls && s.calls[w].pc.Watching? && HasReceipt(s.db, s.calls[w].det.id)
    ensures var s, s' := Run(ttls, db, steps), Next(ttls, Run(ttls, db, steps), Get(w));
            && s'.db == s.db
            && s'.calls[w].pc == Done(ReceiptActions(s.db, s.calls[w].det.id))
            && forall k :: Version(s'.log, k) == Version(s.log, k)
  {
    var s, s' := Run(ttls, db, steps), Next(ttls, Run(ttls, db, steps), Get(w));
    forall k ensures Version(s'.log, k) == Version(s.log, k) {
      VersionAppend(s.log, s'.log[|s.log|], k);
      assert s'.log == s.log + [s'.log[|s.log|]];
    }
  }

  // ---------------------------------------------------------------- geo escalation

  predicate GeoCommit(e: Event, userId: string) {
    e.change.Commit? && IsGeo(e.change.det) && e.change.det.userId == userId
  }

  /** Ids of the geo detections applied for a user. */
  function GeoIds(log: seq<Event>, userId: string): set<DetectionId> {
    if log == [] then {}
    else
      var e := log[|log| - 1];
      GeoIds(log[..|log| - 1], userId) + if GeoCommit(e, userId) then {e.change.det.id} else {}
  }

  function FirstGeo(log: seq<Event>, userId: string): Option<DetectionId> {
    if log == [] then None
    else
      var before := FirstGeo(log[..|log| - 1], userId);
      var e := log[|log| - 1];
      if before.Some? then before else if GeoCommit(e, userId) then Some(e.change.det.id) else None
  }

  ghost predicate EscalatesAfterFirst(log: seq<Event>, userId: string) {
    && (GeoIds(log, userId) == {} <==> FirstGeo(log, userId).None?)
    && (FirstGeo(log, userId).Some? ==> FirstGeo(log, userId).value in GeoIds(log, userId))
    && forall id :: id in GeoIds(log, userId) ==>
         Applied(log, id) == Some(if FirstGeo(log, userId) == Some(id) then [StepUpAuth]
             else [StepUpAuth, QuarantineUser])
  }

  lemma {:induction false} EscalationIsSequential(ttls: Ttls, db: Db, log: seq<Event>, userId: string)
    requires Sequential(ttls, db, log) && NeverDropped(log, StepUp(userId)) && StepUp(userId) !in db
    requires forall id :: id in GeoIds(log, userId) ==> NeverDropped(log, Receipt(id)) && !HasReceipt(db, id)
    ensures EscalatesAfterFirst(log, userId)
    ensures StepUp(userId) in Replay(ttls, db, log) <==> GeoIds(log, userId) != {}
    decreases |log|
  {
    if log != [] {
      var n := |log| - 1;
      forall id | id in GeoIds(log[..n], userId) ensures NeverDropped(log[..n], Receipt(id)) && !HasReceipt(db, id) {
        assert id in GeoIds(log, userId) && NeverDropped(log, Receipt(id));
      }
      EscalationIsSequential(ttls, db, log[..n], userId);
      var before, e := Replay(ttls, db, log[..n]), log[n];
      StepUpAfter(ttls, before, e, userId);
      if e.change.Commit? {
        var id := e.change.det.id;
        if id in GeoIds(log, userId) {
          assert NeverDropped(log, Receipt(id));
          ReceiptTellsCommit(ttls, db, log[..n], id);
          assert id !in GeoIds(log[..n], userId);
        }
      }
    }
  }

  lemma StepUpAfter(ttls: Ttls, db: Db, e: Event, userId: string)
    requires AsIfAtomic(ttls, db, e) && e.change != Drop(StepUp(userId))
    ensures StepUp(userId) in Effect(ttls, db, e) <==> StepUp(userId) in db || GeoCommit(e, userId)
  {
    if e.change.Commit? {
      var d := e.change.det;
      ExecuteFrame(db, d, Guard(d) in db, ttls, StepUp(userId));
      assert Writes(d, e.change.plan, StepUp(userId)) <==> GeoCommit(e, userId) by {
        if GeoCommit(e, userId) { assert e.change.plan.writes[0].key == StepUp(userId); }
      }
    }
  }

  /** Neither cleared nor expired, and the user's own geo detections keep their receipts. */
  ghost predicate EscalationUndisturbed(ttls: Ttls, db: Db, steps: seq<Step>, userId: string) {
    && StepUp(userId) !in db && Expire(StepUp(userId)) !in steps && ApiDelete(StepUp(userId)) !in steps
    && forall id :: id in GeoIds(Run(ttls, db, steps).log, userId) ==> ReceiptKept(db, steps, id)
  }

  /**
   * For any interleaving in which the user's step-up is neither cleared nor expired and
   * the receipts of the user's geo detections last: of the user's distinct geo detections
   * exactly the first applied only steps up, all the others escalate, and every finished
   * call whose receipt lasts, redelivered or not, returns the answer of its own detection.
   */
  lemma {:induction false} GeoEscalationCannotRace(ttls: Ttls, db: Db, steps: seq<Step>, userId: string)
    requires EscalationUndisturbed(ttls, db, steps, userId)
    ensures var s := Run(ttls, db, steps);
            && EscalatesAfterFirst(s.log, userId)
            && forall w ::
                 && w in s.calls && s.calls[w].pc.Done? && IsGeo(s.calls[w].det)
                 && ReceiptKept(db, steps, s.calls[w].det.id) ==>
                   Applied(s.log, s.calls[w].det.id) == Some(s.calls[w].pc.actions)
  {
    var s := Run(ttls, db, steps);
    InvHolds(ttls, db, steps);
    DropsComeFromSteps(ttls, db, steps, StepUp(userId));
    forall id | id in GeoIds(s.log, userId) ensures NeverDropped(s.log, Receipt(id)) && !HasReceipt(db, id) {
      assert ReceiptKept(db, steps, id);
      DropsComeFromSteps(ttls, db, steps, Receipt(id));
    }
    EscalationIsSequential(ttls, db, s.log, userId);
    forall w | w in s.calls && s.calls[w].pc.Done? && IsGeo(s.calls[w].det) && ReceiptKept(db, steps, s.calls[w].det.id)
      ensures Applied(s.log, s.calls[w].det.id) == Some(s.calls[w].pc.actions)
    {
      ExactlyOnce(ttls, db, steps, s.calls[w].det.id);
    }
  }

  /** Ids of the user's geo detections that were answered with the given actions. */
  function GeoIdsWith(log: seq<Event>, userId: string, actions: seq<Action>): set<DetectionId> {
    set id | id in GeoIds(log, userId) && Applied(log, id) == Some(actions)
  }

  lemma EscalationSplits(log: seq<Event>, userId: string, id: DetectionId)
    requires EscalatesAfterFirst(log, userId) && GeoIds(log, userId) != {}
    ensures var first := FirstGeo(log, userId).value;
            && (id in GeoIdsWith(log, userId, [StepUpAuth]) <==> id == first)
            && (id in GeoIdsWith(log, userId, [StepUpAuth, QuarantineUser]) <==>
                id in GeoIds(log, userId) && id != first)
  {
    assert |[StepUpAuth]| != |[StepUpAuth, QuarantineUser]|;
  }

  /**
   * In any such interleaving, of the n distinct geo detections applied for the user, one
   * only steps up and n - 1 escalate.
   */
  lemma {:induction false} EscalationCount(ttls: Ttls, db: Db, steps: seq<Step>, userId: string)
    requires EscalationUndisturbed(ttls, db, steps, userId)
    ensures var log := Run(ttls, db, steps).log;
            var n := |GeoIds(log, userId)|;
            && |GeoIdsWith(log, userId, [StepUpAuth])| == (if n == 0 then 0 else 1)
            && |GeoIdsWith(log, userId, [StepUpAuth, QuarantineUser])| == (if n == 0 then 0 else n - 1)
  {
    var log := Run(ttls, db, steps).log;
    var ids := GeoIds(log, userId);
    var only, escalated := GeoIdsWith(log, userId, [StepUpAuth]), GeoIdsWith(log, userId, [StepUpAuth, QuarantineUser]);
    GeoEscalationCannotRace(ttls, db, steps, userId);
    if ids == {} {
      assert only == {} && escalated == {};
    } else {
      var first := FirstGeo(log, userId).value;
      forall id ensures (id in only <==> id == first) && (id in escalated <==> id in ids && id != first) {
        EscalationSplits(log, userId, id);
      }
      assert only == {first} && escalated == ids - {first};
    }
  }

  /** Every commit was made by a call, for its own detection. */
  ghost predicate CommitsHaveCalls(s: State) {
    forall i :: 0 <= i < |s.log| && s.log[i].change.Commit? ==>
      s.log[i].actor.Worker? && s.log[i].actor.w in s.calls && s.calls[s.log[i].actor.w].det == s.log[i].change.det
  }

  lemma StepKeepsCommitCalls(ttls: Ttls, s: State, step: Step)
    requires CommitsHaveCalls(s)
    ensures CommitsHaveCalls(Next(ttls, s, step))
  {
    var s' := Next(ttls, s, step);
    LogGrows(ttls, s, step);
    forall i | 0 <= i < |s'.log| && s'.log[i].change.Commit?
      ensures s'.log[i].actor.Worker? && s'.log[i].actor.w in s'.calls
                && s'.calls[s'.log[i].actor.w].det == s'.log[i].change.det
    {
      if i < |s.log| {
        assert s'.log[i] == s.log[i];
        CallEvolves(ttls, s, step, s.log[i].actor.w);
      }
    }
  }

  lemma {:induction false} RunKeepsCommitCalls(ttls: Ttls, db: Db, steps: seq<Step>)
    ensures CommitsHaveCalls(Run(ttls, db, steps))
    decreases |steps|
  {
    if steps != [] {
      var n := |steps| - 1;
      RunKeepsCommitCalls(ttls, db, steps[..n]);
      StepKeepsCommitCalls(ttls, Run(ttls, db, steps[..n]), steps[n]);
    }
  }

  /** Calls with the same detection id are about the same user and equally geo or not. */
  ghost predicate IdsNameDetections(s: State) {
    forall v, w :: v in s.calls && w in s.calls && s.calls[v].det.id == s.calls[w].det.id ==>
      s.calls[v].det.userId == s.calls[w].det.userId && (IsGeo(s.calls[v].det) <==> IsGeo(s.calls[w].det))
  }

  lemma {:induction false} CommitIsSomewhere(log: seq<Event>, id: DetectionId)
    requires Commits(log, id) >= 1
    ensures exists i :: 0 <= i < |log| && CommitsId(log[i], id)
    decreases |log|
  {
    var n := |log| - 1;
    if !CommitsId(log[n], id) {
      CommitIsSomewhere(log[..n], id);
      var i :| 0 <= i < n && CommitsId(log[..n][i], id);
      assert CommitsId(log[i], id);
    }
  }

  lemma {:induction false} GeoIdsCollect(log: seq<Event>, userId: string, i: nat)
    requires i < |log| && GeoCommit(log[i], userId)
    ensures log[i].change.det.id in GeoIds(log, userId)
    decreases |log|
  {
    if i < |log| - 1 { GeoIdsCollect(log[..|log| - 1], userId, i); }
  }

  /**
   * For completed workers: the id of every finished geo call of the user whose receipt
   * lasts is among those counted, and the call returns a lone step-up exactly when its
   * detection was the first to be applied.
   */
  lemma {:induction false} CompletedWorkersEscalate(ttls: Ttls, db: Db, steps: seq<Step>, userId: string, w: nat)
    requires EscalationUndisturbed(ttls, db, steps, userId) && IdsNameDetections(Run(ttls, db, steps))
    requires var s := Run(ttls, db, steps);
             && w in s.calls && s.calls[w].pc.Done? && IsGeo(s.calls[w].det) && s.calls[w].det.userId == userId
             && ReceiptKept(db, steps, s.calls[w].det.id)
    ensures var s := Run(ttls, db, steps);
            var c := s.calls[w];
            && c.det.id in GeoIds(s.log, userId)
            && c.pc.actions == if FirstGeo(s.log, userId) == Some(c.det.id) then [StepUpAuth]
                else [StepUpAuth, QuarantineUser]
  {
    var s := Run(ttls, db, steps);
    var id := s.calls[w].det.id;
    ExactlyOnce(ttls, db, steps, id);
    CommitIsSomewhere(s.log, id);
    var i :| 0 <= i < |s.log| && CommitsId(s.log[i], id);
    RunKeepsCommitCalls(ttls, db, steps);
    assert s.calls[s.log[i].actor.w].det == s.log[i].change.det;
    GeoIdsCollect(s.log, userId, i);
    GeoEscalationCannotRace(ttls, db, steps, userId);
  }

  // ---------------------------------------------------------------- retry bound

  /** Changes to a key by anyone but one worker. */
  function ByOthers(log: seq<Event>, k: Key, w: nat): nat {
    if log == [] then 0
    else
      var e := log[|log| - 1];
      ByOthers(log[..|log| - 1], k, w) + if Touches(e, k) && e.actor != Worker(w) then 1 else 0
  }

  function ConflictsByOthers(log: seq<Event>, d: Detection, w: nat): nat {
    ByOthers(log, Receipt(d.id), w) + ByOthers(log, Guard(d), w)
  }

  ghost predicate NoEventsOf(log: seq<Event>, w: nat) {
    forall i :: 0 <= i < |log| ==> log[i].actor != Worker(w)
  }

  lemma {:induction false} AllByOthers(log: seq<Event>, k: Key, w: nat)
    requires NoEventsOf(log, w)
    ensures ByOthers(log, k, w) == Version(log, k)
    decreases |log|
  {
    if log != [] { AllByOthers(log[..|log| - 1], k, w); }
  }

  lemma ByOthersAppend(log: seq<Event>, e: Event, k: Key, w: nat)
    ensures ByOthers(log + [e], k, w) == ByOthers(log, k, w) + if Touches(e, k) && e.actor != Worker(w) then 1 else 0
  {
    assert (log + [e])[..|log|] == log;
  }

  /** A call writes to the log only by finishing, and its retries are paid for by others. */
  ghost predicate PaidByOthers(s: State, w: nat) {
    && (!Finished(s, w) ==> NoEventsOf(s.log, w))
    && (w in s.calls ==> s.calls[w].retries + s.calls[w].base <= ConflictsByOthers(s.log, s.calls[w].det, w))
  }

  predicate Finished(s: State, w: nat) {
    w in s.calls && (s.calls[w].pc.Done? || s.calls[w].pc.Lost?)
  }

  /** A step appends at most one event, and a worker's event finishes its call. */
  lemma LogGrows(ttls: Ttls, s: State, step: Step)
    ensures var s' := Next(ttls, s, step);
            s'.log == s.log ||
            (|s'.log| == |s.log| + 1 && s'.log[..|s.log|] == s.log &&
             (s'.log[|s.log|].actor.Worker? ==> Finished(s', s'.log[|s.log|].actor.w)))
  {
  }

  /** A call keeps its detection and origin, and retries only after a lost race. */
  lemma CallEvolves(ttls: Ttls, s: State, step: Step, w: nat)
    requires w in s.calls
    ensures var c, s' := s.calls[w], Next(ttls, s, step);
            && w in s'.calls && s'.calls[w].det == c.det && s'.calls[w].base == c.base
            && (Finished(s, w) ==> Finished(s', w))
            && (s'.calls[w].retries == c.retries ||
                (s'.calls[w].retries == c.retries + 1 && s'.log == s.log && c.pc.Planned? && !Unchanged(s, c)))
  {
    match step
    case Exec(v) =>
    case ExecReplyLost(v) =>
    case Get(v) =>
    case _ =>
  }

  lemma StepPaidByOthers(ttls: Ttls, s: State, step: Step, w: nat)
    requires PaidByOthers(s, w) && (w in s.calls ==> RetriesPaid(s, s.calls[w]))
    ensures PaidByOthers(Next(ttls, s, step), w)
  {
    var s' := Next(ttls, s, step);
    LogGrows(ttls, s, step);
    if w in s.calls {
      CallEvolves(ttls, s, step, w);
      var d := s.calls[w].det;
      if s'.log != s.log {
        assert s'.log == s.log + [s'.log[|s.log|]];
        ByOthersAppend(s.log, s'.log[|s.log|], Receipt(d.id), w);
        ByOthersAppend(s.log, s'.log[|s.log|], Guard(d), w);
      } else if !Finished(s, w) {
        AllByOthers(s.log, Receipt(d.id), w);
        AllByOthers(s.log, Guard(d), w);
      }
    } else if w in s'.calls {
      AllByOthers(s.log, Receipt(s'.calls[w].det.id), w);
      AllByOthers(s.log, Guard(s'.calls[w].det), w);
    }
  }

  lemma {:induction false} RetriesPaidByOthers(ttls: Ttls, db: Db, steps: seq<Step>, w: nat)
    ensures PaidByOthers(Run(ttls, db, steps), w)
    decreases |steps|
  {
    if steps != [] {
      var n := |steps| - 1;
      RetriesPaidByOthers(ttls, db, steps[..n], w);
      InvHolds(ttls, db, steps[..n]);
      var s := Run(ttls, db, steps[..n]);
      if w in s.calls { assert CallOk(ttls, s, w); }
      StepPaidByOthers(ttls, s, steps[n], w);
    }
  }

  lemma BeginRecordsOrigin(ttls: Ttls, s: State, w: nat, d: Detection)
    requires w !in s.calls
    ensures HasOrigin(Next(ttls, s, Begin(w, d)), w, d, Conflicts(s.log, d))
  {
  }

  predicate HasOrigin(s: State, w: nat, d: Detection, base: nat) {
    w in s.calls && s.calls[w].det == d && s.calls[w].base == base
  }

  lemma {:induction false} CallKeepsOrigin(ttls: Ttls, db: Db, steps: seq<Step>, i: nat, w: nat, d: Detection)
    requires i < |steps| && steps[i] == Begin(w, d) && w !in Run(ttls, db, steps[..i]).calls
    ensures HasOrigin(Run(ttls, db, steps), w, d, Conflicts(Run(ttls, db, steps[..i]).log, d))
  {
    assert steps[..i + 1][..i] == steps[..i];
    BeginRecordsOrigin(ttls, Run(ttls, db, steps[..i]), w, d);
    RunExtends(ttls, db, steps, i + 1, w);
  }

  /**
   * A call that began at step i has retried at most as often as other actors have since
   * changed its receipt or its guard.
   */
  lemma {:induction false} RetryBound(ttls: Ttls, db: Db, steps: seq<Step>, i: nat, w: nat, d: Detection)
    requires i < |steps| && steps[i] == Begin(w, d) && w !in Run(ttls, db, steps[..i]).calls
    ensures var s := Run(ttls, db, steps);
            && w in s.calls
            && s.calls[w].retries <= ConflictsByOthers(s.log, d, w) - Conflicts(Run(ttls, db, steps[..i]).log, d)
  {
    CallKeepsOrigin(ttls, db, steps, i, w, d);
    RetriesPaidByOthers(ttls, db, steps, w);
  }
}
