/**
 * The asynchronous engine and the decision service over one Redis: any interleaving of
 * Kafka deliveries, decision requests (completed or cut short after scoring) and rule
 * changes. Nothing expires, and requests for one event do not overlap.
 */
module SharedState {
  import opened Wrappers
  import opened Events
  import Tx = TxCheck
  import P = Pipeline
  import Laws = BatchLaws
  import D = Decision

  datatype Config = Config(pipeline: P.Config, decision: D.Config)

  datatype World = World(rules: D.Rules, stores: P.Stores, results: map<string, Answer>)

  datatype Op =
    | Deliver(record: P.Record)
    | Ask(request: D.Request, clock: real, id: string)
    | AskCrashed(request: D.Request, clock: real)
    | SetRules(rules: D.Rules)

  datatype Output = Detected(ds: seq<Detection>) | Replied(result: D.Result) | Silent

  function EnvOf(w: World): P.Env {
    P.Env(w.rules.quarantined, w.rules.blockedIps, w.results)
  }

  function DecisionStore(w: World): D.Store { D.Store(w.stores.checks, w.results) }

  function WithDecision(w: World, s: D.Store): World {
    w.(stores := w.stores.(checks := s.checks), results := s.results)
  }

  /** A crash after the script: state has advanced, nothing is stored. */
  function Crashed(cfg: Config, w: World, q: D.Request, clock: real): World {
    if !D.WellFormed(q) || D.Refusal(w.rules, q, "").Some? then w
    else WithDecision(w, D.Script(cfg.decision, DecisionStore(w), D.Stamp(q, clock)))
  }

  function Step(cfg: Config, w: World, op: Op): World {
    match op
    case Deliver(r) => w.(stores := P.HandleBatch(cfg.pipeline, EnvOf(w), w.stores, [r]).stores)
    case Ask(q, clock, id) => WithDecision(w, D.After(cfg.decision, DecisionStore(w), w.rules, q, clock, id))
    case AskCrashed(q, clock) => Crashed(cfg, w, q, clock)
    case SetRules(rules) => w.(rules := rules)
  }

  function OutputOf(cfg: Config, w: World, op: Op): Output {
    match op
    case Deliver(r) => Detected(P.HandleBatch(cfg.pipeline, EnvOf(w), w.stores, [r]).emitted)
    case Ask(q, clock, id) => Replied(D.AnswerTo(cfg.decision, DecisionStore(w), w.rules, q, clock, id))
    case AskCrashed(_, _) => Silent
    case SetRules(_) => Silent
  }

  function Run(cfg: Config, w: World, ops: seq<Op>): World
    decreases |ops|
  {
    if ops == [] then w else Run(cfg, Step(cfg, w, ops[0]), ops[1..])
  }

  function Outputs(cfg: Config, w: World, ops: seq<Op>): seq<Output>
    decreases |ops|
  {
    if ops == [] then [] else [OutputOf(cfg, w, ops[0])] + Outputs(cfg, Step(cfg, w, ops[0]), ops[1..])
  }

  // ---------------------------------------------------------------- one delivery, unfolded

  /** What a single delivery does to the script store. */
  lemma DeliverOne(cfg: Config, w: World, r: P.Record)
    ensures var v := P.Validate(cfg.pipeline, r);
            var after := Step(cfg, w, Deliver(r));
            && after.rules == w.rules && after.results == w.results
            && after.stores.checks ==
               if v.Some? && v.value.event.Transaction? && !P.Blocked(EnvOf(w), v.value)
               then Tx.Check(cfg.pipeline.check, w.stores.checks, v.value.event.tx, v.value.ref)
               else w.stores.checks
  {
    ItemsOfOne(cfg, r);
    var its := P.ItemsOf(cfg.pipeline, [r]);
    if its != [] { assert its[..0] == []; }
  }

  lemma ItemsOfOne(cfg: Config, r: P.Record)
    ensures var v := P.Validate(cfg.pipeline, r);
            P.ItemsOf(cfg.pipeline, [r]) == if v.Some? then [v.value] else []
  {
    assert [r][..0] == [];
  }

  // ---------------------------------------------------------------- decision and async paths agree

  /** The decision service owns the payload's replay key and its answer is stored. */
  ghost predicate Decided(w: World, tx: Events.Tx, a: Answer) {
    && Lookup(w.stores.checks.replay, HashOf(tx)) == Some(Events.Decision(tx.eventId))
    && Lookup(w.results, tx.eventId) == Some(a)
  }

  /** A rule answers the request before it is scored. */
  predicate RuleAnswers(rules: D.Rules, q: D.Request) {
    || q.userId in rules.quarantined
    || (q.ip != "" && SanitizeIp(q.ip) in rules.blockedIps)
    || q.userId in rules.stepUps
  }

  /** The decision service owns the payload's replay key. */
  ghost predicate Owns(w: World, tx: Events.Tx) {
    Lookup(w.stores.checks.replay, HashOf(tx)) == Some(Events.Decision(tx.eventId))
  }

  /**
   * The operation is a request that reuses the event id and will be scored afresh: no rule
   * answers it, and its payload is not already owned by a request for this event.
   */
  ghost predicate Replaces(w: World, op: Op, tx: Events.Tx) {
    && op.Ask? && D.WellFormed(op.request) && op.request.eventId == tx.eventId
    && !RuleAnswers(w.rules, op.request)
    && !Owns(w, D.Stamp(op.request, op.clock))
  }

  /** A decided event stays decided by the same answer exactly through operations that do not replace it. */
  lemma {:induction false} StepKeepsDecidedIff(cfg: Config, w: World, op: Op, tx: Events.Tx, a: Answer)
    requires Decided(w, tx, a)
    ensures !Replaces(w, op, tx) ==> Decided(Step(cfg, w, op), tx, a)
    ensures Replaces(w, op, tx) ==> op.id == a.decisionId || ReplacedBy(Step(cfg, w, op), tx.eventId, a)
  {
    match op
    case Deliver(r) => DeliverOne(cfg, w, r);
    case Ask(q, clock, id) => AskKeepsDecidedIff(cfg, w, q, clock, id, tx, a);
    case AskCrashed(_, _) =>
    case SetRules(_) =>
  }

  lemma AskKeepsDecidedIff(cfg: Config, w: World, q: D.Request, clock: real, id: string, tx: Events.Tx, a: Answer)
    requires Decided(w, tx, a)
    ensures var reused, after := Replaces(w, Ask(q, clock, id), tx), Step(cfg, w, Ask(q, clock, id));
            && (!reused ==> Decided(after, tx, a))
            && (reused ==> id == a.decisionId || ReplacedBy(after, tx.eventId, a))
  {
  }

  /** The stored answer of the event is another decision's. */
  ghost predicate ReplacedBy(w: World, eventId: string, a: Answer) {
    eventId in w.results && w.results[eventId].decisionId != a.decisionId
  }

  ghost predicate NeverReplaced(cfg: Config, w: World, ops: seq<Op>, tx: Events.Tx)
    decreases |ops|
  {
    ops == [] || (!Replaces(w, ops[0], tx) && NeverReplaced(cfg, Step(cfg, w, ops[0]), ops[1..], tx))
  }

  /** Decision ids are fresh: no later request is given the id of this answer. */
  ghost predicate FreshIds(ops: seq<Op>, a: Answer) {
    forall i :: 0 <= i < |ops| ==> ops[i].Ask? ==> ops[i].id != a.decisionId
  }

  lemma {:induction false} ReplacedForGood(cfg: Config, w: World, ops: seq<Op>, eventId: string, a: Answer)
    requires ReplacedBy(w, eventId, a) && FreshIds(ops, a)
    ensures ReplacedBy(Run(cfg, w, ops), eventId, a)
    decreases |ops|
  {
    if ops != [] {
      if ops[0].Deliver? { DeliverOne(cfg, w, ops[0].record); }
      assert ops[0].Ask? ==> ops[0].id != a.decisionId;
      ReplacedForGood(cfg, Step(cfg, w, ops[0]), ops[1..], eventId, a);
    }
  }

  lemma StepKeepsOwner(cfg: Config, w: World, op: Op, h: ReplayHash)
    requires h in w.stores.checks.replay
    ensures Lookup(Step(cfg, w, op).stores.checks.replay, h) == Lookup(w.stores.checks.replay, h)
  {
    match op
    case Deliver(r) => DeliverOne(cfg, w, r);
    case Ask(_, _, _) =>
    case AskCrashed(_, _) =>
    case SetRules(_) =>
  }

  /** Whoever owns a replay key keeps it. */
  lemma {:induction false} RunKeepsOwner(cfg: Config, w: World, ops: seq<Op>, h: ReplayHash)
    requires h in w.stores.checks.replay
    ensures Lookup(Run(cfg, w, ops).stores.checks.replay, h) == Lookup(w.stores.checks.replay, h)
    decreases |ops|
  {
    if ops != [] {
      StepKeepsOwner(cfg, w, ops[0], h);
      RunKeepsOwner(cfg, Step(cfg, w, ops[0]), ops[1..], h);
    }
  }

  /**
   * Over any interleaving of deliveries, requests, crashes and rule changes: the event
   * keeps its stored answer exactly when no operation replaces it.
   */
  lemma {:induction false} RunKeepsDecided(cfg: Config, w: World, ops: seq<Op>, tx: Events.Tx, a: Answer)
    requires Decided(w, tx, a)
    ensures NeverReplaced(cfg, w, ops, tx) ==> Decided(Run(cfg, w, ops), tx, a)
    ensures FreshIds(ops, a) && !NeverReplaced(cfg, w, ops, tx) ==> ReplacedBy(Run(cfg, w, ops), tx.eventId, a)
    ensures FreshIds(ops, a) ==> (Decided(Run(cfg, w, ops), tx, a) <==> NeverReplaced(cfg, w, ops, tx))
    decreases |ops|
  {
    if ops != [] {
      StepKeepsDecidedIff(cfg, w, ops[0], tx, a);
      assert FreshIds(ops, a) && ops[0].Ask? ==> ops[0].id != a.decisionId;
      var w1 := Step(cfg, w, ops[0]);
      if Replaces(w, ops[0], tx) {
        if FreshIds(ops, a) { ReplacedForGood(cfg, w1, ops[1..], tx.eventId, a); }
      } else {
        RunKeepsDecided(cfg, w1, ops[1..], tx, a);
      }
    }
  }

  /** A completed request that saw its payload first leaves it decided. */
  lemma FirstAskDecides(cfg: Config, w: World, q: D.Request, clock: real, id: string)
    requires D.WellFormed(q) && D.Refusal(w.rules, q, id).None?
    requires HashOf(D.Stamp(q, clock)) !in w.stores.checks.replay
    ensures var a := D.AnswerTo(cfg.decision, DecisionStore(w), w.rules, q, clock, id);
            && a.Answered? && !a.answer.cached
            && (forall i :: 0 <= i < |a.answer.reasons| ==> P.ReportedType(a.answer.reasons[i].kind))
            && Decided(Step(cfg, w, Ask(q, clock, id)), D.Stamp(q, clock), a.answer)
  {
  }

  /** Every stored reason, in order, as a detection of the delivery. */
  function Reported(it: P.Item, a: Answer): seq<Detection> {
    seq(|a.reasons|, i requires 0 <= i < |a.reasons| =>
      var r := a.reasons[i];
      P.WithStableId(it, P.Finding(if r.kind.Detector? then r.kind.dtype
          else UnknownType(""), NoScope, None, r.evidence, DecisionService(a.verdict))))
  }

  lemma {:induction false} ScoredReasonsAreReported(verdict: Verdict, reasons: seq<Reason>)
    requires forall i :: 0 <= i < |reasons| ==> P.ReportedType(reasons[i].kind)
    ensures var fs := P.FromReasons(verdict, reasons);
            && |fs| == |reasons|
            && forall i :: 0 <= i < |reasons| ==>
                 reasons[i].kind.Detector?
                     && fs[i] == P.Finding(reasons[i].kind.dtype, NoScope, None, reasons[i].evidence,
                     DecisionService(verdict))
    decreases |reasons|
  {
    if reasons != [] {
      ScoredReasonsAreReported(verdict, reasons[..|reasons| - 1]);
    }
  }

  /** Once decided, a retry that no rule answers returns the stored verdict. */
  lemma DecidedIsCached(cfg: Config, w: World, q: D.Request, clock: real, id: string, a: Answer)
    requires D.WellFormed(q) && D.Refusal(w.rules, q, id).None? && Decided(w, D.Stamp(q, clock), a)
    ensures D.AnswerTo(cfg.decision, DecisionStore(w), w.rules, q, clock, id) == D.Answered(a.(cached := true))
  {
  }

  /** Once decided, a Kafka delivery is pre-scored, advances nothing and repeats the stored reasons. */
  lemma {:induction false} DecidedIsPrescored(cfg: Config, w: World, it: P.Item, a: Answer)
    requires it.event.Transaction? && it.ref.Kafka? && !P.Blocked(EnvOf(w), it) && Decided(w, it.event.tx, a)
    requires forall i :: 0 <= i < |a.reasons| ==> P.ReportedType(a.reasons[i].kind)
    ensures P.IsPrescored(P.CheckedItem(cfg.pipeline, EnvOf(w), w.stores, it))
    ensures P.CheckItem(cfg.pipeline, EnvOf(w), w.stores, it) == w.stores
    ensures P.Candidates(cfg.pipeline, EnvOf(w), w.stores, [it]) == Reported(it, a)
  {
    Laws.CandidatesOfOne(cfg.pipeline, EnvOf(w), w.stores, it);
    ScoredReasonsAreReported(a.verdict, a.reasons);
  }

  /**
   * After a completed request was first to see an event, over any interleaving that does
   * not replace its answer: a retry with the same timestamp returns the stored verdict,
   * and a Kafka delivery of the event is pre-scored, advances nothing, and yields exactly
   * the stored reasons.
   */
  lemma {:induction false} PathsAgree(cfg: Config, w: World, q: D.Request, clock: real, id: string, ops: seq<Op>,
                                      retryClock: real, retryId: string, it: P.Item)
    requires D.WellFormed(q) && D.Refusal(w.rules, q, id).None?
    requires HashOf(D.Stamp(q, clock)) !in w.stores.checks.replay
    requires NeverReplaced(cfg, Step(cfg, w, Ask(q, clock, id)), ops, D.Stamp(q, clock))
    requires it.event == P.Transaction(D.Stamp(q, clock)) && it.ref.Kafka?
    ensures var first := D.AnswerTo(cfg.decision, DecisionStore(w), w.rules, q, clock, id);
            var now := Run(cfg, Step(cfg, w, Ask(q, clock, id)), ops);
            && first.Answered?
            && (D.Refusal(now.rules, q, retryId).None? && (q.timestamp.Some? || retryClock == clock) ==>
                  D.AnswerTo(cfg.decision, DecisionStore(now), now.rules, q, retryClock, retryId)
                  == D.Answered(first.answer.(cached := true)))
            && (!P.Blocked(EnvOf(now), it) ==>
                  && P.IsPrescored(P.CheckedItem(cfg.pipeline, EnvOf(now), now.stores, it))
                  && P.CheckItem(cfg.pipeline, EnvOf(now), now.stores, it) == now.stores
                  && P.Candidates(cfg.pipeline, EnvOf(now), now.stores, [it]) == Reported(it, first.answer))
  {
    var tx := D.Stamp(q, clock);
    var first := D.AnswerTo(cfg.decision, DecisionStore(w), w.rules, q, clock, id);
    var w1 := Step(cfg, w, Ask(q, clock, id));
    var now := Run(cfg, w1, ops);
    FirstAskDecides(cfg, w, q, clock, id);
    RunKeepsDecided(cfg, w1, ops, tx, first.answer);
    if D.Refusal(now.rules, q, retryId).None? && (q.timestamp.Some? || retryClock == clock) {
      DecidedIsCached(cfg, now, q, retryClock, retryId, first.answer);
    }
    if !P.Blocked(EnvOf(now), it) {
      DecidedIsPrescored(cfg, now, it, first.answer);
    }
  }

  /** What a detection says, apart from where it was computed. */
  datatype Fact = Fact(id: DetectionId, dtype: DetectionType, userId: string, evidence: Evidence)

  function Facts(ds: seq<Detection>): set<Fact> {
    set d | d in ds :: Fact(d.id, d.dtype, d.userId, d.evidence)
  }

  function FactOf(it: P.Item, dtype: DetectionType, scope: Scope, e: Evidence): Fact {
    Fact(DetectionId(it.ref, dtype, scope), dtype, P.UserOf(it.event), e)
  }

  lemma FactsOfFindings(it: P.Item, fs: seq<P.Finding>, x: Fact)
    ensures x in Facts(P.Identify(it, fs)) <==>
            exists i :: 0 <= i < |fs| && x == FactOf(it, fs[i].dtype, fs[i].scope, fs[i].evidence)
  {
    var ds := P.Identify(it, fs);
    if x in Facts(ds) {
      var d :| d in ds && x == Fact(d.id, d.dtype, d.userId, d.evidence);
      var i :| 0 <= i < |ds| && ds[i] == d;
      assert x == FactOf(it, fs[i].dtype, fs[i].scope, fs[i].evidence);
    }
    if i :| 0 <= i < |fs| && x == FactOf(it, fs[i].dtype, fs[i].scope, fs[i].evidence) {
      assert ds[i] in ds;
    }
  }

  /** The reason and the finding a detector makes of one script result. */
  ghost predicate SameSignal(r: Reason, f: P.Finding) {
    r.kind == Detector(f.dtype) && r.evidence == f.evidence && f.scope == NoScope
  }

  ghost predicate Found(gs: seq<P.Finding>, a: Reason) { exists f :: f in gs && SameSignal(a, f) }

  ghost predicate Reasoned(reasons: seq<Reason>, f: P.Finding) { exists a :: a in reasons && SameSignal(a, f) }

  lemma ReasonsOf(cfg: Config, tx: Events.Tx, r: Tx.TxResult, a: Reason)
    ensures a in D.Reasons(cfg.decision, tx, r) <==>
            || (r.status == Tx.Replay && a == Reason(Detector(ReplayAttack), D.SCORE_REPLAY, FirstSeen(r.stored)))
            || (r.burstCount > cfg.decision.burstThreshold
                && a == Reason(Detector(FraudBurst), D.SCORE_BURST, InWindow(r.burstCount)))
            || (r.geo.status == Tx.Anomaly
                && a == Reason(Detector(GeoVelocityAnomaly), D.SCORE_GEO, P.TravelEvidence(tx, r.geo)))
  {
  }

  lemma FindingsOf(cfg: Config, tx: Events.Tx, r: Tx.TxResult, f: P.Finding)
    ensures f in P.InterpretTx(cfg.pipeline, tx, r) <==>
            || (r.status == Tx.Replay
                && f == P.Finding(ReplayAttack, NoScope, None, FirstSeen(r.stored), AsyncDetector))
            || (r.burstCount > cfg.pipeline.burstThreshold
                && f == P.Finding(FraudBurst, NoScope, None, InWindow(r.burstCount), AsyncDetector))
            || (r.geo.status == Tx.Anomaly
                && f == P.Finding(GeoVelocityAnomaly, NoScope, None, P.TravelEvidence(tx, r.geo), AsyncDetector))
  {
  }

  lemma SignalsMatch(cfg: Config, tx: Events.Tx, r: Tx.TxResult)
    requires cfg.pipeline.burstThreshold == cfg.decision.burstThreshold
    ensures var reasons, gs := D.Reasons(cfg.decision, tx, r), P.InterpretTx(cfg.pipeline, tx, r);
            && (forall i :: 0 <= i < |reasons| ==> P.ReportedType(reasons[i].kind))
            && (forall i :: 0 <= i < |reasons| ==> Found(gs, reasons[i]))
            && (forall j :: 0 <= j < |gs| ==> Reasoned(reasons, gs[j]))
  {
    var reasons, gs := D.Reasons(cfg.decision, tx, r), P.InterpretTx(cfg.pipeline, tx, r);
    forall i | 0 <= i < |reasons| ensures P.ReportedType(reasons[i].kind) && Found(gs, reasons[i]) {
      var a := reasons[i];
      ReasonsOf(cfg, tx, r, a);
      var f := P.Finding(a.kind.dtype, NoScope, None, a.evidence, AsyncDetector);
      FindingsOf(cfg, tx, r, f);
      assert SameSignal(a, f);
    }
    forall j | 0 <= j < |gs| ensures Reasoned(reasons, gs[j]) {
      var f := gs[j];
      FindingsOf(cfg, tx, r, f);
      var score := match f.dtype
                   case ReplayAttack => D.SCORE_REPLAY
                   case FraudBurst => D.SCORE_BURST
                   case _ => D.SCORE_GEO;
      var a := Reason(Detector(f.dtype), score, f.evidence);
      ReasonsOf(cfg, tx, r, a);
      assert SameSignal(a, f);
    }
  }

  lemma {:induction false} ReasonsAreFound(it: P.Item, verdict: Verdict, reasons: seq<Reason>, gs: seq<P.Finding>)
    requires forall i :: 0 <= i < |reasons| ==> P.ReportedType(reasons[i].kind)
    requires forall i :: 0 <= i < |reasons| ==> Found(gs, reasons[i])
    ensures Facts(P.Identify(it, P.FromReasons(verdict, reasons))) <= Facts(P.Identify(it, gs))
  {
    var fs := P.FromReasons(verdict, reasons);
    ScoredReasonsAreReported(verdict, reasons);
    forall x | x in Facts(P.Identify(it, fs)) ensures x in Facts(P.Identify(it, gs)) {
      FactsOfFindings(it, fs, x);
      FactsOfFindings(it, gs, x);
      var i :| 0 <= i < |fs| && x == FactOf(it, fs[i].dtype, fs[i].scope, fs[i].evidence);
      var g :| g in gs && SameSignal(reasons[i], g);
      var j :| 0 <= j < |gs| && gs[j] == g;
      assert x == FactOf(it, gs[j].dtype, gs[j].scope, gs[j].evidence);
    }
  }

  lemma {:induction false} FindingsAreReasons(it: P.Item, verdict: Verdict, reasons: seq<Reason>, gs: seq<P.Finding>)
    requires forall i :: 0 <= i < |reasons| ==> P.ReportedType(reasons[i].kind)
    requires forall j :: 0 <= j < |gs| ==> Reasoned(reasons, gs[j])
    ensures Facts(P.Identify(it, gs)) <= Facts(P.Identify(it, P.FromReasons(verdict, reasons)))
  {
    var fs := P.FromReasons(verdict, reasons);
    ScoredReasonsAreReported(verdict, reasons);
    forall x | x in Facts(P.Identify(it, gs)) ensures x in Facts(P.Identify(it, fs)) {
      FactsOfFindings(it, fs, x);
      FactsOfFindings(it, gs, x);
      var j :| 0 <= j < |gs| && x == FactOf(it, gs[j].dtype, gs[j].scope, gs[j].evidence);
      var a :| a in reasons && SameSignal(a, gs[j]);
      var i :| 0 <= i < |reasons| && reasons[i] == a;
      assert x == FactOf(it, fs[i].dtype, fs[i].scope, fs[i].evidence);
    }
  }

  /** Both paths read the same script result the same way. */
  lemma SameFacts(cfg: Config, it: P.Item, tx: Events.Tx, r: Tx.TxResult, verdict: Verdict)
    requires cfg.pipeline.burstThreshold == cfg.decision.burstThreshold
    ensures Facts(P.Identify(it, P.FromReasons(verdict, D.Reasons(cfg.decision, tx, r)))) ==
            Facts(P.Identify(it, P.InterpretTx(cfg.pipeline, tx, r)))
  {
    var reasons, gs := D.Reasons(cfg.decision, tx, r), P.InterpretTx(cfg.pipeline, tx, r);
    SignalsMatch(cfg, tx, r);
    ReasonsAreFound(it, verdict, reasons, gs);
    FindingsAreReasons(it, verdict, reasons, gs);
  }

  /** A stored answer for the event is what a pre-scored delivery reports, and no stored answer is nothing. */
  lemma {:induction false} PrescoredReportsStored(cfg: Config, w: World, it: P.Item)
    requires it.event.Transaction? && it.ref.Kafka? && !P.Blocked(EnvOf(w), it) && Owns(w, it.event.tx)
    ensures P.CheckItem(cfg.pipeline, EnvOf(w), w.stores, it) == w.stores
    ensures P.Candidates(cfg.pipeline, EnvOf(w), w.stores, [it]) ==
            P.Identify(it, P.FromDecision(Lookup(w.results, it.event.tx.eventId)))
  {
    Laws.CandidatesOfOne(cfg.pipeline, EnvOf(w), w.stores, it);
  }

  /**
   * Whether or not the authoriser asked first, the Kafka delivery of a new event yields
   * the same detections: same ids, types, user and evidence.
   */
  lemma {:induction false} AskingFirstFindsTheSame(cfg: Config, w: World, q: D.Request, clock: real, id: string,
                                                   it: P.Item)
    requires cfg.pipeline.check == cfg.decision.check && cfg.pipeline.burstThreshold == cfg.decision.burstThreshold
    requires D.WellFormed(q) && D.Refusal(w.rules, q, id).None?
    requires HashOf(D.Stamp(q, clock)) !in w.stores.checks.replay
    requires it.event == P.Transaction(D.Stamp(q, clock)) && it.ref.Kafka? && !P.Blocked(EnvOf(w), it)
    ensures var asked := Step(cfg, w, Ask(q, clock, id));
            Facts(P.Candidates(cfg.pipeline, EnvOf(asked), asked.stores, [it])) ==
            Facts(P.Candidates(cfg.pipeline, EnvOf(w), w.stores, [it]))
  {
    var tx, asked := D.Stamp(q, clock), Step(cfg, w, Ask(q, clock, id));
    var answer := D.AnswerTo(cfg.decision, DecisionStore(w), w.rules, q, clock, id).answer;
    var r := Tx.CheckResult(cfg.pipeline.check, w.stores.checks, tx, it.ref);
    FirstAskDecides(cfg, w, q, clock, id);
    assert answer.reasons == D.Reasons(cfg.decision, tx, r) by { FirstAnswer(cfg, w, q, clock, id, it.ref); }
    assert P.Candidates(cfg.pipeline, EnvOf(asked), asked.stores, [it]) ==
        P.Identify(it, P.FromReasons(answer.verdict, answer.reasons)) by {
      PrescoredReportsStored(cfg, asked, it);
    }
    assert P.Candidates(cfg.pipeline, EnvOf(w), w.stores, [it]) ==
        P.Identify(it, P.InterpretTx(cfg.pipeline, tx, r)) by {
      Laws.CandidatesOfOne(cfg.pipeline, EnvOf(w), w.stores, it);
    }
    SameFacts(cfg, it, tx, r, answer.verdict);
  }

  /** A first request reads the same script result a first delivery would. */
  lemma FirstAnswer(cfg: Config, w: World, q: D.Request, clock: real, id: string, ref: Ref)
    requires cfg.pipeline.check == cfg.decision.check
    requires D.WellFormed(q) && D.Refusal(w.rules, q, id).None? && HashOf(D.Stamp(q, clock)) !in w.stores.checks.replay
    ensures var tx := D.Stamp(q, clock);
            var a := D.AnswerTo(cfg.decision, DecisionStore(w), w.rules, q, clock, id);
            a.Answered? && a.answer.reasons ==
                D.Reasons(cfg.decision, tx, Tx.CheckResult(cfg.pipeline.check, w.stores.checks, tx, ref))
  {
  }

  // ---------------------------------------------------------------- where the hypotheses are needed

  /** An unstamped request is a new payload on every clock reading: a retry is cached iff the stamp repeats. */
  lemma RetryIsCachedIff(cfg: Config, w: World, q: D.Request, clock: real, id: string, retryClock: real,
                         retryId: string)
    requires D.WellFormed(q) && D.Refusal(w.rules, q, id).None?
    requires HashOf(D.Stamp(q, clock)) !in w.stores.checks.replay
    requires HashOf(D.Stamp(q, retryClock)) !in w.stores.checks.replay
    ensures var w1 := Step(cfg, w, Ask(q, clock, id));
            var again := D.AnswerTo(cfg.decision, DecisionStore(w1), w1.rules, q, retryClock, retryId);
            && again.Answered?
            && (again.answer.cached <==> q.timestamp.Some? || clock == retryClock)
  {
    FirstAskDecides(cfg, w, q, clock, id);
  }

  /**
   * What reusing an event id does, exactly. After a request was decided and any operations
   * followed, its retry returns the stored verdict if and only if none of them replaced
   * it; otherwise it is handed the verdict of another decision.
   */
  lemma {:induction false} RetryReturnsStoredIff(cfg: Config, w: World, q: D.Request, clock: real, id: string,
                                                 ops: seq<Op>, retryId: string)
    requires D.WellFormed(q) && D.Refusal(w.rules, q, id).None?
    requires HashOf(D.Stamp(q, clock)) !in w.stores.checks.replay
    requires forall i :: 0 <= i < |ops| ==> ops[i].Ask? ==> ops[i].id != id
    requires !RuleAnswers(Run(cfg, Step(cfg, w, Ask(q, clock, id)), ops).rules, q)
    ensures var first := D.AnswerTo(cfg.decision, DecisionStore(w), w.rules, q, clock, id);
            var asked := Step(cfg, w, Ask(q, clock, id));
            var now := Run(cfg, asked, ops);
            var again := D.AnswerTo(cfg.decision, DecisionStore(now), now.rules, q, clock, retryId);
            && first.Answered? && again.Answered? && again.answer.cached
            && (again.answer == first.answer.(cached := true) <==> NeverReplaced(cfg, asked, ops, D.Stamp(q, clock)))
            && (again.answer.decisionId == id <==> NeverReplaced(cfg, asked, ops, D.Stamp(q, clock)))
  {
    var tx, asked := D.Stamp(q, clock), Step(cfg, w, Ask(q, clock, id));
    var a := D.AnswerTo(cfg.decision, DecisionStore(w), w.rules, q, clock, id).answer;
    var now := Run(cfg, asked, ops);
    FirstAskDecides(cfg, w, q, clock, id);
    assert a.decisionId == id;
    RunKeepsDecided(cfg, asked, ops, tx, a);
    RunKeepsOwner(cfg, asked, ops, HashOf(tx));
    assert Lookup(now.results, tx.eventId).Some? ==>
      D.AnswerTo(cfg.decision, DecisionStore(now), now.rules, q, clock, retryId) ==
          D.Answered(now.results[tx.eventId].(cached := true));
  }

  /** One reuse: a second request with the same event id and another amount takes the verdict over. */
  lemma ReusedEventIdReplacesVerdict(cfg: Config, w: World, q: D.Request, q': D.Request, clock: real, id: string,
                                     id': string)
    requires D.WellFormed(q) && D.Refusal(w.rules, q, id).None? && id != id'
    requires q' == q.(amountCents := q.amountCents + 1)
    requires HashOf(D.Stamp(q, clock)) !in w.stores.checks.replay
             && HashOf(D.Stamp(q', clock)) !in w.stores.checks.replay
    ensures var w1 := Step(cfg, w, Ask(q, clock, id));
            var w2 := Step(cfg, w1, Ask(q', clock, id'));
            var again := D.AnswerTo(cfg.decision, DecisionStore(w2), w2.rules, q, clock, id);
            && Replaces(w1, Ask(q', clock, id'), D.Stamp(q, clock))
            && again.Answered? && again.answer.cached && again.answer.decisionId == id'
  {
    var w1 := Step(cfg, w, Ask(q, clock, id));
    var w2 := Step(cfg, w1, Ask(q', clock, id'));
    FirstAskDecides(cfg, w, q, clock, id);
    FirstAskDecides(cfg, w1, q', clock, id');
    StepKeepsOwner(cfg, w1, Ask(q', clock, id'), HashOf(D.Stamp(q, clock)));
    OwnedIsCached(cfg, w2, q, clock, id);
  }

  /** A request whose key the decision service owns and whose event has an answer is handed that answer. */
  lemma OwnedIsCached(cfg: Config, w: World, q: D.Request, clock: real, id: string)
    requires D.WellFormed(q) && !RuleAnswers(w.rules, q) && Owns(w, D.Stamp(q, clock)) && q.eventId in w.results
    ensures D.AnswerTo(cfg.decision, DecisionStore(w), w.rules, q, clock, id) ==
              D.Answered(w.results[q.eventId].(cached := true))
  {
  }

  /** Does the answer hold the event for a replay? */
  predicate ReportsReplay(a: Answer) {
    exists i :: 0 <= i < |a.reasons| && a.reasons[i].kind == Detector(ReplayAttack)
  }

  /** A scored answer reports a replay exactly when the payload belongs to another delivery. */
  lemma ReplayReportedIff(cfg: Config, w: World, q: D.Request, clock: real, id: string)
    requires D.WellFormed(q) && !RuleAnswers(w.rules, q) && !D.Cached(DecisionStore(w), D.Stamp(q, clock))
    ensures var owner := Lookup(w.stores.checks.replay, HashOf(D.Stamp(q, clock)));
            var a := D.AnswerTo(cfg.decision, DecisionStore(w), w.rules, q, clock, id);
            a.Answered? && (ReportsReplay(a.answer) <==> owner.Some? && owner.value != Events.Decision(q.eventId))
  {
    var tx := D.Stamp(q, clock);
    var r := Tx.CheckResult(cfg.decision.check, w.stores.checks, tx, Events.Decision(tx.eventId));
    var reasons := D.Reasons(cfg.decision, tx, r);
    if r.status == Tx.Replay { assert reasons[0].kind == Detector(ReplayAttack); }
    forall i | 0 <= i < |reasons| ensures reasons[i].kind == Detector(ReplayAttack) ==> r.status == Tx.Replay {
      ReasonsOf(cfg, tx, r, reasons[i]);
    }
  }

  /**
   * The other order: when the Kafka record of an event is handled before the request, the
   * request is scored as a replay of its own event, whatever happens in between, is never
   * cached, and is denied wherever the thresholds implement the policy.
   */
  lemma {:induction false} DeliveryFirstDeniesRequest(cfg: Config, w: World, q: D.Request, clock: real,
      record: P.Record, ops: seq<Op>, id: string)
    requires D.WellFormed(q) && HashOf(D.Stamp(q, clock)) !in w.stores.checks.replay
    requires var v := P.Validate(cfg.pipeline, record);
             v.Some? && v.value.event == P.Transaction(D.Stamp(q, clock)) && !P.Blocked(EnvOf(w), v.value)
    requires !RuleAnswers(Run(cfg, Step(cfg, w, Deliver(record)), ops).rules, q)
    ensures var now := Run(cfg, Step(cfg, w, Deliver(record)), ops);
            var a := D.AnswerTo(cfg.decision, DecisionStore(now), now.rules, q, clock, id);
            && a.Answered? && !a.answer.cached && a.answer.decisionId == id && ReportsReplay(a.answer)
            && (D.Calibrated(cfg.decision) ==> a.answer.verdict == Deny)
  {
    var tx, handled := D.Stamp(q, clock), Step(cfg, w, Deliver(record));
    var now := Run(cfg, handled, ops);
    DeliverOne(cfg, w, record);
    assert Lookup(handled.stores.checks.replay, HashOf(tx)) == Some(P.RecordRef(record));
    RunKeepsOwner(cfg, handled, ops, HashOf(tx));
    ReplayReportedIff(cfg, now, q, clock, id);
    if D.Calibrated(cfg.decision) {
      D.HardSignalsDeny(cfg.decision, tx,
          Tx.CheckResult(cfg.decision.check, now.stores.checks, tx, Events.Decision(tx.eventId)));
    }
  }

  // ---------------------------------------------------------------- crash between scoring and storing

  /** Operations that do not score a transaction of the user and do not answer the event. */
  predicate Unrelated(cfg: Config, op: Op, userId: string, eventId: string) {
    match op
    case Deliver(r) =>
      var v := P.Validate(cfg.pipeline, r);
      v.Some? && v.value.event.Transaction? ==> v.value.event.tx.userId != userId
    case Ask(q, _, _) => q.userId != userId && q.eventId != eventId
    case AskCrashed(q, _) => q.userId != userId
    case SetRules(_) => true
  }

  /** What an unrelated operation leaves alone. */
  ghost predicate SameFor(a: World, b: World, tx: Events.Tx) {
    && Tx.View(a.stores.checks, tx.userId) == Tx.View(b.stores.checks, tx.userId)
    && Lookup(a.stores.checks.replay, HashOf(tx)) == Lookup(b.stores.checks.replay, HashOf(tx))
    && Lookup(a.results, tx.eventId) == Lookup(b.results, tx.eventId)
  }

  lemma OtherUserFrame(check: Tx.Config, s: Tx.Store, other: Events.Tx, ref: Ref, tx: Events.Tx)
    requires other.userId != tx.userId
    ensures var after := Tx.Check(check, s, other, ref);
            && Tx.View(after, tx.userId) == Tx.View(s, tx.userId)
            && Lookup(after.replay, HashOf(tx)) == Lookup(s.replay, HashOf(tx))
  {
    Tx.CheckFrame(check, s, other, ref, tx.userId);
  }

  lemma DeliveryFrame(cfg: Config, w: World, r: P.Record, tx: Events.Tx)
    requires Unrelated(cfg, Deliver(r), tx.userId, tx.eventId)
    ensures SameFor(Step(cfg, w, Deliver(r)), w, tx)
  {
    DeliverOne(cfg, w, r);
    var v := P.Validate(cfg.pipeline, r);
    if v.Some? && v.value.event.Transaction? {
      OtherUserFrame(cfg.pipeline.check, w.stores.checks, v.value.event.tx, v.value.ref, tx);
    }
  }

  lemma StepFrame(cfg: Config, w: World, op: Op, tx: Events.Tx)
    requires Unrelated(cfg, op, tx.userId, tx.eventId)
    ensures SameFor(Step(cfg, w, op), w, tx)
  {
    match op
    case Deliver(r) =>
      DeliveryFrame(cfg, w, r, tx);
    case Ask(q, clock, id) =>
      OtherUserFrame(cfg.decision.check, w.stores.checks, D.Stamp(q, clock), Events.Decision(q.eventId), tx);
    case AskCrashed(q, clock) =>
      OtherUserFrame(cfg.decision.check, w.stores.checks, D.Stamp(q, clock), Events.Decision(q.eventId), tx);
    case SetRules(_) =>
  }

  lemma {:induction false} RunFrame(cfg: Config, w: World, ops: seq<Op>, tx: Events.Tx)
    requires forall i :: 0 <= i < |ops| ==> Unrelated(cfg, ops[i], tx.userId, tx.eventId)
    ensures SameFor(Run(cfg, w, ops), w, tx)
    decreases |ops|
  {
    if ops != [] {
      StepFrame(cfg, w, ops[0], tx);
      RunFrame(cfg, Step(cfg, w, ops[0]), ops[1..], tx);
    }
  }

  /**
   * A request cut short after scoring and asked again gets the answer it would have had,
   * whatever other users did in between.
   */
  lemma {:induction false} CrashIsHarmless(cfg: Config, w: World, q: D.Request, clock: real, retryClock: real,
                                           ops: seq<Op>, id: string)
    requires Tx.ValidConfig(cfg.decision.check)
    requires D.WellFormed(q) && D.Refusal(w.rules, q, id).None? && (q.timestamp.Some? || retryClock == clock)
    requires q.eventId !in w.results
    requires forall i :: 0 <= i < |ops| ==> Unrelated(cfg, ops[i], q.userId, q.eventId)
    requires D.Refusal(Run(cfg, Step(cfg, w, AskCrashed(q, clock)), ops).rules, q, id).None?
    ensures var now := Run(cfg, Step(cfg, w, AskCrashed(q, clock)), ops);
            D.AnswerTo(cfg.decision, DecisionStore(now), now.rules, q, retryClock, id) ==
            D.AnswerTo(cfg.decision, DecisionStore(w), w.rules, q, clock, id)
  {
    var tx := D.Stamp(q, clock);
    var w1 := Step(cfg, w, AskCrashed(q, clock));
    var now := Run(cfg, w1, ops);
    assert D.Stamp(q, retryClock) == tx;
    assert w1.stores.checks == Tx.Check(cfg.decision.check, w.stores.checks, tx, Events.Decision(tx.eventId));
    RunFrame(cfg, w1, ops, tx);
    Tx.RepeatCheckAgrees(cfg.decision.check, w.stores.checks, now.stores.checks, tx, Events.Decision(tx.eventId));
  }

  /** Some request of the run for the event is scored to the end. */
  predicate Answers(cfg: Config, w: World, ops: seq<Op>, eventId: string)
    decreases |ops|
  {
    ops != [] &&
    (|| (&& ops[0].Ask? && D.WellFormed(ops[0].request) && ops[0].request.eventId == eventId
         && !RuleAnswers(w.rules, ops[0].request))
     || Answers(cfg, Step(cfg, w, ops[0]), ops[1..], eventId))
  }

  lemma {:induction false} StoredIffAnswered(cfg: Config, w: World, ops: seq<Op>, eventId: string)
    ensures eventId in Run(cfg, w, ops).results <==> eventId in w.results || Answers(cfg, w, ops, eventId)
    decreases |ops|
  {
    if ops != [] {
      if ops[0].Deliver? { DeliverOne(cfg, w, ops[0].record); }
      StoredIffAnswered(cfg, Step(cfg, w, ops[0]), ops[1..], eventId);
    }
  }

  /**
   * After a request died between scoring and storing, a delivery of the event is
   * pre-scored for ever after: as long as no request for the event is answered in full it
   * reports nothing, whatever the script had found.
   */
  lemma {:induction false} CrashHidesFindings(cfg: Config, w: World, q: D.Request, clock: real, ops: seq<Op>,
                                              it: P.Item)
    requires D.WellFormed(q) && !RuleAnswers(w.rules, q)
    requires HashOf(D.Stamp(q, clock)) !in w.stores.checks.replay && q.eventId !in w.results
    requires it.event == P.Transaction(D.Stamp(q, clock)) && it.ref.Kafka?
    ensures var crashed := Step(cfg, w, AskCrashed(q, clock));
            var now := Run(cfg, crashed, ops);
            !P.Blocked(EnvOf(now), it) ==>
              && P.CheckItem(cfg.pipeline, EnvOf(now), now.stores, it) == now.stores
              && (q.eventId in now.results <==> Answers(cfg, crashed, ops, q.eventId))
              && (!Answers(cfg, crashed, ops, q.eventId) ==>
                  P.Candidates(cfg.pipeline, EnvOf(now), now.stores, [it]) == [])
  {
    var tx, crashed := D.Stamp(q, clock), Step(cfg, w, AskCrashed(q, clock));
    var now := Run(cfg, crashed, ops);
    CrashTakesKey(cfg, w, q, clock);
    RunKeepsOwner(cfg, crashed, ops, HashOf(tx));
    StoredIffAnswered(cfg, crashed, ops, q.eventId);
    if !P.Blocked(EnvOf(now), it) { PrescoredReportsStored(cfg, now, it); }
  }

  lemma CrashTakesKey(cfg: Config, w: World, q: D.Request, clock: real)
    requires D.WellFormed(q) && !RuleAnswers(w.rules, q) && HashOf(D.Stamp(q, clock)) !in w.stores.checks.replay
    ensures var crashed := Step(cfg, w, AskCrashed(q, clock));
            Owns(crashed, D.Stamp(q, clock)) && crashed.results == w.results
  {
  }

  /**
   * The findings such a crash hides, exactly: the delivery that follows loses them if and
   * only if the script had found anything; if the request is first asked again and
   * answered, the delivery reports what it would have without the crash.
   */
  lemma {:induction false} CrashLosesFindingsUnlessRetried(cfg: Config, w: World, q: D.Request, clock: real,
      retryClock: real, ops: seq<Op>, id: string, it: P.Item)
    requires cfg.pipeline.check == cfg.decision.check && cfg.pipeline.burstThreshold == cfg.decision.burstThreshold
    requires Tx.ValidConfig(cfg.decision.check)
    requires D.WellFormed(q) && D.Refusal(w.rules, q, id).None? && (q.timestamp.Some? || retryClock == clock)
    requires HashOf(D.Stamp(q, clock)) !in w.stores.checks.replay && q.eventId !in w.results
    requires forall i :: 0 <= i < |ops| ==> Unrelated(cfg, ops[i], q.userId, q.eventId)
    requires D.Refusal(Run(cfg, Step(cfg, w, AskCrashed(q, clock)), ops).rules, q, id).None?
    requires it.event == P.Transaction(D.Stamp(q, clock)) && it.ref.Kafka?
    ensures var now := Run(cfg, Step(cfg, w, AskCrashed(q, clock)), ops);
            var retried := Step(cfg, now, Ask(q, retryClock, id));
            var had := Facts(P.Candidates(cfg.pipeline, EnvOf(w), w.stores, [it]));
            && (Facts(P.Candidates(cfg.pipeline, EnvOf(now), now.stores, [it])) == had <==>
                FirstReasons(cfg, w, q, clock) == [])
            && P.Candidates(cfg.pipeline, EnvOf(now), now.stores, [it]) == []
            && Facts(P.Candidates(cfg.pipeline, EnvOf(retried), retried.stores, [it])) == had
  {
    CrashedDeliveryReports(cfg, w, q, clock, ops, id, it);
    RetriedDeliveryReports(cfg, w, q, clock, retryClock, ops, id, it);
  }

  lemma {:induction false} CrashedDeliveryReports(cfg: Config, w: World, q: D.Request, clock: real, ops: seq<Op>,
                                                  id: string, it: P.Item)
    requires cfg.pipeline.check == cfg.decision.check && cfg.pipeline.burstThreshold == cfg.decision.burstThreshold
    requires D.WellFormed(q) && D.Refusal(w.rules, q, id).None?
    requires HashOf(D.Stamp(q, clock)) !in w.stores.checks.replay && q.eventId !in w.results
    requires forall i :: 0 <= i < |ops| ==> Unrelated(cfg, ops[i], q.userId, q.eventId)
    requires D.Refusal(Run(cfg, Step(cfg, w, AskCrashed(q, clock)), ops).rules, q, id).None?
    requires it.event == P.Transaction(D.Stamp(q, clock)) && it.ref.Kafka?
    ensures var now := Run(cfg, Step(cfg, w, AskCrashed(q, clock)), ops);
            && P.Candidates(cfg.pipeline, EnvOf(now), now.stores, [it]) == []
            && (Facts(P.Candidates(cfg.pipeline, EnvOf(w), w.stores, [it])) == {} <==>
                FirstReasons(cfg, w, q, clock) == [])
  {
    var tx, crashed := D.Stamp(q, clock), Step(cfg, w, AskCrashed(q, clock));
    var now, asked := Run(cfg, crashed, ops), Step(cfg, w, Ask(q, clock, id));
    var a := D.AnswerTo(cfg.decision, DecisionStore(w), w.rules, q, clock, id).answer;
    CrashTakesKey(cfg, w, q, clock);
    RunFrame(cfg, crashed, ops, tx);
    assert P.Candidates(cfg.pipeline, EnvOf(now), now.stores, [it]) == [] by { PrescoredReportsStored(cfg, now, it); }
    FirstAskDecides(cfg, w, q, clock, id);
    assert P.Candidates(cfg.pipeline, EnvOf(asked), asked.stores, [it]) ==
        Reported(it, a) by { DecidedIsPrescored(cfg, asked, it, a); }
    AskingFirstFindsTheSame(cfg, w, q, clock, id, it);
    FactsAreThere(it, a);
  }

  /** What the script finds for a request that sees its payload first. */
  function FirstReasons(cfg: Config, w: World, q: D.Request, clock: real): seq<Reason> {
    var tx := D.Stamp(q, clock);
    D.Reasons(cfg.decision, tx, Tx.CheckResult(cfg.decision.check, w.stores.checks, tx, Events.Decision(q.eventId)))
  }

  lemma {:induction false} RetriedDeliveryReports(cfg: Config, w: World, q: D.Request, clock: real, retryClock: real,
                                                  ops: seq<Op>, id: string, it: P.Item)
    requires cfg.pipeline.check == cfg.decision.check && cfg.pipeline.burstThreshold == cfg.decision.burstThreshold
    requires Tx.ValidConfig(cfg.decision.check)
    requires D.WellFormed(q) && D.Refusal(w.rules, q, id).None? && (q.timestamp.Some? || retryClock == clock)
    requires HashOf(D.Stamp(q, clock)) !in w.stores.checks.replay && q.eventId !in w.results
    requires forall i :: 0 <= i < |ops| ==> Unrelated(cfg, ops[i], q.userId, q.eventId)
    requires D.Refusal(Run(cfg, Step(cfg, w, AskCrashed(q, clock)), ops).rules, q, id).None?
    requires it.event == P.Transaction(D.Stamp(q, clock)) && it.ref.Kafka?
    ensures var retried := Step(cfg, Run(cfg, Step(cfg, w, AskCrashed(q, clock)), ops), Ask(q, retryClock, id));
            Facts(P.Candidates(cfg.pipeline, EnvOf(retried), retried.stores, [it])) ==
            Facts(P.Candidates(cfg.pipeline, EnvOf(w), w.stores, [it]))
  {
    var tx, crashed := D.Stamp(q, clock), Step(cfg, w, AskCrashed(q, clock));
    var now, asked := Run(cfg, crashed, ops), Step(cfg, w, Ask(q, clock, id));
    var a := D.AnswerTo(cfg.decision, DecisionStore(w), w.rules, q, clock, id).answer;
    assert D.Stamp(q, retryClock) == tx;
    CrashTakesKey(cfg, w, q, clock);
    RunFrame(cfg, crashed, ops, tx);
    CrashIsHarmless(cfg, w, q, clock, retryClock, ops, id);
    RetryDecides(cfg, now, q, retryClock, id);
    FirstAskDecides(cfg, w, q, clock, id);
    SameReport(cfg, asked, Step(cfg, now, Ask(q, retryClock, id)), it, a);
    AskingFirstFindsTheSame(cfg, w, q, clock, id, it);
  }

  lemma SameReport(cfg: Config, w: World, w': World, it: P.Item, a: Answer)
    requires it.event.Transaction? && it.ref.Kafka? && !P.Blocked(EnvOf(w), it) && !P.Blocked(EnvOf(w'), it)
    requires Decided(w, it.event.tx, a) && Decided(w', it.event.tx, a)
    requires forall i :: 0 <= i < |a.reasons| ==> P.ReportedType(a.reasons[i].kind)
    ensures P.Candidates(cfg.pipeline, EnvOf(w), w.stores, [it]) ==
              P.Candidates(cfg.pipeline, EnvOf(w'), w'.stores, [it])
  {
    DecidedIsPrescored(cfg, w, it, a);
    DecidedIsPrescored(cfg, w', it, a);
  }

  lemma RetryDecides(cfg: Config, w: World, q: D.Request, clock: real, id: string)
    requires D.WellFormed(q) && D.Refusal(w.rules, q, id).None?
    requires Owns(w, D.Stamp(q, clock)) && q.eventId !in w.results
    ensures var a := D.AnswerTo(cfg.decision, DecisionStore(w), w.rules, q, clock, id);
            a.Answered? && Decided(Step(cfg, w, Ask(q, clock, id)), D.Stamp(q, clock), a.answer)
  {
  }

  lemma FactsAreThere(it: P.Item, a: Answer)
    ensures Facts(Reported(it, a)) == {} <==> a.reasons == []
  {
    var ds := Reported(it, a);
    if a.reasons != [] {
      assert ds[0] in ds;
      assert Fact(ds[0].id, ds[0].dtype, ds[0].userId, ds[0].evidence) in Facts(ds);
    }
  }

  // ---------------------------------------------------------------- refused events

  /** Quarantined transactions, blocked-IP logins, successful logins and rule-answered requests. */
  predicate Refused(cfg: Config, w: World, op: Op) {
    match op
    case Deliver(r) =>
      var v := P.Validate(cfg.pipeline, r);
      v.Some? && (match v.value.event
                  case Transaction(tx) => tx.userId in w.rules.quarantined
                  case Login(a) => a.success || SanitizeIp(a.ip) in w.rules.blockedIps)
    case Ask(q, _, _) => D.WellFormed(q) && RuleAnswers(w.rules, q)
    case AskCrashed(q, _) => D.WellFormed(q) && RuleAnswers(w.rules, q)
    case SetRules(_) => false
  }

  /** The run without the operations it refused. */
  function Erase(cfg: Config, w: World, ops: seq<Op>): seq<Op>
    decreases |ops|
  {
    if ops == [] then []
    else
      var rest := Erase(cfg, Step(cfg, w, ops[0]), ops[1..]);
      if Refused(cfg, w, ops[0]) then rest else [ops[0]] + rest
  }

  /** The outputs of the operations the run did not refuse. */
  function KeptOutputs(cfg: Config, w: World, ops: seq<Op>): seq<Output>
    decreases |ops|
  {
    if ops == [] then []
    else
      var rest := KeptOutputs(cfg, Step(cfg, w, ops[0]), ops[1..]);
      if Refused(cfg, w, ops[0]) then rest else [OutputOf(cfg, w, ops[0])] + rest
  }

  lemma RefusedChangesNothing(cfg: Config, w: World, op: Op)
    requires Refused(cfg, w, op)
    ensures Step(cfg, w, op) == w
    ensures op.Deliver? ==> OutputOf(cfg, w, op) == Detected([])
    ensures op.Ask? ==>
              var out := OutputOf(cfg, w, op);
              && out.Replied? && out.result.Answered? && !out.result.answer.cached
              && (out.result.answer.verdict == Challenge <==>
                    op.request.userId !in w.rules.quarantined
                    && !(op.request.ip != "" && SanitizeIp(op.request.ip) in w.rules.blockedIps))
              && out.result.answer.verdict != Allow
  {
    if op.Deliver? {
      var it := P.Validate(cfg.pipeline, op.record).value;
      ItemsOfOne(cfg, op.record);
      Laws.CandidatesOfOne(cfg.pipeline, EnvOf(w), w.stores, it);
      assert P.Candidates(cfg.pipeline, EnvOf(w), w.stores, [it]) == [];
      assert [it][..0] == [];
    }
  }

  /** Erasing every refused operation changes neither the final world nor any remaining output. */
  lemma {:induction false} RefusedLeaveNoTrace(cfg: Config, w: World, ops: seq<Op>)
    ensures Run(cfg, w, Erase(cfg, w, ops)) == Run(cfg, w, ops)
    ensures Outputs(cfg, w, Erase(cfg, w, ops)) == KeptOutputs(cfg, w, ops)
    decreases |ops|
  {
    if ops != [] {
      var w1 := Step(cfg, w, ops[0]);
      RefusedLeaveNoTrace(cfg, w1, ops[1..]);
      if Refused(cfg, w, ops[0]) {
        RefusedChangesNothing(cfg, w, ops[0]);
      } else {
        var kept := [ops[0]] + Erase(cfg, w1, ops[1..]);
        assert kept[1..] == Erase(cfg, w1, ops[1..]);
      }
    }
  }
}
