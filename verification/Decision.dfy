/** decision-service engine.go: synchronous scoring over the same script and store. */
module Decision {
  import opened Wrappers
  import opened Events
  import Tx = TxCheck

  const SCORE_REPLAY := 100
  const SCORE_BURST := 80
  const SCORE_GEO := 70
  const SCORE_QUARANTINE := 100
  const SCORE_IP_BLOCKED := 100

  datatype Config = Config(check: Tx.Config, burstThreshold: int, denyScore: int, challengeScore: int)

  datatype Rules = Rules(quarantined: set<string>, stepUps: set<string>, blockedIps: set<string>)

  /** A request; a missing timestamp is filled in from the clock. */
  datatype Request = Request(eventId: string, userId: string, amountCents: int, merchant: string,
                             timestamp: Option<real>, location: string, position: Position, ip: string)

  datatype Store = Store(checks: Tx.Store, results: map<string, Answer>)

  datatype Result = Answered(answer: Answer) | Rejected

  function Stamp(q: Request, clock: real): Events.Tx {
    Events.Tx(q.eventId, q.userId, q.amountCents, q.merchant,
              if q.timestamp.Some? then q.timestamp.value else clock, q.location, q.position)
  }

  // ---------------------------------------------------------------- verdict

  function MaxScore(reasons: seq<Reason>): int {
    if reasons == [] then 0
    else
      var m, s := MaxScore(reasons[..|reasons| - 1]), reasons[|reasons| - 1].score;
      if s > m then s else m
  }

  /** Ten points for each signal beyond the strongest; 100 is the ceiling. */
  function Score(reasons: seq<Reason>): int {
    if reasons == [] then 0
    else
      var s := MaxScore(reasons) + 10 * (|reasons| - 1);
      if s < 100 then s else 100
  }

  function VerdictOf(cfg: Config, reasons: seq<Reason>): Verdict {
    if reasons == [] then Allow
    else if Score(reasons) >= cfg.denyScore then Deny
    else if Score(reasons) >= cfg.challengeScore then Challenge
    else Allow
  }

  // ---------------------------------------------------------------- Decide, as values

  function Single(id: string, kind: ReasonType, score: int, verdict: Verdict): Answer {
    Answer(id, verdict, score, [Reason(kind, score, NoDetails)], false)
  }

  /** An active rule answers before any state is touched. */
  function Refusal(rules: Rules, q: Request, id: string): Option<Answer> {
    if q.userId in rules.quarantined then Some(Single(id, UserQuarantined, SCORE_QUARANTINE, Deny))
    else if q.ip != "" && SanitizeIp(q.ip) in rules.blockedIps then Some(Single(id, IpBlocked, SCORE_IP_BLOCKED, Deny))
    else if q.userId in rules.stepUps then Some(Single(id, StepUpPending, SCORE_GEO, Challenge))
    else None
  }

  function Reasons(cfg: Config, tx: Events.Tx, r: Tx.TxResult): seq<Reason> {
    (if r.status == Tx.Replay then [Reason(Detector(ReplayAttack), SCORE_REPLAY, FirstSeen(r.stored))] else [])
    + (if r.burstCount > cfg.burstThreshold then [Reason(Detector(FraudBurst), SCORE_BURST, InWindow(r.burstCount))]
        else [])
    + (if r.geo.status == Tx.Anomaly
       then [Reason(Detector(GeoVelocityAnomaly), SCORE_GEO,
           Travel(r.geo.distance, r.geo.elapsed, r.geo.velocity, r.geo.from, tx.position))]
       else [])
  }

  function Scored(cfg: Config, tx: Events.Tx, r: Tx.TxResult, id: string): Answer {
    var reasons := Reasons(cfg, tx, r);
    Answer(id, VerdictOf(cfg, reasons), Score(reasons), reasons, false)
  }

  /** Does the call return a stored answer instead of scoring? */
  predicate Cached(s: Store, tx: Events.Tx) {
    Tx.StatusOf(s.checks.replay, tx, Events.Decision(tx.eventId)) == Tx.Redelivery && tx.eventId in s.results
  }

  function Script(cfg: Config, s: Store, tx: Events.Tx): Store {
    s.(checks := Tx.Check(cfg.check, s.checks, tx, Events.Decision(tx.eventId)))
  }

  predicate WellFormed(q: Request) { q.eventId != "" && q.userId != "" }

  function AnswerTo(cfg: Config, s: Store, rules: Rules, q: Request, clock: real, id: string): Result {
    if !WellFormed(q) then Rejected
    else
      var refusal := Refusal(rules, q, id);
      var tx := Stamp(q, clock);
      if refusal.Some? then Answered(refusal.value)
      else if Cached(s, tx) then Answered(s.results[tx.eventId].(cached := true))
      else Answered(Scored(cfg, tx, Tx.CheckResult(cfg.check, s.checks, tx, Events.Decision(tx.eventId)), id))
  }

  function After(cfg: Config, s: Store, rules: Rules, q: Request, clock: real, id: string): Store {
    if !WellFormed(q) || Refusal(rules, q, id).Some? then s
    else
      var tx := Stamp(q, clock);
      var s1 := Script(cfg, s, tx);
      if Cached(s, tx) then s1
      else s1.(results := s1.results[tx.eventId :=
          Scored(cfg, tx, Tx.CheckResult(cfg.check, s.checks, tx, Events.Decision(tx.eventId)), id)])
  }

  // ---------------------------------------------------------------- Decide, as it runs

  class Engine {
    const cfg: Config
    const redis: Tx.Redis
    var results: map<string, Answer>

    constructor (cfg: Config, redis: Tx.Redis)
      ensures this.cfg == cfg && this.redis == redis && results == map[]
    {
      this.cfg, this.redis, results := cfg, redis, map[];
    }

    ghost function Contents(): Store
      reads this, redis
    {
      Store(redis.Contents(), results)
    }

    method Decide(rules: Rules, q: Request, clock: real, id: string) returns (result: Result)
      modifies this, redis
      ensures result == AnswerTo(cfg, old(Contents()), rules, q, clock, id)
      ensures Contents() == After(cfg, old(Contents()), rules, q, clock, id)
    {
      if q.eventId == "" || q.userId == "" {
        return Rejected;
      }
      var tx := Stamp(q, clock);
      // 1. Enforcement state
      if q.userId in rules.quarantined {
        return Answered(Single(id, UserQuarantined, SCORE_QUARANTINE, Deny));
      }
      if q.ip != "" && SanitizeIp(q.ip) in rules.blockedIps {
        return Answered(Single(id, IpBlocked, SCORE_IP_BLOCKED, Deny));
      }
      if q.userId in rules.stepUps {
        return Answered(Single(id, StepUpPending, SCORE_GEO, Challenge));
      }
      // 2. The shared script
      var r := redis.Run(cfg.check, tx, Events.Decision(tx.eventId));
      if r.status == Tx.Redelivery && tx.eventId in results {
        return Answered(results[tx.eventId].(cached := true));
      }
      // 3. Interpret
      var reasons := Interpret(tx, r);
      var score, verdict := Combine(reasons);
      var answer := Answer(id, verdict, score, reasons, false);
      // 4. Persist
      results := results[tx.eventId := answer];
      result := Answered(answer);
    }

    method Interpret(tx: Events.Tx, r: Tx.TxResult) returns (reasons: seq<Reason>)
      ensures reasons == Reasons(cfg, tx, r)
      ensures forall a :: a in reasons <==>
                || (r.status == Tx.Replay && a == Reason(Detector(ReplayAttack), SCORE_REPLAY, FirstSeen(r.stored)))
                || (r.burstCount > cfg.burstThreshold
                    && a == Reason(Detector(FraudBurst), SCORE_BURST, InWindow(r.burstCount)))
                || (r.geo.status == Tx.Anomaly &&
                    a == Reason(Detector(GeoVelocityAnomaly), SCORE_GEO,
                        Travel(r.geo.distance, r.geo.elapsed, r.geo.velocity, r.geo.from, tx.position)))
      ensures forall i, j :: 0 <= i < j < |reasons| ==>
                reasons[i].kind != reasons[j].kind && reasons[i].score >= reasons[j].score
    {
      reasons := [];
      if r.status == Tx.Replay {
        reasons := reasons + [Reason(Detector(ReplayAttack), SCORE_REPLAY, FirstSeen(r.stored))];
      }
      if r.burstCount > cfg.burstThreshold {
        reasons := reasons + [Reason(Detector(FraudBurst), SCORE_BURST, InWindow(r.burstCount))];
      }
      if r.geo.status == Tx.Anomaly {
        reasons := reasons + [Reason(Detector(GeoVelocityAnomaly), SCORE_GEO,
            Travel(r.geo.distance, r.geo.elapsed, r.geo.velocity, r.geo.from, tx.position))];
      }
    }

    method Combine(reasons: seq<Reason>) returns (score: int, verdict: Verdict)
      ensures score == Score(reasons) && verdict == VerdictOf(cfg, reasons)
    {
      if |reasons| == 0 {
        return 0, Allow;
      }
      var maxScore := 0;
      for i := 0 to |reasons|
        invariant maxScore == MaxScore(reasons[..i])
      {
        assert reasons[..i + 1][..i] == reasons[..i];
        if reasons[i].score > maxScore {
          maxScore := reasons[i].score;
        }
      }
      assert reasons[..|reasons|] == reasons;
      score := maxScore + 10 * (|reasons| - 1);
      if score > 100 {
        score := 100;
      }
      if score >= cfg.denyScore {
        verdict := Deny;
      } else if score >= cfg.challengeScore {
        verdict := Challenge;
      } else {
        verdict := Allow;
      }
    }
  }

  // ---------------------------------------------------------------- policy

  lemma {:induction false} MaxScoreBounds(reasons: seq<Reason>)
    ensures forall r :: r in reasons ==> r.score <= MaxScore(reasons)
    ensures MaxScore(reasons) >= 0
    ensures MaxScore(reasons) > 0 ==> exists r :: r in reasons && r.score == MaxScore(reasons)
    decreases |reasons|
  {
    if reasons != [] {
      var n := |reasons| - 1;
      MaxScoreBounds(reasons[..n]);
      forall r | r in reasons ensures r.score <= MaxScore(reasons) {
        assert r in reasons[..n] || r == reasons[n];
      }
      if MaxScore(reasons) > 0 {
        if reasons[n].score == MaxScore(reasons) {
          assert reasons[n] in reasons;
        } else {
          var r :| r in reasons[..n] && r.score == MaxScore(reasons);
          assert r in reasons;
        }
      }
    }
  }

  /** The containment policy: a replay or a burst denies, a lone geo anomaly challenges, nothing allows. */
  function PolicyVerdict(cfg: Config, r: Tx.TxResult): Verdict {
    if r.status == Tx.Replay || r.burstCount > cfg.burstThreshold then Deny
    else if r.geo.status == Tx.Anomaly then Challenge
    else Allow
  }

  /** The thresholds lie on the right side of a lone geo anomaly and a lone burst; 80 and 40 do. */
  predicate Calibrated(cfg: Config) {
    SCORE_GEO < cfg.denyScore <= SCORE_BURST && cfg.challengeScore <= SCORE_GEO
  }

  lemma {:induction false} HardSignalsDeny(cfg: Config, tx: Events.Tx, r: Tx.TxResult)
    requires Calibrated(cfg)
    ensures VerdictOf(cfg, Reasons(cfg, tx, r)) == PolicyVerdict(cfg, r)
  {
    var reasons := Reasons(cfg, tx, r);
    MaxScoreBounds(reasons);
    if r.status == Tx.Replay {
      assert Reason(Detector(ReplayAttack), SCORE_REPLAY, FirstSeen(r.stored)) in reasons;
    } else if r.burstCount > cfg.burstThreshold {
      assert Reason(Detector(FraudBurst), SCORE_BURST, InWindow(r.burstCount)) in reasons;
    } else if r.geo.status == Tx.Anomaly {
      assert |reasons| == 1 && reasons[0].score == SCORE_GEO;
      assert reasons[0] in reasons;
    }
  }

  ghost predicate FollowsPolicy(cfg: Config) {
    forall tx, r :: VerdictOf(cfg, Reasons(cfg, tx, r)) == PolicyVerdict(cfg, r)
  }

  lemma LoneReason(r: Reason)
    requires r.score > 0
    ensures Score([r]) == if r.score < 100 then r.score else 100
  {
    assert [r][..|[r]| - 1] == [] && MaxScore([r]) == r.score;
  }

  /** The scores implement the policy on every script result exactly when the thresholds are calibrated. */
  lemma PolicyIffCalibrated(cfg: Config)
    requires cfg.burstThreshold >= 0
    ensures FollowsPolicy(cfg) <==> Calibrated(cfg)
  {
    if Calibrated(cfg) {
      forall tx, r ensures VerdictOf(cfg, Reasons(cfg, tx, r)) == PolicyVerdict(cfg, r) {
        HardSignalsDeny(cfg, tx, r);
      }
    }
    if FollowsPolicy(cfg) {
      var p := Position(0.0, 0.0);
      var tx := Events.Tx("e", "u", 0, "m", 0.0, "l", p);
      var own := Events.Decision("e");
      var geo := Tx.TxResult(Tx.First, own, 0, Tx.Geo(Tx.Anomaly, 0.0, 0.0, 0.0, None));
      var burst := Tx.TxResult(Tx.First, own, cfg.burstThreshold + 1, Tx.Geo(Tx.Baseline, 0.0, 0.0, 0.0, None));
      LoneReason(Reason(Detector(GeoVelocityAnomaly), SCORE_GEO, Travel(0.0, 0.0, 0.0, None, p)));
      LoneReason(Reason(Detector(FraudBurst), SCORE_BURST, InWindow(burst.burstCount)));
      assert VerdictOf(cfg, Reasons(cfg, tx, geo)) == Challenge;
      assert VerdictOf(cfg, Reasons(cfg, tx, burst)) == Deny;
    }
  }

  /** With reasons to go by, the score is the strongest of them plus ten for each further one, up to 100. */
  lemma {:induction false} ScoreIs(reasons: seq<Reason>, strongest: Reason)
    requires strongest in reasons && strongest.score >= 0 && forall r :: r in reasons ==> r.score <= strongest.score
    ensures var sum := strongest.score + 10 * (|reasons| - 1);
            Score(reasons) == if sum < 100 then sum else 100
  {
    MaxScoreBounds(reasons);
  }

  /** The verdict of a score at any thresholds. */
  function Judge(cfg: Config, score: int): Verdict {
    if score >= cfg.denyScore then Deny else if score >= cfg.challengeScore then Challenge else Allow
  }

  /**
   * What a request that is scored gets, signal by signal: 0 for none, 70 for a geo anomaly,
   * 80 for a burst, 90 for both, 100 with a replay, and the verdict of that score.
   */
  lemma {:induction false} ScoredTable(cfg: Config, s: Store, rules: Rules, q: Request, clock: real, id: string)
    requires WellFormed(q) && Refusal(rules, q, id).None? && !Cached(s, Stamp(q, clock))
    ensures var r := Tx.CheckResult(cfg.check, s.checks, Stamp(q, clock), Events.Decision(q.eventId));
            var result := AnswerTo(cfg, s, rules, q, clock, id);
            result.Answered? && FitsSignals(cfg, r, id, result.answer)
  {
    var tx := Stamp(q, clock);
    var r := Tx.CheckResult(cfg.check, s.checks, tx, Events.Decision(q.eventId));
    assert AnswerTo(cfg, s, rules, q, clock, id) == Answered(Scored(cfg, tx, r, id));
    ScoredFits(cfg, tx, r, id);
  }

  ghost predicate FitsSignals(cfg: Config, r: Tx.TxResult, id: string, a: Answer) {
    var replay, burst, geo := r.status == Tx.Replay, r.burstCount > cfg.burstThreshold, r.geo.status == Tx.Anomaly;
    var score := if replay then 100 else if burst && geo then 90 else if burst then 80 else if geo then 70 else 0;
    && a.decisionId == id && !a.cached && a.score == score
    && a.verdict == if replay || burst || geo then Judge(cfg, score) else Allow
  }

  lemma ScoredFits(cfg: Config, tx: Events.Tx, r: Tx.TxResult, id: string)
    ensures FitsSignals(cfg, r, id, Scored(cfg, tx, r, id))
  {
    ScoreOfSignals(cfg, tx, r);
  }

  lemma {:induction false} ScoreOfSignals(cfg: Config, tx: Events.Tx, r: Tx.TxResult)
    ensures var replay, burst, geo := r.status == Tx.Replay, r.burstCount > cfg.burstThreshold,
              r.geo.status == Tx.Anomaly;
            && Score(Reasons(cfg, tx, r)) ==
               (if replay then 100 else if burst && geo then 90 else if burst then 80 else if geo then 70 else 0)
            && (Reasons(cfg, tx, r) == [] <==> !replay && !burst && !geo)
  {
    var reasons := Reasons(cfg, tx, r);
    if reasons != [] {
      assert reasons[0] in reasons;
      forall x | x in reasons ensures x.score <= reasons[0].score {
        var i :| 0 <= i < |reasons| && reasons[i] == x;
      }
      ScoreIs(reasons, reasons[0]);
    }
  }

  /** What a rule answers, in its order of precedence, and what is rejected. */
  lemma RefusalTable(cfg: Config, s: Store, rules: Rules, q: Request, clock: real, id: string)
    ensures var blocked := q.ip != "" && SanitizeIp(q.ip) in rules.blockedIps;
            var result := AnswerTo(cfg, s, rules, q, clock, id);
            && (result.Rejected? <==> q.eventId == "" || q.userId == "")
            && (result.Answered? && q.userId in rules.quarantined ==>
                  result.answer == Answer(id, Deny, 100, [Reason(UserQuarantined, 100, NoDetails)], false))
            && (result.Answered? && q.userId !in rules.quarantined && blocked ==>
                  result.answer == Answer(id, Deny, 100, [Reason(IpBlocked, 100, NoDetails)], false))
            && (result.Answered? && q.userId !in rules.quarantined && !blocked && q.userId in rules.stepUps ==>
                  result.answer == Answer(id, Challenge, 70, [Reason(StepUpPending, 70, NoDetails)], false))
  {
  }

  /** The transaction that is scored is the one requested, at its own time or else the clock's. */
  lemma StampKeeps(q: Request, clock: real)
    ensures var tx := Stamp(q, clock);
            && tx.eventId == q.eventId && tx.userId == q.userId && tx.amountCents == q.amountCents
            && tx.merchant == q.merchant && tx.location == q.location && tx.position == q.position
            && (q.timestamp.Some? ==> tx.timestamp == q.timestamp.value)
            && (q.timestamp.None? ==> tx.timestamp == clock)
  {
  }

  /** Another signal never lowers the score or softens the verdict. */
  lemma MoreSignalsNeverSoften(cfg: Config, reasons: seq<Reason>, r: Reason)
    requires r.score >= 0 && cfg.challengeScore <= cfg.denyScore
    ensures Score(reasons) <= Score(reasons + [r]) <= 100
    ensures VerdictOf(cfg, reasons) == Deny ==> VerdictOf(cfg, reasons + [r]) == Deny
    ensures VerdictOf(cfg, reasons) == Challenge ==> VerdictOf(cfg, reasons + [r]) != Allow
    ensures Score(reasons + [r]) == 100 || Score(reasons + [r]) >= r.score
  {
    assert (reasons + [r])[..|reasons|] == reasons;
    MaxScoreBounds(reasons);
    MaxScoreBounds(reasons + [r]);
  }
}
