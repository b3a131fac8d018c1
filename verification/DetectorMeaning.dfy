/**
 * What a raised detection means in terms of the plain history of deliveries, starting
 * from empty stores and with nothing expired.
 */
module DetectorMeaning {
  import opened Wrappers
  import opened Events
  import opened SlidingWindow
  import opened Pipeline
  import Tx = TxCheck
  import Runs = TxRuns
  import AuthWindows = AuthCheck
  import Baseline = TrustedBaseline
  import Identity

  const EMPTY := Tx.Store(map[], map[], map[])

  predicate Raises(fs: seq<Finding>, dtype: DetectionType, scope: Scope) {
    exists i :: 0 <= i < |fs| && fs[i].dtype == dtype && fs[i].scope == scope
  }

  /** The script's answer to one more delivery after a history. */
  function ResultAfter(cfg: Config, ds: seq<Runs.Delivery>, tx: Events.Tx, ref: Ref): Tx.TxResult {
    Tx.CheckResult(cfg.check, Runs.RunAll(cfg.check, EMPTY, ds), tx, ref)
  }

  lemma InterpretationIsExact(cfg: Config, tx: Events.Tx, r: Tx.TxResult)
    ensures var fs := InterpretTx(cfg, tx, r);
            && (Raises(fs, ReplayAttack, NoScope) <==> r.status == Tx.Replay)
            && (Raises(fs, GeoVelocityAnomaly, NoScope) <==> r.geo.status == Tx.Anomaly)
            && (Raises(fs, FraudBurst, NoScope) <==> r.burstCount > cfg.burstThreshold)
            && |fs| <= 3
  {
    var fs := InterpretTx(cfg, tx, r);
    var geo := if r.geo.status == Tx.Anomaly then 1 else 0;
    var replay := if r.status == Tx.Replay then 1 else 0;
    if r.status == Tx.Replay { assert fs[0].dtype == ReplayAttack && fs[0].scope == NoScope; }
    if r.geo.status == Tx.Anomaly { assert fs[replay].dtype == GeoVelocityAnomaly && fs[replay].scope == NoScope; }
    if r.burstCount > cfg.burstThreshold { assert fs[replay + geo].dtype == FraudBurst
        && fs[replay + geo].scope == NoScope; }
  }

  /** A replay detection: the payload first came through another delivery, not this event's own decision. */
  lemma {:induction false} ReplayMeansSeenElsewhere(cfg: Config, ds: seq<Runs.Delivery>, tx: Events.Tx, ref: Ref)
    ensures var first := Runs.FirstIndex(ds, HashOf(tx));
            Raises(InterpretTx(cfg, tx, ResultAfter(cfg, ds, tx, ref)), ReplayAttack, NoScope) <==>
            first < |ds| && ds[first].ref != ref && ds[first].ref != Decision(tx.eventId)
  {
    InterpretationIsExact(cfg, tx, ResultAfter(cfg, ds, tx, ref));
    Runs.RunProjects(cfg.check, EMPTY, ds, tx.userId);
    Runs.FirstCarrierOwns(ds, HashOf(tx));
  }

  /** The owner a script call reports is the first delivery of the payload, this one if there was none before. */
  lemma {:induction false} OwnerIsFirstCarrier(cfg: Config, ds: seq<Runs.Delivery>, tx: Events.Tx, ref: Ref)
    ensures var first := Runs.FirstIndex(ds, HashOf(tx));
            ResultAfter(cfg, ds, tx, ref).stored == if first < |ds| then ds[first].ref else ref
  {
    Runs.RunProjects(cfg.check, EMPTY, ds, tx.userId);
    Runs.FirstCarrierOwns(ds, HashOf(tx));
  }

  /** A burst detection: more than the threshold of distinct recent events of the user. */
  lemma {:induction false} BurstMeansTooManyRecent(cfg: Config, ds: seq<Runs.Delivery>, tx: Events.Tx, ref: Ref)
    requires cfg.check.burstWindow > 0.0
    requires ResultAfter(cfg, ds, tx, ref).status != Tx.Prescored
    requires forall t :: t in Runs.ScoredFor(map[], ds, tx.userId) ==> t.timestamp <= tx.timestamp
    ensures var calls := Runs.BurstCalls(cfg.check, Runs.ScoredFor(map[], ds, tx.userId) + [tx]);
            Raises(InterpretTx(cfg, tx, ResultAfter(cfg, ds, tx, ref)), FraudBurst, NoScope) <==>
            |RecentIds(calls, tx.timestamp - cfg.check.burstWindow, tx.timestamp)| > cfg.burstThreshold
  {
    InterpretationIsExact(cfg, tx, ResultAfter(cfg, ds, tx, ref));
    Runs.BurstCountIsExact(cfg.check, EMPTY, ds, tx, ref);
  }

  /** A geo detection: out of reach of the last trusted position at the allowed speed. */
  lemma {:induction false} GeoMeansOutOfReach(cfg: Config, ds: seq<Runs.Delivery>, tx: Events.Tx, ref: Ref)
    requires ResultAfter(cfg, ds, tx, ref).status != Tx.Prescored
    ensures var trusted := Runs.SessionAll(cfg.check, None, Runs.ScoredFor(map[], ds, tx.userId));
            Raises(InterpretTx(cfg, tx, ResultAfter(cfg, ds, tx, ref)), GeoVelocityAnomaly, NoScope) <==>
            Tx.Beyond(cfg.check, trusted, tx)
  {
    var trusted := Runs.SessionAll(cfg.check, None, Runs.ScoredFor(map[], ds, tx.userId));
    InterpretationIsExact(cfg, tx, ResultAfter(cfg, ds, tx, ref));
    Baseline.BaselineAfterRun(cfg.check, EMPTY, ds, tx.userId);
    Tx.FlaggedIffBeyond(cfg.check, trusted, tx);
    assert Tx.Flagged(cfg.check, trusted, tx) <==> ResultAfter(cfg, ds, tx, ref).geo.status == Tx.Anomaly;
  }

  /** Credential stuffing: too many distinct recent failures of the user, or from the address. */
  lemma {:induction false} StuffingMeansTooManyFailures(cfg: Config, logins: seq<Auth>, a: Auth)
    requires cfg.authWindow > 0.0
    requires forall b :: b in logins ==> b.timestamp <= a.timestamp
    ensures var counts := AuthWindows.CheckCounts(AuthWindows.RunAll(map[], logins, cfg.authWindow), a, cfg.authWindow);
            var fs := InterpretLogin(cfg, a, counts);
            var lo, hi := a.timestamp - cfg.authWindow, a.timestamp;
            var all := logins + [a];
            && (Raises(fs, CredentialStuffing, UserScope) <==>
                  |RecentIds(AuthWindows.CallsFor(all, AuthWindows.ByUser(a.userId), cfg.authWindow), lo,
                      hi)| > cfg.userThreshold)
            && (Raises(fs, CredentialStuffing, IpScope) <==>
                  |RecentIds(AuthWindows.CallsFor(all, AuthWindows.ByIp(SanitizeIp(a.ip)), cfg.authWindow), lo,
                      hi)| > cfg.ipThreshold)
  {
    AuthWindows.CountsAreExact(logins, a, cfg.authWindow);
    var counts := AuthWindows.CheckCounts(AuthWindows.RunAll(map[], logins, cfg.authWindow), a, cfg.authWindow);
    LoginInterpretationIsExact(cfg, a, counts);
  }

  lemma LoginInterpretationIsExact(cfg: Config, a: Auth, c: AuthWindows.Counts)
    ensures var fs := InterpretLogin(cfg, a, c);
            && (Raises(fs, CredentialStuffing, UserScope) <==> c.user > cfg.userThreshold)
            && (Raises(fs, CredentialStuffing, IpScope) <==> c.ip > cfg.ipThreshold)
            && |fs| <= 2
  {
    var fs := InterpretLogin(cfg, a, c);
    var user := if c.user > cfg.userThreshold then 1 else 0;
    if user == 1 { assert fs[0].scope == UserScope && fs[0].dtype == CredentialStuffing; }
    if c.ip > cfg.ipThreshold { assert fs[user].scope == IpScope && fs[user].dtype == CredentialStuffing; }
  }

  // ---------------------------------------------------------------- identity

  /** No detector speaks twice about one delivery. */
  ghost predicate OnePerDetector(fs: seq<Finding>) {
    forall i, j :: 0 <= i < j < |fs| ==> fs[i].dtype != fs[j].dtype || fs[i].scope != fs[j].scope
  }

  /**
   * Detection ids identify: within and across deliveries, the texts hashed into the ids
   * of two detections agree exactly when they are the same detector's word about the same
   * delivery, so a redelivery reproduces the id and nothing else does.
   */
  lemma {:induction false} IdsIdentify(it: Item, fs: seq<Finding>, it': Item, gs: seq<Finding>, i: nat, j: nat)
    requires it.ref.Kafka? && it'.ref.Kafka? && OnePerDetector(fs) && i < |fs| && j < |gs|
    requires !fs[i].dtype.UnknownType? && !gs[j].dtype.UnknownType?
    ensures Identity.IdText(Identify(it, fs)[i].id) == Identity.IdText(Identify(it', gs)[j].id) <==>
            it.ref == it'.ref && fs[i].dtype == gs[j].dtype && fs[i].scope == gs[j].scope
    ensures it == it' && fs == gs ==>
              (Identity.IdText(Identify(it, fs)[i].id) == Identity.IdText(Identify(it', gs)[j].id) <==> i == j)
  {
    Identity.IdTextIdentifies(Identify(it, fs)[i].id, Identify(it', gs)[j].id);
  }

  /** The candidates a detector run makes of one delivery have distinct ids. */
  lemma {:induction false} CandidateIdsDiffer(cfg: Config, env: Env, it: Item, r: Checked, i: nat, j: nat)
    requires it.ref.Kafka? && !IsPrescored(r) && i < j < |CandidatesOf(cfg, env, it, r)|
    ensures var ds := CandidatesOf(cfg, env, it, r); Identity.IdText(ds[i].id) != Identity.IdText(ds[j].id)
  {
    var fs := FindingsOf(cfg, env, it, r);
    FindingsDiffer(cfg, env, it, r);
    IdsIdentify(it, fs, it, fs, i, j);
  }

  ghost predicate DifferentAndKnown(fs: seq<Finding>) {
    OnePerDetector(fs) && forall k :: 0 <= k < |fs| ==> !fs[k].dtype.UnknownType?
  }

  lemma FindingsDiffer(cfg: Config, env: Env, it: Item, r: Checked)
    requires !IsPrescored(r)
    ensures DifferentAndKnown(FindingsOf(cfg, env, it, r))
  {
    match (it.event, r)
    case (Transaction(tx), TxChecked(res)) => TxFindingsDiffer(cfg, tx, res);
    case (Login(a), LoginChecked(c)) => LoginFindingsDiffer(cfg, a, c);
    case _ =>
  }

  lemma TxFindingsDiffer(cfg: Config, tx: Events.Tx, r: Tx.TxResult)
    ensures DifferentAndKnown(InterpretTx(cfg, tx, r))
  {
  }

  lemma LoginFindingsDiffer(cfg: Config, a: Auth, c: AuthWindows.Counts)
    ensures DifferentAndKnown(InterpretLogin(cfg, a, c))
  {
  }
}
