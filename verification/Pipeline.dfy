/**
 * detection_engine/pipeline.py: a poll batch goes through enforcement, script checks,
 * interpretation, pre-scored look-ups and cooldown, one phase at a time.
 */
module Pipeline {
  import opened Wrappers
  import opened Events
  import Tx = TxCheck
  import AuthWindows = AuthCheck
  import Cooldown

  datatype Config = Config(check: Tx.Config, burstThreshold: int, authWindow: real,
                           userThreshold: int, ipThreshold: int, cooldownSeconds: int, authTopic: string)

  /** A decoded record; each field is what the corresponding schema makes of the value. */
  datatype Record = Record(topic: string, partition: nat, offset: nat, asTx: Option<Events.Tx>, asAuth: Option<Auth>)

  datatype Event = Transaction(tx: Events.Tx) | Login(auth: Auth)

  datatype Item = Item(event: Event, ref: Ref)

  /** Rules and stored decisions, which the pipeline only reads. */
  datatype Env = Env(quarantined: set<string>, blockedIps: set<string>, decisions: map<string, Answer>)

  datatype Stores = Stores(checks: Tx.Store, logins: AuthWindows.Windows, cooldown: Cooldown.Store)

  // ---------------------------------------------------------------- records to items

  function RecordRef(r: Record): Ref { Kafka(r.topic, r.partition, r.offset) }

  /** The schema is chosen by topic; None is a validation failure. */
  function Validate(cfg: Config, r: Record): Option<Item> {
    if r.topic == cfg.authTopic then
      if r.asAuth.Some? then Some(Item(Login(r.asAuth.value), RecordRef(r))) else None
    else
      if r.asTx.Some? then Some(Item(Transaction(r.asTx.value), RecordRef(r))) else None
  }

  function ItemsOf(cfg: Config, rs: seq<Record>): seq<Item> {
    if rs == [] then []
    else
      var before := ItemsOf(cfg, rs[..|rs| - 1]);
      var v := Validate(cfg, rs[|rs| - 1]);
      if v.Some? then before + [v.value] else before
  }

  function FailuresOf(cfg: Config, rs: seq<Record>): set<nat> {
    set i: nat | i < |rs| && Validate(cfg, rs[i]).None?
  }

  // ---------------------------------------------------------------- phase A: enforcement

  predicate Blocked(env: Env, it: Item) {
    match it.event
    case Transaction(tx) => tx.userId in env.quarantined
    case Login(a) => SanitizeIp(a.ip) in env.blockedIps
  }

  /** Blocked events and successful logins are not analysed. */
  predicate Active(env: Env, it: Item) {
    !Blocked(env, it) && (it.event.Transaction? || !it.event.auth.success)
  }

  function BlockedOf(env: Env, its: seq<Item>): seq<Item> {
    if its == [] then []
    else
      var before := BlockedOf(env, its[..|its| - 1]);
      if Blocked(env, its[|its| - 1]) then before + [its[|its| - 1]] else before
  }

  // ---------------------------------------------------------------- phase B: script checks

  datatype Checked = NotChecked | TxChecked(tx: Tx.TxResult) | LoginChecked(counts: AuthWindows.Counts)

  function CheckItem(cfg: Config, env: Env, st: Stores, it: Item): Stores {
    if !Active(env, it) then st
    else match it.event
         case Transaction(tx) => st.(checks := Tx.Check(cfg.check, st.checks, tx, it.ref))
         case Login(a) => st.(logins := AuthWindows.Check(st.logins, a, cfg.authWindow))
  }

  function CheckedItem(cfg: Config, env: Env, st: Stores, it: Item): Checked {
    if !Active(env, it) then NotChecked
    else match it.event
         case Transaction(tx) => TxChecked(Tx.CheckResult(cfg.check, st.checks, tx, it.ref))
         case Login(a) => LoginChecked(AuthWindows.CheckCounts(st.logins, a, cfg.authWindow))
  }

  function CheckAll(cfg: Config, env: Env, st: Stores, its: seq<Item>): Stores {
    if its == [] then st else CheckItem(cfg, env, CheckAll(cfg, env, st, its[..|its| - 1]), its[|its| - 1])
  }

  /** What the scripts returned, item by item. */
  function CheckedAll(cfg: Config, env: Env, st: Stores, its: seq<Item>): (rs: seq<Checked>)
    ensures |rs| == |its|
  {
    if its == [] then []
    else
      var n := |its| - 1;
      CheckedAll(cfg, env, st, its[..n]) + [CheckedItem(cfg, env, CheckAll(cfg, env, st, its[..n]), its[n])]
  }

  // ---------------------------------------------------------------- interpretation and phase C

  /** A candidate before its id is assigned. */
  datatype Finding = Finding(dtype: DetectionType, scope: Scope, ip: Option<string>, evidence: Evidence, source: Source)

  function TravelEvidence(tx: Events.Tx, g: Tx.Geo): Evidence {
    Travel(g.distance, g.elapsed, g.velocity, g.from, tx.position)
  }

  function InterpretTx(cfg: Config, tx: Events.Tx, r: Tx.TxResult): seq<Finding> {
    (if r.status == Tx.Replay then [Finding(ReplayAttack, NoScope, None, FirstSeen(r.stored), AsyncDetector)] else [])
    + (if r.geo.status == Tx.Anomaly then [Finding(GeoVelocityAnomaly, NoScope, None, TravelEvidence(tx, r.geo),
        AsyncDetector)] else [])
    + (if r.burstCount > cfg.burstThreshold then [Finding(FraudBurst, NoScope, None, InWindow(r.burstCount),
        AsyncDetector)] else [])
  }

  function InterpretLogin(cfg: Config, a: Auth, c: AuthWindows.Counts): seq<Finding> {
    (if c.user > cfg.userThreshold then [Finding(CredentialStuffing, UserScope, Some(a.ip), InWindow(c.user),
        AsyncDetector)] else [])
    + (if c.ip > cfg.ipThreshold then [Finding(CredentialStuffing, IpScope, Some(a.ip), InWindow(c.ip),
        AsyncDetector)] else [])
  }

  predicate ReportedType(k: ReasonType) {
    k in {Detector(ReplayAttack), Detector(GeoVelocityAnomaly), Detector(FraudBurst)}
  }

  /** Stored reasons of the three transaction detectors, in order. */
  function FromReasons(verdict: Verdict, reasons: seq<Reason>): seq<Finding> {
    if reasons == [] then []
    else
      var r := reasons[|reasons| - 1];
      var before := FromReasons(verdict, reasons[..|reasons| - 1]);
      if ReportedType(r.kind)
      then before + [Finding(r.kind.dtype, NoScope, None, r.evidence, DecisionService(verdict))] else before
  }

  function FromDecision(stored: Option<Answer>): seq<Finding> {
    if stored.Some? then FromReasons(stored.value.verdict, stored.value.reasons) else []
  }

  predicate IsPrescored(r: Checked) {
    r.TxChecked? && r.tx.status == Tx.Prescored
  }

  function FindingsOf(cfg: Config, env: Env, it: Item, r: Checked): seq<Finding> {
    match (it.event, r)
    case (Transaction(tx), TxChecked(res)) =>
      if res.status == Tx.Prescored then FromDecision(Lookup(env.decisions, tx.eventId)) else InterpretTx(cfg, tx, res)
    case (Login(a), LoginChecked(c)) => InterpretLogin(cfg, a, c)
    case _ => []
  }

  // ---------------------------------------------------------------- stable ids

  function EventIdOf(e: Event): string {
    match e case Transaction(tx) => tx.eventId case Login(a) => a.eventId
  }

  function UserOf(e: Event): string {
    match e case Transaction(tx) => tx.userId case Login(a) => a.userId
  }

  function WithStableId(it: Item, f: Finding): Detection {
    Detection(DetectionId(it.ref, f.dtype, f.scope), f.dtype, UserOf(it.event), EventIdOf(it.event),
              f.ip, f.scope, f.evidence, f.source)
  }

  function Identify(it: Item, fs: seq<Finding>): seq<Detection> {
    seq(|fs|, i requires 0 <= i < |fs| => WithStableId(it, fs[i]))
  }

  function CandidatesOf(cfg: Config, env: Env, it: Item, r: Checked): seq<Detection> {
    Identify(it, FindingsOf(cfg, env, it, r))
  }

  /** The candidate list of every item. */
  function CandidateLists(cfg: Config, env: Env, its: seq<Item>, rs: seq<Checked>): (ls: seq<seq<Detection>>)
    requires |its| == |rs|
    ensures |ls| == |its|
  {
    seq(|its|, i requires 0 <= i < |its| => CandidatesOf(cfg, env, its[i], rs[i]))
  }

  function Flatten<T>(ls: seq<seq<T>>): seq<T> {
    if ls == [] then [] else Flatten(ls[..|ls| - 1]) + ls[|ls| - 1]
  }

  // ---------------------------------------------------------------- the whole batch

  datatype Outcome = Outcome(stores: Stores, emitted: seq<Detection>, claimed: seq<Cooldown.Key>,
                             failures: set<nat>, refused: seq<Item>)

  /** All candidates of a batch, in item order. */
  function Candidates(cfg: Config, env: Env, st: Stores, its: seq<Item>): seq<Detection> {
    Flatten(CandidateLists(cfg, env, its, CheckedAll(cfg, env, st, its)))
  }

  /** One pass of the phases over a list of records. */
  function HandleBatch(cfg: Config, env: Env, st: Stores, rs: seq<Record>): Outcome {
    var its := ItemsOf(cfg, rs);
    var ds := Candidates(cfg, env, st, its);
    var sec := cfg.cooldownSeconds;
    Outcome(CheckAll(cfg, env, st, its).(cooldown := Cooldown.AfterFilter(st.cooldown, ds, sec)),
            Cooldown.Filtered(st.cooldown, ds, sec),
            Cooldown.Claimed(st.cooldown, ds, sec),
            FailuresOf(cfg, rs),
            BlockedOf(env, its))
  }
}
