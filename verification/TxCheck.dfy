/**
 * lua/tx_check.lua: one atomic step over the replay key, the burst window and the
 * trusted-location session of a user.
 */
module TxCheck {
  import opened Wrappers
  import opened Events
  import opened SlidingWindow

  const MIN_TIME_SECONDS := 1.0
  const SECONDS_PER_HOUR := 3600.0

  datatype Session = Session(position: Position, ts: real)

  datatype Config = Config(distance: (Position, Position) -> real, maxVelocityKmh: real, burstWindow: real)

  ghost predicate Symmetric(d: (Position, Position) -> real, p: Position, q: Position) {
    d(p, q) == d(q, p) >= 0.0
  }

  ghost predicate Triangle(d: (Position, Position) -> real, p: Position, q: Position, r: Position) {
    d(p, r) <= d(p, q) + d(q, r)
  }

  /** Great-circle distance as an abstract metric. */
  ghost predicate Metric(d: (Position, Position) -> real) {
    && (forall p :: d(p, p) == 0.0)
    && (forall p, q :: Symmetric(d, p, q))
    && (forall p, q, r :: Triangle(d, p, q, r))
  }

  ghost predicate ValidConfig(cfg: Config) {
    Metric(cfg.distance) && cfg.maxVelocityKmh >= 0.0
  }

  datatype ReplayStatus = First | Redelivery | Prescored | Replay

  datatype GeoStatus = Baseline | Plausible | Anomaly | OutOfOrder | Skipped

  datatype Geo = Geo(status: GeoStatus, distance: real, elapsed: real, velocity: real, from: Option<Position>)

  datatype TxResult = TxResult(status: ReplayStatus, stored: Ref, burstCount: nat, geo: Geo)

  /** The two keys of one user. An absent sorted set and an absent hash are None. */
  datatype UserState = UserState(window: Option<Window>, session: Option<Session>)

  datatype Store = Store(replay: map<ReplayHash, Ref>, burst: map<string, Window>, session: map<string, Session>)

  // ---------------------------------------------------------------- geo velocity

  function Max(a: real, b: real): real { if a >= b then a else b }

  function CheckGeo(cfg: Config, session: Option<Session>, to: Position, now: real): Geo {
    match session
    case None => Geo(Baseline, 0.0, 0.0, 0.0, None)
    case Some(s) =>
      var elapsed := now - s.ts;
      if elapsed < 0.0 then Geo(OutOfOrder, 0.0, elapsed, 0.0, Some(s.position))
      else
        var dist := cfg.distance(s.position, to);
        var velocity := dist / (Max(elapsed, MIN_TIME_SECONDS) / SECONDS_PER_HOUR);
        Geo(if velocity > cfg.maxVelocityKmh then Anomaly else Plausible, dist, elapsed, velocity, Some(s.position))
  }

  /** Only clean transactions become the trusted baseline. */
  function NextSession(cfg: Config, session: Option<Session>, to: Position, now: real): Option<Session> {
    if CheckGeo(cfg, session, to, now).status in {Baseline, Plausible} then Some(Session(to, now)) else session
  }

  /** The speed test without division: within reach over the scored gap. */
  lemma AnomalyIsTooFar(cfg: Config, b: Session, to: Position, now: real)
    requires now >= b.ts
    ensures CheckGeo(cfg, Some(b), to, now).status == Anomaly <==>
            cfg.distance(b.position, to) * SECONDS_PER_HOUR > cfg.maxVelocityKmh * Max(now - b.ts, MIN_TIME_SECONDS)
    ensures CheckGeo(cfg, Some(b), to, now).status in {Anomaly, Plausible}
  {
    var dist, gap := cfg.distance(b.position, to), Max(now - b.ts, MIN_TIME_SECONDS);
    DivideOut(dist, gap / SECONDS_PER_HOUR, cfg.maxVelocityKmh);
    Rescale(cfg.maxVelocityKmh, gap);
  }

  ghost predicate Flagged(cfg: Config, s: Option<Session>, e: Tx) {
    CheckGeo(cfg, s, e.position, e.timestamp).status == Anomaly
  }

  /** The seconds a gap is scored as. */
  ghost function ScoredGap(gap: real): real { if gap >= 1.0 then gap else 1.0 }

  /**
   * Not older than the baseline, and farther than the allowed speed, in kilometres per
   * hour, covers in the scored gap, in seconds.
   */
  ghost predicate Beyond(cfg: Config, s: Option<Session>, e: Tx) {
    && s.Some? && s.value.ts <= e.timestamp
    && cfg.distance(s.value.position, e.position) * 3600.0 > cfg.maxVelocityKmh * ScoredGap(e.timestamp - s.value.ts)
  }

  /** The units of the speed test, and of the speed it reports. */
  lemma SpeedIsKmPerHour(cfg: Config, b: Session, to: Position, now: real)
    requires now >= b.ts
    ensures var dist, gap := cfg.distance(b.position, to), now - b.ts;
            var g := CheckGeo(cfg, Some(b), to, now);
            && (gap == 3600.0 ==> (g.status == Anomaly <==> dist > cfg.maxVelocityKmh) && g.velocity == dist)
            && (gap >= 1.0 ==> (g.status == Anomaly <==> dist * 3600.0 > cfg.maxVelocityKmh * gap))
            && (gap < 1.0 ==>
                  && (g.status == Anomaly <==> dist * 3600.0 > cfg.maxVelocityKmh)
                  && g.velocity == dist * 3600.0)
  {
    AnomalyIsTooFar(cfg, b, to, now);
  }

  lemma FlaggedIffBeyond(cfg: Config, s: Option<Session>, e: Tx)
    ensures Flagged(cfg, s, e) <==> Beyond(cfg, s, e)
  {
    if s.Some? && s.value.ts <= e.timestamp {
      AnomalyIsTooFar(cfg, s.value, e.position, e.timestamp);
    }
  }

  lemma DivideOut(d: real, hours: real, v: real)
    requires hours > 0.0
    ensures d / hours > v <==> d > v * hours
  {
    var q := d / hours;
    assert q * hours == d;
    if q > v {
      assert (q - v) * hours > 0.0;
    } else {
      assert (v - q) * hours >= 0.0;
    }
  }

  lemma Rescale(v: real, gap: real)
    ensures v * (gap / SECONDS_PER_HOUR) * SECONDS_PER_HOUR == v * gap
  {
  }

  // ---------------------------------------------------------------- one user

  function BurstCall(cfg: Config, tx: Tx): Call {
    Call(tx.eventId, tx.timestamp, tx.timestamp - cfg.burstWindow)
  }

  function WindowOf(w: Option<Window>): Window {
    if w.Some? then w.value else map[]
  }

  function NextWindow(cfg: Config, w: Option<Window>, tx: Tx): Window {
    Touch(WindowOf(w), BurstCall(cfg, tx))
  }

  function Advance(cfg: Config, u: UserState, tx: Tx): UserState {
    UserState(Some(NextWindow(cfg, u.window, tx)), NextSession(cfg, u.session, tx.position, tx.timestamp))
  }

  // ---------------------------------------------------------------- the script

  function View(s: Store, userId: string): UserState {
    UserState(Lookup(s.burst, userId), Lookup(s.session, userId))
  }

  function StatusOf(replay: map<ReplayHash, Ref>, tx: Tx, ref: Ref): ReplayStatus {
    var h := HashOf(tx);
    if h !in replay then First
    else if replay[h] == ref then Redelivery
    else if replay[h] == Decision(tx.eventId) then Prescored
    else Replay
  }

  /** SET NX: the first delivery to carry a payload owns its replay key. */
  function Claim(replay: map<ReplayHash, Ref>, tx: Tx, ref: Ref): map<ReplayHash, Ref> {
    if HashOf(tx) in replay then replay else replay[HashOf(tx) := ref]
  }

  function PutUser(s: Store, userId: string, u: UserState): Store
    requires u.window.Some? && (u.session.None? ==> userId !in s.session)
  {
    s.(burst := s.burst[userId := u.window.value],
       session := if u.session.Some? then s.session[userId := u.session.value] else s.session)
  }

  /** The store after the script. */
  function Check(cfg: Config, s: Store, tx: Tx, ref: Ref): Store {
    var s1 := s.(replay := Claim(s.replay, tx, ref));
    if StatusOf(s.replay, tx, ref) == Prescored then s1
    else PutUser(s1, tx.userId, Advance(cfg, View(s1, tx.userId), tx))
  }

  /** What the script returns. */
  function CheckResult(cfg: Config, s: Store, tx: Tx, ref: Ref): TxResult {
    var status := StatusOf(s.replay, tx, ref);
    var stored := Claim(s.replay, tx, ref)[HashOf(tx)];
    if status == Prescored then TxResult(status, stored, 0, Geo(Skipped, 0.0, 0.0, 0.0, None))
    else
      var u := View(s, tx.userId);
      TxResult(status, stored, |NextWindow(cfg, u.window, tx)|, CheckGeo(cfg, u.session, tx.position, tx.timestamp))
  }

  /** The Redis keys the script works on, updated in place command by command. */
  class Redis {
    var replay: map<ReplayHash, Ref>
    var burst: map<string, Window>
    var session: map<string, Session>

    ghost function Contents(): Store
      reads this
    {
      Store(replay, burst, session)
    }

    constructor (s: Store)
      ensures Contents() == s
    {
      replay, burst, session := s.replay, s.burst, s.session;
    }

    method Run(cfg: Config, tx: Tx, ref: Ref) returns (r: TxResult)
      modifies this
      ensures Contents() == Check(cfg, old(Contents()), tx, ref)
      ensures r == CheckResult(cfg, old(Contents()), tx, ref)
    {
      var status, stored := ClaimReplay(tx, ref);
      if status == Prescored {
        return TxResult(status, stored, 0, Geo(Skipped, 0.0, 0.0, 0.0, None));
      }
      var count := TouchBurst(cfg, tx);
      var geo := CheckBaseline(cfg, tx);
      r := TxResult(status, stored, count, geo);
    }

    /** Section 1 of the script. */
    method ClaimReplay(tx: Tx, ref: Ref) returns (status: ReplayStatus, stored: Ref)
      modifies this`replay
      ensures replay == Claim(old(replay), tx, ref)
      ensures status == StatusOf(old(replay), tx, ref) && stored == replay[HashOf(tx)]
      ensures forall h :: h in old(replay) ==> h in replay && replay[h] == old(replay)[h]
      ensures forall h :: h in replay && h !in old(replay) ==> h == HashOf(tx) && replay[h] == ref
      ensures status == First <==> HashOf(tx) !in old(replay)
      ensures status in {First, Redelivery} <==> stored == ref
      ensures status == Prescored <==> stored == Decision(tx.eventId) != ref
    {
      var h := HashOf(tx);
      status, stored := First, ref;
      if h !in replay {
        replay := replay[h := ref];
      } else {
        stored := replay[h];
        if stored == ref {
          status := Redelivery;
        } else if stored == Decision(tx.eventId) {
          status := Prescored;
        } else {
          status := Replay;
        }
      }
    }

    /** Section 2: trim, add, count. */
    method TouchBurst(cfg: Config, tx: Tx) returns (count: nat)
      modifies this`burst
      ensures var w := NextWindow(cfg, Lookup(old(burst), tx.userId), tx);
              burst == old(burst)[tx.userId := w] && count == |w|
      ensures tx.userId in burst && count == |burst[tx.userId]|
                && Lookup(burst[tx.userId], tx.eventId) == Some(tx.timestamp)
      ensures forall x :: x != tx.eventId ==>
                var before := if tx.userId in old(burst) then Lookup(old(burst)[tx.userId], x) else None;
                Lookup(burst[tx.userId], x) == if before.Some?
                    && before.value > tx.timestamp - cfg.burstWindow then before else None
      ensures forall u :: u != tx.userId ==> Lookup(burst, u) == Lookup(old(burst), u)
    {
      var window := if tx.userId in burst then burst[tx.userId] else map[];
      window := Trim(window, tx.timestamp - cfg.burstWindow);
      window := window[tx.eventId := tx.timestamp];
      burst := burst[tx.userId := window];
      count := |window|;
    }

    /** Section 3: velocity against the trusted baseline, which only a clean event moves. */
    method CheckBaseline(cfg: Config, tx: Tx) returns (geo: Geo)
      modifies this`session
      ensures geo == CheckGeo(cfg, Lookup(old(session), tx.userId), tx.position, tx.timestamp)
      ensures Lookup(session, tx.userId) == NextSession(cfg, Lookup(old(session), tx.userId), tx.position, tx.timestamp)
      ensures geo.status == Anomaly <==> Beyond(cfg, Lookup(old(session), tx.userId), tx)
      ensures geo.status == OutOfOrder <==> tx.userId in old(session) && tx.timestamp < old(session)[tx.userId].ts
      ensures session ==
              if Beyond(cfg, Lookup(old(session), tx.userId), tx) || geo.status == OutOfOrder then old(session)
              else old(session)[tx.userId := Session(tx.position, tx.timestamp)]
    {
      var now := tx.timestamp;
      geo := Geo(Baseline, 0.0, 0.0, 0.0, None);
      if tx.userId in session {
        var s := session[tx.userId];
        var elapsed := now - s.ts;
        if elapsed < 0.0 {
          geo := Geo(OutOfOrder, 0.0, elapsed, 0.0, Some(s.position));
        } else {
          var dist := cfg.distance(s.position, tx.position);
          var velocity := dist / (Max(elapsed, MIN_TIME_SECONDS) / SECONDS_PER_HOUR);
          geo := Geo(if velocity > cfg.maxVelocityKmh then Anomaly
              else Plausible, dist, elapsed, velocity, Some(s.position));
        }
      }
      if geo.status == Baseline || geo.status == Plausible {
        session := session[tx.userId := Session(tx.position, now)];
      }
      FlaggedIffBeyond(cfg, Lookup(old(session), tx.userId), tx);
    }
  }

  // ---------------------------------------------------------------- single-call facts

  /** The script touches one user, and that user only when the event was not pre-scored. */
  lemma CheckFrame(cfg: Config, s: Store, tx: Tx, ref: Ref, userId: string)
    ensures View(Check(cfg, s, tx, ref), userId) ==
            if userId == tx.userId && StatusOf(s.replay, tx, ref) != Prescored
            then Advance(cfg, View(s, userId), tx) else View(s, userId)
  {
  }

  /** Two stores with the same replay keys and the same view of every user are the same store. */
  lemma ViewsDetermineStore(a: Store, b: Store)
    requires a.replay == b.replay
    requires forall u :: View(a, u) == View(b, u)
    ensures a == b
  {
    forall u ensures u in a.burst <==> u in b.burst { assert View(a, u) == View(b, u); }
    forall u ensures u in a.session <==> u in b.session { assert View(a, u) == View(b, u); }
    assert a.burst == b.burst by {
      forall u | u in a.burst ensures a.burst[u] == b.burst[u] { assert View(a, u) == View(b, u); }
    }
    assert a.session == b.session by {
      forall u | u in a.session ensures a.session[u] == b.session[u] { assert View(a, u) == View(b, u); }
    }
  }

  /**
   * Scoring the same delivery again, with no other call for that user in between,
   * repeats the burst count and the anomaly answer and never turns into a replay.
   */
  lemma RepeatCheckAgrees(cfg: Config, s: Store, later: Store, tx: Tx, ref: Ref)
    requires ValidConfig(cfg)
    requires View(later, tx.userId) == View(Check(cfg, s, tx, ref), tx.userId)
    requires Lookup(later.replay, HashOf(tx)) == Lookup(Check(cfg, s, tx, ref).replay, HashOf(tx))
    ensures var r, again := CheckResult(cfg, s, tx, ref), CheckResult(cfg, later, tx, ref);
            && again.burstCount == r.burstCount
            && (again.geo.status == Anomaly <==> r.geo.status == Anomaly)
            && (r.geo.status == Anomaly ==> again.geo == r.geo)
            && (again.status == Replay <==> r.status == Replay)
            && (again.status == Prescored <==> r.status == Prescored)
            && again.stored == r.stored
            && again.status != First
    ensures View(Check(cfg, later, tx, ref), tx.userId) == View(later, tx.userId)
  {
    var u := View(s, tx.userId);
    if StatusOf(s.replay, tx, ref) != Prescored {
      RepeatTouch(WindowOf(u.window), BurstCall(cfg, tx));
      RepeatGeo(cfg, u.session, tx.position, tx.timestamp);
      CheckFrame(cfg, s, tx, ref, tx.userId);
      CheckFrame(cfg, later, tx, ref, tx.userId);
    }
  }

  lemma RepeatTouch(w: Window, c: Call)
    ensures Touch(Touch(w, c), c) == Touch(w, c)
  {
  }

  lemma RepeatGeo(cfg: Config, session: Option<Session>, to: Position, now: real)
    requires ValidConfig(cfg)
    ensures var next := NextSession(cfg, session, to, now);
            && NextSession(cfg, next, to, now) == next
            && (CheckGeo(cfg, next, to, now).status == Anomaly <==> CheckGeo(cfg, session, to, now).status == Anomaly)
            && (CheckGeo(cfg, session, to, now).status == Anomaly ==>
                CheckGeo(cfg, next, to, now) == CheckGeo(cfg, session, to, now))
  {
  }
}
