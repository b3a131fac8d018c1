/**
 * What the trusted-location rules guarantee over whole runs, in terms of the distance
 * metric only.
 */
module TrustedBaseline {
  import opened Wrappers
  import opened Events
  import opened TxCheck
  import opened TxRuns

  /** The evidence attached to a flag is consistent: speed times scored gap is the distance. */
  lemma FlagEvidence(cfg: Config, b: Session, to: Position, now: real)
    requires now >= b.ts
    ensures var g := CheckGeo(cfg, Some(b), to, now);
            && g.from == Some(b.position) && g.elapsed == now - b.ts && g.distance == cfg.distance(b.position, to)
            && g.velocity * ScoredGap(g.elapsed) == g.distance * 3600.0
  {
    var g := CheckGeo(cfg, Some(b), to, now);
    var hours := Max(g.elapsed, MIN_TIME_SECONDS) / SECONDS_PER_HOUR;
    assert g.velocity == g.distance / hours;
    assert g.velocity * hours == g.distance;
    Rescale(g.velocity, Max(g.elapsed, MIN_TIME_SECONDS));
  }

  // ---------------------------------------------------------------- speed bound

  /** Does the transaction move an existing baseline? */
  ghost predicate Moves(cfg: Config, s: Option<Session>, tx: Tx) {
    CheckGeo(cfg, s, tx.position, tx.timestamp).status == Plausible
  }

  /** The trusted path: every baseline a run passes through, starting from b. */
  ghost function Path(cfg: Config, b: Session, txs: seq<Tx>): (p: seq<Session>)
    ensures |p| > 0
  {
    if txs == [] then [b]
    else
      var n := |txs| - 1;
      var before := Path(cfg, b, txs[..n]);
      if Moves(cfg, SessionAll(cfg, Some(b), txs[..n]), txs[n])
      then before + [Session(txs[n].position, txs[n].timestamp)] else before
  }

  ghost function PathLength(cfg: Config, p: seq<Session>): real {
    if |p| <= 1 then 0.0
    else PathLength(cfg, p[..|p| - 1]) + cfg.distance(p[|p| - 2].position, p[|p| - 1].position)
  }

  /** One trusted move: forward in time and within reach of the gap plus the minimum time. */
  ghost predicate Hop(cfg: Config, a: Session, b: Session) {
    && a.ts <= b.ts
    && cfg.distance(a.position, b.position) * SECONDS_PER_HOUR <= cfg.maxVelocityKmh * (b.ts - a.ts + MIN_TIME_SECONDS)
  }

  ghost predicate Hops(cfg: Config, p: seq<Session>) {
    forall i :: 0 < i < |p| ==> Hop(cfg, p[i - 1], p[i])
  }

  lemma StepIsHop(cfg: Config, b: Session, tx: Tx)
    requires ValidConfig(cfg) && Moves(cfg, Some(b), tx)
    ensures Hop(cfg, b, Session(tx.position, tx.timestamp))
  {
    AnomalyIsTooFar(cfg, b, tx.position, tx.timestamp);
    Monotone(cfg.maxVelocityKmh, Max(tx.timestamp - b.ts, MIN_TIME_SECONDS), tx.timestamp - b.ts + MIN_TIME_SECONDS);
  }

  lemma Monotone(v: real, a: real, b: real)
    requires v >= 0.0 && a <= b
    ensures v * a <= v * b
  {
  }

  lemma {:induction false} PathOfRun(cfg: Config, b: Session, txs: seq<Tx>)
    requires ValidConfig(cfg)
    ensures var p := Path(cfg, b, txs);
            p[0] == b && SessionAll(cfg, Some(b), txs) == Some(p[|p| - 1]) && Hops(cfg, p)
    decreases |txs|
  {
    if txs != [] {
      var k := |txs| - 1;
      PathOfRun(cfg, b, txs[..k]);
      var before := Path(cfg, b, txs[..k]);
      var last := before[|before| - 1];
      if Moves(cfg, Some(last), txs[k]) {
        StepIsHop(cfg, last, txs[k]);
      }
    }
  }

  lemma SumBounds(v: real, a: real, b: real)
    ensures v * a + v * b == v * (a + b)
  {
  }

  /** n moves spanning T seconds cover at most maxVelocity * (T + n * min_time). */
  ghost predicate WithinSpeed(cfg: Config, p: seq<Session>)
    requires |p| > 0
  {
    PathLength(cfg, p) * 3600.0 <= cfg.maxVelocityKmh * (p[|p| - 1].ts - p[0].ts + (|p| - 1) as real * 1.0)
  }

  lemma {:induction false} HopsAreBounded(cfg: Config, p: seq<Session>)
    requires |p| > 0 && Hops(cfg, p)
    ensures p[0].ts <= p[|p| - 1].ts
    ensures WithinSpeed(cfg, p)
    decreases |p|
  {
    var n := |p| - 1;
    if n > 0 {
      HopsAreBounded(cfg, p[..n]);
      assert Hop(cfg, p[n - 1], p[n]);
      SumBounds(cfg.maxVelocityKmh, p[n - 1].ts - p[0].ts + (n - 1) as real * MIN_TIME_SECONDS,
                p[n].ts - p[n - 1].ts + MIN_TIME_SECONDS);
    }
  }

  lemma {:induction false} DisplacementWithinPath(cfg: Config, p: seq<Session>)
    requires ValidConfig(cfg) && |p| > 0
    ensures cfg.distance(p[0].position, p[|p| - 1].position) <= PathLength(cfg, p)
    decreases |p|
  {
    var n := |p| - 1;
    if n > 0 {
      DisplacementWithinPath(cfg, p[..n]);
      assert Triangle(cfg.distance, p[0].position, p[n - 1].position, p[n].position);
    }
  }

  lemma {:induction false} BaselineAfterRun(cfg: Config, s: Store, ds: seq<Delivery>, userId: string)
    ensures Lookup(RunAll(cfg, s, ds).session, userId) ==
            SessionAll(cfg, Lookup(s.session, userId), ScoredFor(s.replay, ds, userId))
  {
    RunProjects(cfg, s, ds, userId);
    AdvanceSplits(cfg, View(s, userId), ScoredFor(s.replay, ds, userId));
  }

  /**
   * Over any run of deliveries for any users: a user's baseline never moves back in
   * time, and n moves spanning T seconds cover at most maxVelocity * (T + n * min_time).
   */
  lemma {:induction false} TrustedSpeedBound(cfg: Config, s: Store, ds: seq<Delivery>, userId: string)
    requires ValidConfig(cfg) && userId in s.session
    ensures var b := s.session[userId];
            var p := Path(cfg, b, ScoredFor(s.replay, ds, userId));
            var last := p[|p| - 1];
            && Lookup(RunAll(cfg, s, ds).session, userId) == Some(last)
            && b.ts <= last.ts
            && cfg.distance(b.position, last.position) <= PathLength(cfg, p)
            && p[0] == b && WithinSpeed(cfg, p)
  {
    var b, txs := s.session[userId], ScoredFor(s.replay, ds, userId);
    BaselineAfterRun(cfg, s, ds, userId);
    PathOfRun(cfg, b, txs);
    HopsAreBounded(cfg, Path(cfg, b, txs));
    DisplacementWithinPath(cfg, Path(cfg, b, txs));
  }

  // ---------------------------------------------------------------- flags are not excused

  /** Every move of the baseline spans at least min_time and ends at least min_time before e. */
  ghost predicate SpacedMoves(cfg: Config, b: Session, txs: seq<Tx>, e: Tx) {
    forall k {:trigger txs[k]} :: 0 <= k < |txs| ==>
      var before := SessionAll(cfg, Some(b), txs[..k]);
      before.Some? && Moves(cfg, before, txs[k]) ==>
        && txs[k].timestamp - before.value.ts >= MIN_TIME_SECONDS
        && e.timestamp - txs[k].timestamp >= MIN_TIME_SECONDS
  }

  /** Out of reach even at full speed since the baseline. */
  ghost predicate OutOfReach(cfg: Config, b: Session, e: Tx) {
    && e.timestamp - b.ts >= MIN_TIME_SECONDS
    && cfg.distance(b.position, e.position) * SECONDS_PER_HOUR > cfg.maxVelocityKmh * (e.timestamp - b.ts)
  }

  lemma {:induction false} StaysOutOfReach(cfg: Config, b: Session, txs: seq<Tx>, e: Tx)
    requires ValidConfig(cfg) && OutOfReach(cfg, b, e) && SpacedMoves(cfg, b, txs, e)
    ensures var last := SessionAll(cfg, Some(b), txs);
            last.Some? && OutOfReach(cfg, last.value, e)
    decreases |txs|
  {
    if txs != [] {
      var k := |txs| - 1;
      forall i | 0 <= i < k ensures txs[..k][..i] == txs[..i] && txs[..k][i] == txs[i] {}
      assert SpacedMoves(cfg, b, txs[..k], e);
      StaysOutOfReach(cfg, b, txs[..k], e);
      var before := SessionAll(cfg, Some(b), txs[..k]).value;
      if Moves(cfg, Some(before), txs[k]) {
        OneMoveStaysOutOfReach(cfg, before, txs[k], e);
      }
    }
  }

  lemma OneMoveStaysOutOfReach(cfg: Config, b: Session, tx: Tx, e: Tx)
    requires ValidConfig(cfg) && OutOfReach(cfg, b, e) && Moves(cfg, Some(b), tx)
    requires tx.timestamp - b.ts >= MIN_TIME_SECONDS && e.timestamp - tx.timestamp >= MIN_TIME_SECONDS
    ensures OutOfReach(cfg, Session(tx.position, tx.timestamp), e)
  {
    AnomalyIsTooFar(cfg, b, tx.position, tx.timestamp);
    SumBounds(cfg.maxVelocityKmh, tx.timestamp - b.ts, e.timestamp - tx.timestamp);
    assert Triangle(cfg.distance, b.position, tx.position, e.position);
  }

  lemma FlaggedIffOutOfReach(cfg: Config, b: Session, e: Tx)
    requires e.timestamp - b.ts >= MIN_TIME_SECONDS
    ensures Flagged(cfg, Some(b), e) <==> OutOfReach(cfg, b, e)
  {
    AnomalyIsTooFar(cfg, b, e.position, e.timestamp);
  }

  /**
   * An event flagged against one baseline is flagged against every later baseline that
   * any run reaches through suitably spaced clean events.
   */
  lemma {:induction false} FlagIsNotExcused(cfg: Config, s: Store, ds: seq<Delivery>, e: Tx)
    requires ValidConfig(cfg) && e.userId in s.session
    requires Flagged(cfg, Lookup(s.session, e.userId), e)
    requires e.timestamp - s.session[e.userId].ts >= MIN_TIME_SECONDS
    requires SpacedMoves(cfg, s.session[e.userId], ScoredFor(s.replay, ds, e.userId), e)
    ensures Flagged(cfg, Lookup(RunAll(cfg, s, ds).session, e.userId), e)
  {
    var b, txs := s.session[e.userId], ScoredFor(s.replay, ds, e.userId);
    BaselineAfterRun(cfg, s, ds, e.userId);
    FlaggedIffOutOfReach(cfg, b, e);
    StaysOutOfReach(cfg, b, txs, e);
    FlaggedIffOutOfReach(cfg, SessionAll(cfg, Some(b), txs).value, e);
  }

  /** Not older than the path, and farther than full speed and one minimum time per baseline on it can cover. */
  ghost predicate BeyondPath(cfg: Config, p: seq<Session>, e: Tx)
    requires |p| > 0
  {
    && p[|p| - 1].ts <= e.timestamp
    && cfg.distance(p[0].position, e.position) * SECONDS_PER_HOUR >
       cfg.maxVelocityKmh * (e.timestamp - p[0].ts + |p| as real * MIN_TIME_SECONDS)
  }

  /**
   * Without any spacing: what lies farther than full speed plus one minimum time per
   * baseline on the way can cover is flagged against the last of them.
   */
  lemma {:induction false} FlagOutlastsPath(cfg: Config, s: Store, ds: seq<Delivery>, e: Tx)
    requires ValidConfig(cfg) && e.userId in s.session
    requires BeyondPath(cfg, Path(cfg, s.session[e.userId], ScoredFor(s.replay, ds, e.userId)), e)
    ensures Flagged(cfg, Lookup(RunAll(cfg, s, ds).session, e.userId), e)
  {
    var b, txs := s.session[e.userId], ScoredFor(s.replay, ds, e.userId);
    BaselineAfterRun(cfg, s, ds, e.userId);
    PathOfRun(cfg, b, txs);
    var p := Path(cfg, b, txs);
    assert SessionAll(cfg, Some(b), txs) == Some(p[|p| - 1]) && Hops(cfg, p);
    EndOfPathIsTooFar(cfg, p, e);
  }

  lemma EndOfPathIsTooFar(cfg: Config, p: seq<Session>, e: Tx)
    requires ValidConfig(cfg) && |p| > 0 && Hops(cfg, p) && BeyondPath(cfg, p, e)
    ensures Flagged(cfg, Some(p[|p| - 1]), e)
  {
    var b, last := p[0], p[|p| - 1];
    var covered, gap := last.ts - b.ts + (|p| - 1) as real * MIN_TIME_SECONDS, e.timestamp - last.ts + MIN_TIME_SECONDS;
    HopsAreBounded(cfg, p);
    DisplacementWithinPath(cfg, p);
    assert Triangle(cfg.distance, b.position, last.position, e.position);
    assert covered + gap == e.timestamp - b.ts + |p| as real * MIN_TIME_SECONDS;
    LeavesTooFar(cfg.maxVelocityKmh, PathLength(cfg, p), cfg.distance(b.position, e.position),
                 cfg.distance(last.position, e.position), covered, gap, Max(e.timestamp - last.ts, MIN_TIME_SECONDS));
    FlaggedIffBeyond(cfg, Some(last), e);
  }

  /** What the path cannot have covered is left for the last leg. */
  lemma LeavesTooFar(v: real, path: real, direct: real, leg: real, covered: real, gap: real, scored: real)
    requires v >= 0.0 && path * SECONDS_PER_HOUR <= v * covered && direct <= path + leg && scored <= gap
    requires direct * SECONDS_PER_HOUR > v * (covered + gap)
    ensures leg * SECONDS_PER_HOUR > v * scored
  {
    SumBounds(v, covered, gap);
    Monotone(v, scored, gap);
  }

  // ---------------------------------------------------------------- where the hypotheses are needed

  function Abs(x: real): real { if x < 0.0 then -x else x }

  function LineDistance(p: Position, q: Position): real { Abs(p.lat - q.lat) }

  /** Points on a line, one kilometre per second allowed. */
  const LINE := Config(LineDistance, SECONDS_PER_HOUR, 60.0)

  function At(id: string, km: real, time: real): Tx {
    Tx(id, "u", 0, "m", time, id, Position(km, 0.0))
  }

  lemma OnLine(b: Session, tx: Tx)
    ensures CheckGeo(LINE, Some(b), tx.position, tx.timestamp).status ==
            (if tx.timestamp < b.ts then OutOfOrder
             else if Abs(b.position.lat - tx.position.lat) > Max(tx.timestamp - b.ts, MIN_TIME_SECONDS) then Anomaly
             else Plausible)
  {
    if tx.timestamp >= b.ts {
      AnomalyIsTooFar(LINE, b, tx.position, tx.timestamp);
    }
  }

  /** A clean hop shorter than min_time can bring a flagged event into reach. */
  lemma ShortHopExcusesFlag()
    ensures var b, hop, e := Session(Position(0.0, 0.0), 0.0), At("hop", 1.0, 0.5), At("e", 1.5, 1.0);
            && ValidConfig(LINE)
            && CheckGeo(LINE, Some(b), e.position, e.timestamp).status == Anomaly
            && Moves(LINE, Some(b), hop)
            && CheckGeo(LINE, SessionAll(LINE, Some(b), [hop]), e.position, e.timestamp).status == Plausible
  {
    var b, hop, e := Session(Position(0.0, 0.0), 0.0), At("hop", 1.0, 0.5), At("e", 1.5, 1.0);
    OnLine(b, e);
    OnLine(b, hop);
    assert [hop][..0] == [];
    assert SessionAll(LINE, Some(b), [hop]) == Some(Session(hop.position, hop.timestamp));
    OnLine(Session(hop.position, hop.timestamp), e);
  }

  /**
   * With timestamps out of order a second run of the same batch moves the baseline: the
   * first event is too far at first, and close enough once the second has been accepted.
   */
  lemma UnorderedRerunMovesBaseline()
    ensures var s := Some(Session(Position(0.0, 0.0), 0.0));
            var txs := [At("far", 10.5, 10.0), At("near", 9.5, 9.5)];
            var once := SessionAll(LINE, s, txs);
            ValidConfig(LINE) && once == Some(Session(Position(9.5, 0.0), 9.5)) && SessionAll(LINE, once, txs) != once
  {
    var b0 := Session(Position(0.0, 0.0), 0.0);
    var far, near := At("far", 10.5, 10.0), At("near", 9.5, 9.5);
    var b1, b2 := Session(near.position, 9.5), Session(far.position, 10.0);
    assert [far, near][..1] == [far] && [far][..0] == [];
    OnLine(b0, far);
    OnLine(b0, near);
    assert SessionAll(LINE, Some(b0), [far]) == Some(b0);
    assert SessionAll(LINE, Some(b0), [far, near]) == Some(b1);
    OnLine(b1, far);
    assert SessionAll(LINE, Some(b1), [far]) == Some(b2);
    OnLine(b2, near);
    assert SessionAll(LINE, Some(b1), [far, near]) == Some(b2);
  }
}
