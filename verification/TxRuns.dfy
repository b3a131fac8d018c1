/**
 * Whole runs of the transaction script: any sequence of deliveries, any mix of users.
 * Nothing expires in these runs.
 */
module TxRuns {
  import opened Wrappers
  import opened Events
  import opened SlidingWindow
  import opened TxCheck

  datatype Delivery = Delivery(tx: Tx, ref: Ref)

  function RunAll(cfg: Config, s: Store, ds: seq<Delivery>): Store {
    if ds == [] then s
    else var d := ds[|ds| - 1]; Check(cfg, RunAll(cfg, s, ds[..|ds| - 1]), d.tx, d.ref)
  }

  function ClaimAll(replay: map<ReplayHash, Ref>, ds: seq<Delivery>): map<ReplayHash, Ref> {
    if ds == [] then replay
    else var d := ds[|ds| - 1]; Claim(ClaimAll(replay, ds[..|ds| - 1]), d.tx, d.ref)
  }

  lemma {:induction false} RunAllConcat(cfg: Config, s: Store, xs: seq<Delivery>, ys: seq<Delivery>)
    ensures RunAll(cfg, s, xs + ys) == RunAll(cfg, RunAll(cfg, s, xs), ys)
    decreases |ys|
  {
    if ys == [] {
      assert xs + ys == xs;
    } else {
      assert (xs + ys)[..|xs + ys| - 1] == xs + ys[..|ys| - 1];
      RunAllConcat(cfg, s, xs, ys[..|ys| - 1]);
    }
  }

  // ---------------------------------------------------------------- one user at a time

  function AdvanceAll(cfg: Config, u: UserState, txs: seq<Tx>): UserState {
    if txs == [] then u else Advance(cfg, AdvanceAll(cfg, u, txs[..|txs| - 1]), txs[|txs| - 1])
  }

  function SessionAll(cfg: Config, s: Option<Session>, txs: seq<Tx>): Option<Session> {
    if txs == [] then s
    else
      var tx := txs[|txs| - 1];
      NextSession(cfg, SessionAll(cfg, s, txs[..|txs| - 1]), tx.position, tx.timestamp)
  }

  function BurstCalls(cfg: Config, txs: seq<Tx>): seq<Call> {
    seq(|txs|, i requires 0 <= i < |txs| => BurstCall(cfg, txs[i]))
  }

  /** The transactions of one user that a run actually scores (pre-scored ones are skipped). */
  function ScoredFor(replay: map<ReplayHash, Ref>, ds: seq<Delivery>, userId: string): seq<Tx> {
    if ds == [] then []
    else
      var n := |ds| - 1;
      var before := ScoredFor(replay, ds[..n], userId);
      if ds[n].tx.userId == userId && StatusOf(ClaimAll(replay, ds[..n]), ds[n].tx, ds[n].ref) != Prescored
      then before + [ds[n].tx] else before
  }

  /** A run over all users is, for each user, a run over that user's scored transactions alone. */
  lemma {:induction false} RunProjects(cfg: Config, s: Store, ds: seq<Delivery>, userId: string)
    ensures RunAll(cfg, s, ds).replay == ClaimAll(s.replay, ds)
    ensures View(RunAll(cfg, s, ds), userId) == AdvanceAll(cfg, View(s, userId), ScoredFor(s.replay, ds, userId))
    decreases |ds|
  {
    if ds != [] {
      var n := |ds| - 1;
      RunProjects(cfg, s, ds[..n], userId);
      CheckFrame(cfg, RunAll(cfg, s, ds[..n]), ds[n].tx, ds[n].ref, userId);
      var before := ScoredFor(s.replay, ds[..n], userId);
      assert (before + [ds[n].tx])[..|before|] == before;
    }
  }

  /** Within one user the window and the baseline evolve independently. */
  lemma {:induction false} AdvanceSplits(cfg: Config, u: UserState, txs: seq<Tx>)
    ensures var v := AdvanceAll(cfg, u, txs);
            && v.session == SessionAll(cfg, u.session, txs)
            && v.window == if txs == [] then u.window else Some(TouchAll(WindowOf(u.window), BurstCalls(cfg, txs)))
    decreases |txs|
  {
    if txs != [] {
      var n := |txs| - 1;
      AdvanceSplits(cfg, u, txs[..n]);
      assert BurstCalls(cfg, txs)[..n] == BurstCalls(cfg, txs[..n]);
    }
  }

  lemma {:induction false} WindowAfterRun(cfg: Config, s: Store, ds: seq<Delivery>, userId: string)
    requires userId !in s.burst
    ensures WindowOf(Lookup(RunAll(cfg, s, ds).burst, userId)) ==
            TouchAll(map[], BurstCalls(cfg, ScoredFor(s.replay, ds, userId)))
  {
    RunProjects(cfg, s, ds, userId);
    AdvanceSplits(cfg, View(s, userId), ScoredFor(s.replay, ds, userId));
  }

  lemma {:induction false} CountAfter(cfg: Config, txs: seq<Tx>, tx: Tx)
    requires cfg.burstWindow > 0.0
    requires forall t :: t in txs ==> t.timestamp <= tx.timestamp
    ensures |Touch(TouchAll(map[], BurstCalls(cfg, txs)), BurstCall(cfg, tx))| ==
            |RecentIds(BurstCalls(cfg, txs + [tx]), tx.timestamp - cfg.burstWindow, tx.timestamp)|
  {
    var cs := BurstCalls(cfg, txs + [tx]);
    assert cs[..|cs| - 1] == BurstCalls(cfg, txs);
    forall i | 0 <= i < |cs| ensures cs[i].now <= tx.timestamp {
      assert (txs + [tx])[i] in txs + [tx];
    }
    CountIsExactAtFrontier(cs, cfg.burstWindow);
  }

  /** The count any scored call returns is the number of distinct recent events of that user. */
  lemma {:induction false} BurstCountIsExact(cfg: Config, s: Store, ds: seq<Delivery>, tx: Tx, ref: Ref)
    requires cfg.burstWindow > 0.0
    requires tx.userId !in s.burst
    requires StatusOf(RunAll(cfg, s, ds).replay, tx, ref) != Prescored
    requires forall t :: t in ScoredFor(s.replay, ds, tx.userId) ==> t.timestamp <= tx.timestamp
    ensures var cs := BurstCalls(cfg, ScoredFor(s.replay, ds, tx.userId) + [tx]);
            CheckResult(cfg, RunAll(cfg, s, ds), tx, ref).burstCount ==
            |RecentIds(cs, tx.timestamp - cfg.burstWindow, tx.timestamp)|
  {
    WindowAfterRun(cfg, s, ds, tx.userId);
    CountAfter(cfg, ScoredFor(s.replay, ds, tx.userId), tx);
  }

  // ---------------------------------------------------------------- running a batch again

  /** Earlier, or at the same time in the same place, as a replay and its original are. */
  ghost predicate NotAfter(a: Tx, b: Tx) {
    a.timestamp < b.timestamp || (a.timestamp == b.timestamp && a.position == b.position)
  }

  ghost predicate InOrder(txs: seq<Tx>) {
    forall i, j :: 0 <= i < j < |txs| ==> NotAfter(txs[i], txs[j])
  }

  ghost predicate InOrderPerUser(ds: seq<Delivery>) {
    forall i, j :: 0 <= i < j < |ds| && ds[i].tx.userId == ds[j].tx.userId ==> NotAfter(ds[i].tx, ds[j].tx)
  }

  /** No transaction already in the run moves the final baseline when it comes again. */
  lemma {:induction false} BaselineSettled(cfg: Config, s: Option<Session>, txs: seq<Tx>, j: nat)
    requires ValidConfig(cfg) && InOrder(txs) && j < |txs|
    ensures var b := SessionAll(cfg, s, txs);
            NextSession(cfg, b, txs[j].position, txs[j].timestamp) == b
    decreases |txs|
  {
    var n := |txs| - 1;
    if j < n {
      BaselineSettled(cfg, s, txs[..n], j);
    } else {
      RepeatGeo(cfg, SessionAll(cfg, s, txs[..n]), txs[n].position, txs[n].timestamp);
    }
  }

  lemma {:induction false} RerunBaseline(cfg: Config, s: Option<Session>, txs: seq<Tx>, k: nat)
    requires ValidConfig(cfg) && InOrder(txs) && k <= |txs|
    ensures SessionAll(cfg, SessionAll(cfg, s, txs[..k]), txs) == SessionAll(cfg, s, txs)
  {
    SessionPrefixStays(cfg, s, txs[..k], k);
    assert txs[..k][..k] == txs[..k];
    SessionContinues(cfg, s, txs, k, |txs|);
  }

  lemma {:induction false} SessionPrefixStays(cfg: Config, s: Option<Session>, txs: seq<Tx>, i: nat)
    requires ValidConfig(cfg) && InOrder(txs) && i <= |txs|
    ensures SessionAll(cfg, SessionAll(cfg, s, txs), txs[..i]) == SessionAll(cfg, s, txs)
    decreases i
  {
    if i > 0 {
      SessionPrefixStays(cfg, s, txs, i - 1);
      assert txs[..i][..i - 1] == txs[..i - 1];
      BaselineSettled(cfg, s, txs, i - 1);
    }
  }

  lemma {:induction false} SessionContinues(cfg: Config, s: Option<Session>, txs: seq<Tx>, k: nat, i: nat)
    requires k <= i <= |txs|
    requires SessionAll(cfg, SessionAll(cfg, s, txs[..k]), txs[..k]) == SessionAll(cfg, s, txs[..k])
    ensures SessionAll(cfg, SessionAll(cfg, s, txs[..k]), txs[..i]) == SessionAll(cfg, s, txs[..i])
    ensures i == |txs| ==> txs[..i] == txs
    decreases i
  {
    if i > k {
      SessionContinues(cfg, s, txs, k, i - 1);
      assert txs[..i][..i - 1] == txs[..i - 1];
    }
  }

  /** Replay keys are write-once: a later state extends an earlier one. */
  lemma {:induction false} ClaimsPersist(replay: map<ReplayHash, Ref>, ds: seq<Delivery>, h: ReplayHash)
    requires h in replay
    ensures h in ClaimAll(replay, ds) && ClaimAll(replay, ds)[h] == replay[h]
    decreases |ds|
  {
    if ds != [] { ClaimsPersist(replay, ds[..|ds| - 1], h); }
  }

  lemma {:induction false} ClaimAllConcat(replay: map<ReplayHash, Ref>, xs: seq<Delivery>, ys: seq<Delivery>)
    ensures ClaimAll(replay, xs + ys) == ClaimAll(ClaimAll(replay, xs), ys)
    decreases |ys|
  {
    if ys == [] {
      assert xs + ys == xs;
    } else {
      assert (xs + ys)[..|xs + ys| - 1] == xs + ys[..|ys| - 1];
      ClaimAllConcat(replay, xs, ys[..|ys| - 1]);
    }
  }

  /** The owner of a delivery's replay key never changes once the delivery has run. */
  lemma {:induction false} OwnerIsFinal(replay: map<ReplayHash, Ref>, ds: seq<Delivery>, i: nat)
    requires i < |ds|
    ensures var h := HashOf(ds[i].tx);
            && h in ClaimAll(replay, ds)
            && Claim(ClaimAll(replay, ds[..i]), ds[i].tx, ds[i].ref)[h] == ClaimAll(replay, ds)[h]
  {
    assert ds[..i + 1][..i] == ds[..i];
    assert ds == ds[..i + 1] + ds[i + 1..];
    ClaimAllConcat(replay, ds[..i + 1], ds[i + 1..]);
    ClaimsPersist(ClaimAll(replay, ds[..i + 1]), ds[i + 1..], HashOf(ds[i].tx));
  }

  lemma {:induction false} RerunClaimsUpTo(replay: map<ReplayHash, Ref>, ds: seq<Delivery>, k: nat, i: nat)
    requires k <= |ds| && i <= |ds|
    ensures ClaimAll(ClaimAll(replay, ds[..k]), ds[..i]) ==
            if i <= k then ClaimAll(replay, ds[..k]) else ClaimAll(replay, ds[..i])
    decreases i
  {
    if i > 0 {
      RerunClaimsUpTo(replay, ds, k, i - 1);
      assert ds[..i][..i - 1] == ds[..i - 1];
      if i <= k {
        assert ds[..k][i - 1] == ds[i - 1];
        OwnerIsFinal(replay, ds[..k], i - 1);
      }
    }
  }

  /** What a run reports for its i-th delivery. */
  ghost function StatusAt(replay: map<ReplayHash, Ref>, ds: seq<Delivery>, i: nat): ReplayStatus
    requires i < |ds|
  {
    StatusOf(ClaimAll(replay, ds[..i]), ds[i].tx, ds[i].ref)
  }

  /** Index of the first delivery carrying the payload. */
  function FirstIndex(ds: seq<Delivery>, h: ReplayHash): (i: nat)
    ensures i <= |ds|
    ensures i < |ds| ==> HashOf(ds[i].tx) == h
    ensures forall j :: 0 <= j < i ==> HashOf(ds[j].tx) != h
  {
    if ds == [] then 0
    else
      var before := FirstIndex(ds[..|ds| - 1], h);
      if before < |ds| - 1 then before
      else if HashOf(ds[|ds| - 1].tx) == h then |ds| - 1
      else |ds|
  }

  lemma {:induction false} FirstCarrierOwns(ds: seq<Delivery>, h: ReplayHash)
    ensures var i := FirstIndex(ds, h);
            Lookup(ClaimAll(map[], ds), h) == if i < |ds| then Some(ds[i].ref) else None
    decreases |ds|
  {
    if ds != [] {
      FirstCarrierOwns(ds[..|ds| - 1], h);
    }
  }

  /**
   * From an empty store the status tells the plain history of the payload: a replay is a
   * payload first seen through a different delivery that was not this event's own
   * decision request.
   */
  lemma {:induction false} StatusRefinesHistory(ds: seq<Delivery>, i: nat)
    requires i < |ds|
    ensures var j := FirstIndex(ds, HashOf(ds[i].tx));
            var own := Decision(ds[i].tx.eventId);
            && j <= i
            && (StatusAt(map[], ds, i) == First <==> j == i)
            && (StatusAt(map[], ds, i) == Redelivery <==> j < i && ds[j].ref == ds[i].ref)
            && (StatusAt(map[], ds, i) == Prescored <==> j < i && ds[j].ref == own && ds[i].ref != own)
            && (StatusAt(map[], ds, i) == Replay <==> j < i && ds[j].ref != ds[i].ref && ds[j].ref != own)
  {
    var h := HashOf(ds[i].tx);
    var j, k := FirstIndex(ds, h), FirstIndex(ds[..i], h);
    FirstCarrierOwns(ds[..i], h);
    if k < i {
      assert HashOf(ds[k].tx) == h;
    }
    assert forall n :: 0 <= n < k ==> HashOf(ds[..i][n].tx) == HashOf(ds[n].tx);
  }

  /**
   * Running any prefix and then the whole batch: every replay and every pre-scored
   * status comes out again, no new ones appear, and each refers to the same owner.
   */
  lemma {:induction false} RerunKeepsStatuses(replay: map<ReplayHash, Ref>, ds: seq<Delivery>, k: nat, i: nat)
    requires k <= |ds| && i < |ds|
    ensures var again := ClaimAll(replay, ds[..k]);
            && ClaimAll(again, ds) == ClaimAll(replay, ds)
            && (StatusAt(again, ds, i) == Replay <==> StatusAt(replay, ds, i) == Replay)
            && (StatusAt(again, ds, i) == Prescored <==> StatusAt(replay, ds, i) == Prescored)
            && Claim(ClaimAll(again, ds[..i]), ds[i].tx, ds[i].ref)[HashOf(ds[i].tx)] ==
               Claim(ClaimAll(replay, ds[..i]), ds[i].tx, ds[i].ref)[HashOf(ds[i].tx)]
  {
    var again := ClaimAll(replay, ds[..k]);
    RerunClaimsUpTo(replay, ds, k, |ds|);
    assert ds[..|ds|] == ds;
    if k == |ds| { assert ds[..k] == ds; }
    OwnerIsFinal(replay, ds, i);
    OwnerIsFinal(again, ds, i);
  }

  lemma {:induction false} ScoredIsPrefix(replay: map<ReplayHash, Ref>, ds: seq<Delivery>, userId: string, k: nat)
    requires k <= |ds|
    ensures var all, part := ScoredFor(replay, ds, userId), ScoredFor(replay, ds[..k], userId);
            |part| <= |all| && part == all[..|part|]
    decreases |ds|
  {
    if k < |ds| {
      assert ds[..|ds| - 1][..k] == ds[..k];
      ScoredIsPrefix(replay, ds[..|ds| - 1], userId, k);
    } else {
      assert ds[..k] == ds;
    }
  }

  lemma {:induction false} RerunScoredFor(replay: map<ReplayHash, Ref>, ds: seq<Delivery>, userId: string, k: nat,
                                          i: nat)
    requires k <= |ds| && i <= |ds|
    ensures ScoredFor(ClaimAll(replay, ds[..k]), ds[..i], userId) == ScoredFor(replay, ds[..i], userId)
    decreases i
  {
    if i > 0 {
      assert ds[..i][..i - 1] == ds[..i - 1];
      RerunScoredFor(replay, ds, userId, k, i - 1);
      RerunKeepsStatuses(replay, ds, k, i - 1);
    }
  }

  lemma {:induction false} ScoredInOrder(replay: map<ReplayHash, Ref>, ds: seq<Delivery>, userId: string)
    requires InOrderPerUser(ds)
    ensures InOrder(ScoredFor(replay, ds, userId))
    ensures forall t :: t in ScoredFor(replay, ds, userId) ==>
              exists i :: 0 <= i < |ds| && ds[i].tx == t && t.userId == userId
    decreases |ds|
  {
    if ds != [] {
      var n := |ds| - 1;
      ScoredInOrder(replay, ds[..n], userId);
      var before := ScoredFor(replay, ds[..n], userId);
      if ds[n].tx.userId == userId {
        forall i | 0 <= i < |before| ensures NotAfter(before[i], ds[n].tx) {
          assert before[i] in before;
          var j :| 0 <= j < |ds[..n]| && ds[..n][j].tx == before[i] && before[i].userId == userId;
          assert ds[j].tx.userId == ds[n].tx.userId;
        }
      }
      forall t | t in before ensures exists i :: 0 <= i < |ds| && ds[i].tx == t && t.userId == userId {
        var j :| 0 <= j < |ds[..n]| && ds[..n][j].tx == t && t.userId == userId;
        assert ds[j].tx == t;
      }
    }
  }

  lemma {:induction false} RerunUser(cfg: Config, u: UserState, txs: seq<Tx>, k: nat)
    requires ValidConfig(cfg) && InOrder(txs) && k <= |txs|
    ensures AdvanceAll(cfg, AdvanceAll(cfg, u, txs[..k]), txs) == AdvanceAll(cfg, u, txs)
  {
    var mid := AdvanceAll(cfg, u, txs[..k]);
    AdvanceSplits(cfg, u, txs[..k]);
    AdvanceSplits(cfg, u, txs);
    AdvanceSplits(cfg, mid, txs);
    RerunBaseline(cfg, u.session, txs, k);
    if k > 0 {
      var w, cs := WindowOf(u.window), BurstCalls(cfg, txs);
      assert BurstCalls(cfg, txs[..k]) == cs[..k];
      TouchAllConcat(w, cs[..k], cs);
      RerunWindow(w, cs, k);
    }
  }

  /**
   * A batch that was interrupted anywhere and is then run whole leaves the replay,
   * burst and session stores exactly as one run would.
   */
  lemma {:induction false} RerunIsIdempotent(cfg: Config, s: Store, ds: seq<Delivery>, k: nat)
    requires ValidConfig(cfg) && InOrderPerUser(ds) && k <= |ds|
    ensures RunAll(cfg, RunAll(cfg, s, ds[..k]), ds) == RunAll(cfg, s, ds)
  {
    var mid := RunAll(cfg, s, ds[..k]);
    var a, b := RunAll(cfg, mid, ds), RunAll(cfg, s, ds);
    forall u ensures View(a, u) == View(b, u) && mid.replay == ClaimAll(s.replay, ds[..k]) {
      RunProjects(cfg, s, ds[..k], u);
      RunProjects(cfg, mid, ds, u);
      RunProjects(cfg, s, ds, u);
      assert ds[..|ds|] == ds;
      RerunScoredFor(s.replay, ds, u, k, |ds|);
      ScoredIsPrefix(s.replay, ds, u, k);
      ScoredInOrder(s.replay, ds, u);
      RerunUser(cfg, View(s, u), ScoredFor(s.replay, ds, u), |ScoredFor(s.replay, ds[..k], u)|);
    }
    RunProjects(cfg, mid, ds, "");
    RunProjects(cfg, s, ds, "");
    RunProjects(cfg, s, ds[..k], "");
    RerunClaimsUpTo(s.replay, ds, k, |ds|);
    assert ds[..|ds|] == ds;
    if k == |ds| { assert ds[..k] == ds; }
    ViewsDetermineStore(a, b);
  }

  /** Any number of interrupted attempts, each stopping wherever it likes. */
  function Attempts(cfg: Config, s: Store, ds: seq<Delivery>, stops: seq<nat>): Store
    requires forall i :: 0 <= i < |stops| ==> stops[i] <= |ds|
  {
    if stops == [] then s
    else RunAll(cfg, Attempts(cfg, s, ds, stops[..|stops| - 1]), ds[..stops[|stops| - 1]])
  }

  lemma {:induction false} RetriesLeaveNoTrace(cfg: Config, s: Store, ds: seq<Delivery>, stops: seq<nat>)
    requires ValidConfig(cfg) && InOrderPerUser(ds)
    requires forall i :: 0 <= i < |stops| ==> stops[i] <= |ds|
    ensures RunAll(cfg, Attempts(cfg, s, ds, stops), ds) == RunAll(cfg, s, ds)
    decreases |stops|
  {
    if stops != [] {
      var n := |stops| - 1;
      RetriesLeaveNoTrace(cfg, s, ds, stops[..n]);
      RerunIsIdempotent(cfg, Attempts(cfg, s, ds, stops[..n]), ds, stops[n]);
    }
  }

  // ---------------------------------------------------------------- without an order

  /** Nobody is in two places at the same time. */
  ghost predicate OnePlace(a: Tx, b: Tx) {
    a.timestamp == b.timestamp ==> a.position == b.position
  }

  ghost predicate OnePlaceAtATime(txs: seq<Tx>) {
    forall i, j :: 0 <= i < j < |txs| ==> OnePlace(txs[i], txs[j])
  }

  ghost predicate OnePlacePerUser(ds: seq<Delivery>) {
    forall i, j :: 0 <= i < j < |ds| && ds[i].tx.userId == ds[j].tx.userId ==> OnePlace(ds[i].tx, ds[j].tx)
  }

  /** The transaction is older than the baseline, out of its reach, or the baseline itself. */
  ghost predicate LeavesAlone(cfg: Config, b: Session, tx: Tx) {
    tx.timestamp < b.ts || Beyond(cfg, Some(b), tx) || b == Session(tx.position, tx.timestamp)
  }

  lemma LeavesAloneIff(cfg: Config, b: Session, tx: Tx)
    ensures NextSession(cfg, Some(b), tx.position, tx.timestamp) == Some(b) <==> LeavesAlone(cfg, b, tx)
  {
    FlaggedIffBeyond(cfg, Some(b), tx);
  }

  ghost predicate Left(b: Session, c: Option<Session>, txs: seq<Tx>) {
    c.Some? && c.value != b && c.value.ts >= b.ts &&
    exists k :: 0 <= k < |txs| && c.value == Session(txs[k].position, txs[k].timestamp)
  }

  /** A baseline that has been left is not returned to. */
  lemma {:induction false} BaselineStaysIff(cfg: Config, b: Session, txs: seq<Tx>)
    requires OnePlaceAtATime(txs)
    ensures (forall j :: 0 <= j < |txs| ==> LeavesAlone(cfg, b, txs[j])) ==> SessionAll(cfg, Some(b), txs) == Some(b)
    ensures !(forall j :: 0 <= j < |txs| ==> LeavesAlone(cfg, b, txs[j])) ==>
              Left(b, SessionAll(cfg, Some(b), txs), txs)
    decreases |txs|
  {
    if txs != [] {
      var n := |txs| - 1;
      BaselineStaysIff(cfg, b, txs[..n]);
      LeavesAloneIff(cfg, b, txs[n]);
      if Left(b, SessionAll(cfg, Some(b), txs[..n]), txs[..n]) {
        StaysLeft(cfg, b, SessionAll(cfg, Some(b), txs[..n]), txs);
      } else if !LeavesAlone(cfg, b, txs[n]) {
        assert SessionAll(cfg, Some(b), txs).value == Session(txs[n].position, txs[n].timestamp);
      }
    }
  }

  lemma StaysLeft(cfg: Config, b: Session, c: Option<Session>, txs: seq<Tx>)
    requires txs != [] && OnePlaceAtATime(txs) && Left(b, c, txs[..|txs| - 1])
    ensures var tx := txs[|txs| - 1]; Left(b, NextSession(cfg, c, tx.position, tx.timestamp), txs)
  {
    var n := |txs| - 1;
    var k :| 0 <= k < n && c.value == Session(txs[..n][k].position, txs[..n][k].timestamp);
    assert c.value == Session(txs[k].position, txs[k].timestamp) && OnePlace(txs[k], txs[n]);
  }

  lemma {:induction false} UserTwiceIff(cfg: Config, u: UserState, txs: seq<Tx>)
    ensures var once := AdvanceAll(cfg, u, txs);
            AdvanceAll(cfg, once, txs) == once <==> SessionAll(cfg, once.session, txs) == once.session
  {
    var once := AdvanceAll(cfg, u, txs);
    AdvanceSplits(cfg, u, txs);
    AdvanceSplits(cfg, once, txs);
    if txs != [] {
      var w, cs := WindowOf(u.window), BurstCalls(cfg, txs);
      assert cs[..|cs|] == cs;
      TouchAllConcat(w, cs, cs);
      RerunWindow(w, cs, |cs|);
    }
  }

  lemma {:induction false} ScoredOnePlace(replay: map<ReplayHash, Ref>, ds: seq<Delivery>, userId: string)
    requires OnePlacePerUser(ds)
    ensures OnePlaceAtATime(ScoredFor(replay, ds, userId))
    ensures forall t :: t in ScoredFor(replay, ds, userId) ==>
              exists i :: 0 <= i < |ds| && ds[i].tx == t && t.userId == userId
    decreases |ds|
  {
    if ds != [] {
      var n := |ds| - 1;
      ScoredOnePlace(replay, ds[..n], userId);
      var before := ScoredFor(replay, ds[..n], userId);
      if ds[n].tx.userId == userId {
        forall i | 0 <= i < |before| ensures OnePlace(before[i], ds[n].tx) {
          assert before[i] in before;
          var j :| 0 <= j < |ds[..n]| && ds[..n][j].tx == before[i] && before[i].userId == userId;
          assert ds[j].tx == before[i];
        }
      }
      forall t | t in before ensures exists i :: 0 <= i < |ds| && ds[i].tx == t && t.userId == userId {
        var j :| 0 <= j < |ds[..n]| && ds[..n][j].tx == t && t.userId == userId;
        assert ds[j].tx == t;
      }
    }
  }

  /** Every scored transaction of the user leaves the user's final baseline alone. */
  ghost predicate BaselineFinal(cfg: Config, s: Store, ds: seq<Delivery>, userId: string) {
    forall b, t :: Lookup(RunAll(cfg, s, ds).session, userId) == Some(b) && t in ScoredFor(s.replay, ds, userId) ==>
        LeavesAlone(cfg, b, t)
  }

  lemma {:induction false} UserRerunIff(cfg: Config, s: Store, ds: seq<Delivery>, userId: string)
    requires OnePlacePerUser(ds)
    ensures var once := RunAll(cfg, s, ds);
            View(RunAll(cfg, once, ds), userId) == View(once, userId) <==> BaselineFinal(cfg, s, ds, userId)
    ensures RunAll(cfg, RunAll(cfg, s, ds), ds).replay == RunAll(cfg, s, ds).replay
  {
    var once, txs := RunAll(cfg, s, ds), ScoredFor(s.replay, ds, userId);
    assert ds[..|ds|] == ds;
    RunProjects(cfg, s, ds, userId);
    RunProjects(cfg, once, ds, userId);
    RerunClaimsUpTo(s.replay, ds, |ds|, |ds|);
    RerunScoredFor(s.replay, ds, userId, |ds|, |ds|);
    UserTwiceIff(cfg, View(s, userId), txs);
    ScoredOnePlace(s.replay, ds, userId);
    if View(once, userId).session.Some? {
      BaselineStaysIff(cfg, View(once, userId).session.value, txs);
      assert forall j :: 0 <= j < |txs| ==> txs[j] in txs;
    } else {
      NoBaselineNoScore(cfg, View(s, userId), txs);
    }
  }

  lemma NoBaselineNoScore(cfg: Config, u: UserState, txs: seq<Tx>)
    requires AdvanceAll(cfg, u, txs).session.None?
    ensures txs == []
  {
    if txs != [] {
      AdvanceSplits(cfg, u, txs);
    }
  }

  /**
   * When a whole batch is run twice, in any order of timestamps as long as no user is in
   * two places at the same time: the second run changes nothing exactly when, user by user, no scored
   * transaction but the final baseline itself is at once not older than it and within
   * its reach.
   */
  lemma {:induction false} RunTwiceIff(cfg: Config, s: Store, ds: seq<Delivery>)
    requires OnePlacePerUser(ds)
    ensures var once := RunAll(cfg, s, ds);
            RunAll(cfg, once, ds) == once <==> forall u :: BaselineFinal(cfg, s, ds, u)
  {
    var once := RunAll(cfg, s, ds);
    forall u ensures View(RunAll(cfg, once, ds), u) == View(once, u) <==> BaselineFinal(cfg, s, ds, u) {
      UserRerunIff(cfg, s, ds, u);
    }
    UserRerunIff(cfg, s, ds, "");
    if forall u :: BaselineFinal(cfg, s, ds, u) {
      ViewsDetermineStore(RunAll(cfg, once, ds), once);
    }
  }
}
