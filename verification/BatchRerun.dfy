/** Repeating a half-done or undelivered batch, at the level of the whole pipeline. */
module BatchRerun {
  import opened Wrappers
  import opened Events
  import opened Pipeline
  import Tx = TxCheck
  import Runs = TxRuns
  import AuthWindows = AuthCheck
  import Laws = BatchLaws
  import Cooldown

  /** The transactions of a batch that reach the script. */
  function Scripted(env: Env, its: seq<Item>): seq<Runs.Delivery> {
    if its == [] then []
    else
      var before := Scripted(env, its[..|its| - 1]);
      var it := its[|its| - 1];
      if Active(env, it) && it.event.Transaction? then before + [Runs.Delivery(it.event.tx, it.ref)] else before
  }

  /** The failed logins of a batch that reach the script. */
  function FailedLogins(env: Env, its: seq<Item>): seq<Auth> {
    if its == [] then []
    else
      var before := FailedLogins(env, its[..|its| - 1]);
      var it := its[|its| - 1];
      if Active(env, it) && it.event.Login? then before + [it.event.auth] else before
  }

  /** Phase B is a transaction run and a login run side by side. */
  lemma {:induction false} ChecksSplit(cfg: Config, env: Env, st: Stores, its: seq<Item>)
    ensures CheckAll(cfg, env, st, its) ==
            Stores(Runs.RunAll(cfg.check, st.checks, Scripted(env, its)),
                   AuthWindows.RunAll(st.logins, FailedLogins(env, its), cfg.authWindow), st.cooldown)
    decreases |its|
  {
    if its != [] {
      var n := |its| - 1;
      ChecksSplit(cfg, env, st, its[..n]);
      var ds, ls := Scripted(env, its[..n]), FailedLogins(env, its[..n]);
      if Active(env, its[n]) {
        if its[n].event.Transaction? {
          assert (ds + [Runs.Delivery(its[n].event.tx, its[n].ref)])[..|ds|] == ds;
        } else {
          assert (ls + [its[n].event.auth])[..|ls|] == ls;
        }
      }
    }
  }

  lemma {:induction false} Prefixes(env: Env, its: seq<Item>, k: nat)
    requires k <= |its|
    ensures var ds, part := Scripted(env, its), Scripted(env, its[..k]); |part| <= |ds| && part == ds[..|part|]
    ensures var ls, part := FailedLogins(env, its), FailedLogins(env, its[..k]); |part| <= |ls| && part == ls[..|part|]
    decreases |its|
  {
    if k < |its| {
      assert its[..|its| - 1][..k] == its[..k];
      Prefixes(env, its[..|its| - 1], k);
    } else {
      assert its[..k] == its;
    }
  }

  /** An attempt interrupted after any number of script calls is invisible once the batch has run. */
  lemma {:induction false} InterruptedChecksRepeat(cfg: Config, env: Env, st: Stores, its: seq<Item>, k: nat)
    requires Tx.ValidConfig(cfg.check) && Runs.InOrderPerUser(Scripted(env, its)) && k <= |its|
    ensures CheckAll(cfg, env, CheckAll(cfg, env, st, its[..k]), its) == CheckAll(cfg, env, st, its)
  {
    var mid := CheckAll(cfg, env, st, its[..k]);
    ChecksSplit(cfg, env, st, its[..k]);
    ChecksSplit(cfg, env, mid, its);
    ChecksSplit(cfg, env, st, its);
    Prefixes(env, its, k);
    Runs.RerunIsIdempotent(cfg.check, st.checks, Scripted(env, its), |Scripted(env, its[..k])|);
    AuthWindows.RerunIsIdempotent(st.logins, FailedLogins(env, its), cfg.authWindow, |FailedLogins(env, its[..k])|);
  }

  /** What a failed delivery leaves: scripts have run, the cooldown claims are given back. */
  function Undelivered(cfg: Config, env: Env, st: Stores, rs: seq<Record>): Stores {
    HandleBatch(cfg, env, st, rs).stores.(cooldown := st.cooldown)
  }

  /** Status reported for the i-th item, if it is a transaction that reached the script. */
  function StatusAt(cfg: Config, env: Env, st: Stores, its: seq<Item>, i: nat): Option<Tx.ReplayStatus>
    requires i < |its|
  {
    var r := CheckedItem(cfg, env, CheckAll(cfg, env, st, its[..i]), its[i]);
    if r.TxChecked? then Some(r.tx.status) else None
  }

  lemma {:induction false} StatusIsRunStatus(cfg: Config, env: Env, st: Stores, its: seq<Item>, i: nat)
    requires i < |its| && Active(env, its[i]) && its[i].event.Transaction?
    ensures var ds, n := Scripted(env, its), |Scripted(env, its[..i])|;
            n < |ds| && StatusAt(cfg, env, st, its, i) == Some(Runs.StatusAt(st.checks.replay, ds, n))
  {
    var ds, n := Scripted(env, its), |Scripted(env, its[..i])|;
    assert its[..i + 1][..i] == its[..i];
    Prefixes(env, its, i + 1);
    Prefixes(env, its, i);
    assert ds[n] == Scripted(env, its[..i + 1])[n];
    ChecksSplit(cfg, env, st, its[..i]);
    Runs.RunProjects(cfg.check, st.checks, Scripted(env, its[..i]), "");
  }

  /**
   * A batch whose delivery failed and that is handled again leaves the login windows as one
   * successful attempt would, and so the transaction stores if timestamps are in order. In
   * any order, with no user in two places at the same time, it does so exactly when every
   * final baseline is left alone by the batch.
   */
  lemma {:induction false} UndeliveredBatchRepeats(cfg: Config, env: Env, st: Stores, rs: seq<Record>)
    ensures var once := HandleBatch(cfg, env, st, rs).stores;
            var again := HandleBatch(cfg, env, Undelivered(cfg, env, st, rs), rs).stores;
            var ds := Scripted(env, ItemsOf(cfg, rs));
            && again.logins == once.logins
            && (Tx.ValidConfig(cfg.check) && Runs.InOrderPerUser(ds) ==> again.checks == once.checks)
            && (Runs.OnePlacePerUser(ds) ==>
                  (again.checks == once.checks <==> forall u :: Runs.BaselineFinal(cfg.check, st.checks, ds, u)))
  {
    var its := ItemsOf(cfg, rs);
    var ran, retry := CheckAll(cfg, env, st, its), Undelivered(cfg, env, st, rs);
    var ds, ls := Scripted(env, its), FailedLogins(env, its);
    Laws.ChecksIgnoreCooldown(cfg, env, st, its, st.cooldown);
    assert retry == ran;
    ChecksSplit(cfg, env, st, its);
    ChecksSplit(cfg, env, ran, its);
    assert ds[..|ds|] == ds && ls[..|ls|] == ls;
    AuthWindows.RerunIsIdempotent(st.logins, ls, cfg.authWindow, |ls|);
    if Tx.ValidConfig(cfg.check) && Runs.InOrderPerUser(ds) { Runs.RerunIsIdempotent(cfg.check, st.checks, ds, |ds|); }
    if Runs.OnePlacePerUser(ds) { Runs.RunTwiceIff(cfg.check, st.checks, ds); }
  }

  /** In any order, the repeated batch reports every replay and every pre-scored event again, and no others. */
  lemma {:induction false} UndeliveredStatusesRepeat(cfg: Config, env: Env, st: Stores, rs: seq<Record>, i: nat)
    requires i < |ItemsOf(cfg, rs)|
    ensures var its, retry := ItemsOf(cfg, rs), Undelivered(cfg, env, st, rs);
            && (StatusAt(cfg, env, retry, its, i) == Some(Tx.Replay) <==>
                StatusAt(cfg, env, st, its, i) == Some(Tx.Replay))
            && (StatusAt(cfg, env, retry, its, i) == Some(Tx.Prescored) <==>
                StatusAt(cfg, env, st, its, i) == Some(Tx.Prescored))
  {
    var its := ItemsOf(cfg, rs);
    var ran, retry := CheckAll(cfg, env, st, its), Undelivered(cfg, env, st, rs);
    Laws.ChecksIgnoreCooldown(cfg, env, st, its, st.cooldown);
    assert retry == ran;
    if Active(env, its[i]) && its[i].event.Transaction? {
      StatusIsRunStatus(cfg, env, st, its, i);
      StatusIsRunStatus(cfg, env, ran, its, i);
      var ds := Scripted(env, its);
      assert ds[..|ds|] == ds;
      ChecksSplit(cfg, env, st, its);
      Runs.RunProjects(cfg.check, st.checks, ds, "");
      Runs.RerunKeepsStatuses(st.checks.replay, ds, |ds|, |Scripted(env, its[..i])|);
    }
  }

  // ---------------------------------------------------------------- crash after claiming

  /** The candidates of a batch as it is handled from the given stores. */
  function CandidatesFrom(cfg: Config, env: Env, st: Stores, rs: seq<Record>): seq<Detection> {
    Candidates(cfg, env, st, ItemsOf(cfg, rs))
  }

  ghost predicate Emits(cfg: Config, env: Env, st: Stores, rs: seq<Record>, k: Cooldown.Key) {
    exists e :: e in HandleBatch(cfg, env, st, rs).emitted && Cooldown.KeyOf(e) == k
  }

  lemma {:induction false} EmitsIffFree(cfg: Config, env: Env, st: Stores, rs: seq<Record>, k: Cooldown.Key)
    requires cfg.cooldownSeconds > 0
    ensures Emits(cfg, env, st, rs, k) <==> k !in st.cooldown && k in Cooldown.KeysOf(CandidatesFrom(cfg, env, st, rs))
  {
    Cooldown.EmittedIffFree(st.cooldown, CandidatesFrom(cfg, env, st, rs), k, cfg.cooldownSeconds);
  }

  /**
   * A process that dies after claiming and before delivering leaves its claims behind.
   * Take any detection it had emitted whose type and subject come up again in a later
   * batch, such as its own redelivered record: they are emitted again exactly when no
   * cooldown is configured. Had the claims been released, they always would be.
   */
  lemma {:induction false} CrashAfterClaimSilences(cfg: Config, env: Env, st: Stores, rs: seq<Record>, d: Detection,
                                                   env': Env, rs': seq<Record>)
    requires d in HandleBatch(cfg, env, st, rs).emitted
    ensures var crashed, released := HandleBatch(cfg, env, st, rs).stores, Undelivered(cfg, env, st, rs);
            var k := Cooldown.KeyOf(d);
            && (k in Cooldown.KeysOf(CandidatesFrom(cfg, env', crashed, rs')) ==>
                  (Emits(cfg, env', crashed, rs', k) <==> cfg.cooldownSeconds <= 0))
            && (k in Cooldown.KeysOf(CandidatesFrom(cfg, env', released, rs')) ==> Emits(cfg, env', released, rs', k))
  {
    var crashed, released := HandleBatch(cfg, env, st, rs).stores, Undelivered(cfg, env, st, rs);
    var k := Cooldown.KeyOf(d);
    if cfg.cooldownSeconds > 0 {
      EmitsIffFree(cfg, env, st, rs, k);
      assert Emits(cfg, env, st, rs, k);
      Cooldown.ClaimsMatchWinners(st.cooldown, CandidatesFrom(cfg, env, st, rs));
      Cooldown.WinnersAreCandidates(st.cooldown, CandidatesFrom(cfg, env, st, rs), d);
      assert k in crashed.cooldown;
      EmitsIffFree(cfg, env', crashed, rs', k);
      EmitsIffFree(cfg, env', released, rs', k);
    } else {
      if k in Cooldown.KeysOf(CandidatesFrom(cfg, env', crashed, rs')) { EmitsCandidate(cfg, env', crashed, rs', k); }
      if k in Cooldown.KeysOf(CandidatesFrom(cfg, env', released, rs')) { EmitsCandidate(cfg, env', released, rs', k); }
    }
  }

  lemma EmitsCandidate(cfg: Config, env: Env, st: Stores, rs: seq<Record>, k: Cooldown.Key)
    requires cfg.cooldownSeconds <= 0 && k in Cooldown.KeysOf(CandidatesFrom(cfg, env, st, rs))
    ensures Emits(cfg, env, st, rs, k)
  {
    var ds := CandidatesFrom(cfg, env, st, rs);
    var i :| 0 <= i < |ds| && Cooldown.KeysOf(ds)[i] == k;
    assert ds[i] in HandleBatch(cfg, env, st, rs).emitted && Cooldown.KeyOf(ds[i]) == k;
  }

  /**
   * With a cooldown, a batch handled again after such a crash repeats its emission exactly
   * when every key either run comes up with was taken before the first run, so that there
   * was nothing to emit.
   */
  lemma {:induction false} CrashKeepsEmissionIff(cfg: Config, env: Env, st: Stores, rs: seq<Record>)
    requires cfg.cooldownSeconds > 0
    ensures var crashed := HandleBatch(cfg, env, st, rs).stores;
            HandleBatch(cfg, env, crashed, rs).emitted == HandleBatch(cfg, env, st, rs).emitted <==>
            && (forall d :: d in CandidatesFrom(cfg, env, st, rs) ==> Cooldown.KeyOf(d) in st.cooldown)
            && (forall d :: d in CandidatesFrom(cfg, env, crashed, rs) ==> Cooldown.KeyOf(d) in st.cooldown)
  {
    var crashed := HandleBatch(cfg, env, st, rs).stores;
    var first, second := CandidatesFrom(cfg, env, st, rs), CandidatesFrom(cfg, env, crashed, rs);
    var once, again := HandleBatch(cfg, env, st, rs).emitted, HandleBatch(cfg, env, crashed, rs).emitted;
    Cooldown.NothingEmittedIff(st.cooldown, first, cfg.cooldownSeconds);
    Cooldown.NothingEmittedIff(crashed.cooldown, second, cfg.cooldownSeconds);
    if once == again && once != [] {
      assert once[0] in once && once[0] in again;
      Cooldown.WinnersAreCandidates(crashed.cooldown, second, once[0]);
      var i :| 0 <= i < |second| && second[i] == once[0];
      assert Cooldown.KeysOf(second)[i] == Cooldown.KeyOf(once[0]);
      CrashAfterClaimSilences(cfg, env, st, rs, once[0], env, rs);
      assert Emits(cfg, env, crashed, rs, Cooldown.KeyOf(once[0]));
    }
    if once == [] { Cooldown.NoWinners(st.cooldown, first); }
  }

  /** Of the candidates of one replayed record, the replay is the one with its id, and the one with its key. */
  lemma {:induction false} ReplayCandidate(cfg: Config, env: Env, st: Stores, r: Record)
    requires r.topic != cfg.authTopic && r.asTx.Some? && r.asTx.value.userId !in env.quarantined
    requires Tx.StatusOf(st.checks.replay, r.asTx.value, RecordRef(r)) == Tx.Replay
    ensures var ds := CandidatesFrom(cfg, env, st, [r]);
            && ReplayKey(r.asTx.value) in Cooldown.KeysOf(ds)
            && forall d :: d in ds ==> (d.id == ReplayId(r) <==> Cooldown.KeyOf(d) == ReplayKey(r.asTx.value))
    ensures HandleBatch(cfg, env, st, [r]).stores.checks == Tx.Check(cfg.check, st.checks, r.asTx.value, RecordRef(r))
  {
    var it, res := Item(Transaction(r.asTx.value), RecordRef(r)),
        Tx.CheckResult(cfg.check, st.checks, r.asTx.value, RecordRef(r));
    OnlyItem(cfg, r, it);
    assert CandidatesFrom(cfg, env, st, [r]) == Identify(it, InterpretTx(cfg, r.asTx.value, res)) by {
      Laws.CandidatesOfOne(cfg, env, st, it);
    }
    assert HandleBatch(cfg, env, st, [r]).stores.checks ==
        Tx.Check(cfg.check, st.checks, r.asTx.value, RecordRef(r)) by {
      Laws.CandidatesOfOne(cfg, env, st, it);
    }
    ReplayAmong(cfg, it, res);
  }

  lemma OnlyItem(cfg: Config, r: Record, it: Item)
    requires Validate(cfg, r) == Some(it)
    ensures ItemsOf(cfg, [r]) == [it]
  {
    assert [r][..0] == [];
  }

  /** Among the detections made of one replayed transaction. */
  lemma ReplayAmong(cfg: Config, it: Item, res: Tx.TxResult)
    requires it.event.Transaction? && res.status == Tx.Replay
    ensures var tx := it.event.tx;
            var ds := Identify(it, InterpretTx(cfg, tx, res));
            && ReplayKey(tx) in Cooldown.KeysOf(ds)
            && forall d :: d in ds ==> (d.id == DetectionId(it.ref, ReplayAttack, NoScope) <==>
                Cooldown.KeyOf(d) == ReplayKey(tx))
  {
    var fs := InterpretTx(cfg, it.event.tx, res);
    var ds := Identify(it, fs);
    UnscopedFindings(cfg, it.event.tx, res);
    assert Cooldown.KeysOf(ds)[0] == Cooldown.KeyOf(WithStableId(it, fs[0])) == ReplayKey(it.event.tx);
    forall d | d in ds ensures d.id == DetectionId(it.ref, ReplayAttack, NoScope) <==>
        Cooldown.KeyOf(d) == ReplayKey(it.event.tx) {
      var i :| 0 <= i < |ds| && ds[i] == d;
      assert d == WithStableId(it, fs[i]);
    }
  }

  lemma UnscopedFindings(cfg: Config, tx: Events.Tx, r: Tx.TxResult)
    ensures var fs := InterpretTx(cfg, tx, r);
            && (r.status == Tx.Replay ==> fs != [] && fs[0].dtype == ReplayAttack)
            && forall i :: 0 <= i < |fs| ==> fs[i].scope == NoScope
  {
  }

  function ReplayKey(tx: Events.Tx): Cooldown.Key { Cooldown.Key(ReplayAttack, Cooldown.UserSubject(tx.userId)) }

  function ReplayId(r: Record): DetectionId { DetectionId(RecordRef(r), ReplayAttack, NoScope) }

  /**
   * A replay that is emitted, lost and never emitted again: the payload of a record
   * belongs to another delivery and the user is not cooling down. The record's second
   * delivery comes up with the same replay and emits nothing of the kind.
   */
  lemma {:induction false} ReplayLostInCrash(cfg: Config, env: Env, st: Stores, r: Record)
    requires cfg.cooldownSeconds > 0
    requires r.topic != cfg.authTopic && r.asTx.Some? && r.asTx.value.userId !in env.quarantined
    requires Tx.StatusOf(st.checks.replay, r.asTx.value, RecordRef(r)) == Tx.Replay
    requires ReplayKey(r.asTx.value) !in st.cooldown
    ensures var crashed := HandleBatch(cfg, env, st, [r]).stores;
            && (exists d :: d in HandleBatch(cfg, env, st, [r]).emitted && d.id == ReplayId(r))
            && (exists d :: d in CandidatesFrom(cfg, env, crashed, [r]) && d.id == ReplayId(r))
            && (forall d :: d in HandleBatch(cfg, env, crashed, [r]).emitted ==> d.id != ReplayId(r))
  {
    var k, crashed := ReplayKey(r.asTx.value), HandleBatch(cfg, env, st, [r]).stores;
    ReplayCandidate(cfg, env, st, r);
    ReplayCandidate(cfg, env, crashed, r);
    EmitsIffFree(cfg, env, st, [r], k);
    var d :| d in HandleBatch(cfg, env, st, [r]).emitted && Cooldown.KeyOf(d) == k;
    Cooldown.WinnersAreCandidates(st.cooldown, CandidatesFrom(cfg, env, st, [r]), d);
    CrashAfterClaimSilences(cfg, env, st, [r], d, env, [r]);
    var second := CandidatesFrom(cfg, env, crashed, [r]);
    var i :| 0 <= i < |second| && Cooldown.KeysOf(second)[i] == k;
    assert second[i] in second;
    forall e | e in HandleBatch(cfg, env, crashed, [r]).emitted ensures e.id != ReplayId(r) {
      Cooldown.WinnersAreCandidates(crashed.cooldown, second, e);
    }
  }

  /** One such record, spelled out: the payload first came at offset 3 and comes again at offset 7. */
  lemma LostReplayExample(cfg: Config)
    requires cfg.cooldownSeconds > 0 && cfg.authTopic != "tx-events"
    ensures var tx := Events.Tx("e", "u", 100, "m", 0.0, "here", Position(0.0, 0.0));
            var r := Record("tx-events", 0, 7, Some(tx), None);
            var st := Stores(Tx.Store(map[HashOf(tx) := Kafka("tx-events", 0, 3)], map[], map[]), map[], map[]);
            var env := Env({}, {}, map[]);
            var crashed := HandleBatch(cfg, env, st, [r]).stores;
            && HandleBatch(cfg, env, st, [r]).emitted != []
            && forall d :: d in HandleBatch(cfg, env, crashed, [r]).emitted ==> d.id != ReplayId(r)
  {
    var tx := Events.Tx("e", "u", 100, "m", 0.0, "here", Position(0.0, 0.0));
    var r := Record("tx-events", 0, 7, Some(tx), None);
    var st := Stores(Tx.Store(map[HashOf(tx) := Kafka("tx-events", 0, 3)], map[], map[]), map[], map[]);
    ReplayLostInCrash(cfg, Env({}, {}, map[]), st, r);
  }
}
