/**
 * What handling a batch comes to, record by record and in the terms of the records
 * themselves: whom a detection names, what it says, and what is refused or rejected.
 * Together with BatchIsSequential these laws determine every batch.
 */
module BatchMeaning {
  import opened Wrappers
  import opened Events
  import opened Pipeline
  import Tx = TxCheck
  import AuthWindows = AuthCheck
  import Laws = BatchLaws
  import Cooldown

  // ---------------------------------------------------------------- whom a detection names

  /** The detection is about the record's own event, under the record's own delivery. */
  ghost predicate Names(cfg: Config, r: Record, d: Detection) {
    && d.id == DetectionId(Kafka(r.topic, r.partition, r.offset), d.dtype, d.scope)
    && if r.topic == cfg.authTopic then
         && r.asAuth.Some?
         && var a := r.asAuth.value;
            && d.userId == a.userId && d.transactionId == a.eventId && d.ip == Some(a.ip)
            && d.dtype == CredentialStuffing && d.scope in {UserScope, IpScope} && !a.success
       else
         && r.asTx.Some?
         && var tx := r.asTx.value;
            && d.userId == tx.userId && d.transactionId == tx.eventId && d.ip == None
            && d.dtype in {ReplayAttack, GeoVelocityAnomaly, FraudBurst} && d.scope == NoScope
  }

  lemma {:induction false} FromReasonsUnscoped(verdict: Verdict, reasons: seq<Reason>)
    ensures forall f :: f in FromReasons(verdict, reasons) ==>
              f.dtype in {ReplayAttack, GeoVelocityAnomaly, FraudBurst} && f.scope == NoScope && f.ip == None
    decreases |reasons|
  {
    if reasons != [] { FromReasonsUnscoped(verdict, reasons[..|reasons| - 1]); }
  }

  lemma {:induction false} FindingsFit(cfg: Config, env: Env, st: Stores, it: Item, f: Finding)
    requires f in FindingsOf(cfg, env, it, CheckedItem(cfg, env, st, it))
    ensures match it.event
            case Login(a) =>
              && f.dtype == CredentialStuffing && f.scope in {UserScope, IpScope}
              && f.ip == Some(a.ip) && !a.success
            case Transaction(_) =>
              && f.dtype in {ReplayAttack, GeoVelocityAnomaly, FraudBurst}
              && f.scope == NoScope && f.ip == None
  {
    if it.event.Transaction? && Lookup(env.decisions, it.event.tx.eventId).Some? {
      var a := Lookup(env.decisions, it.event.tx.eventId).value;
      FromReasonsUnscoped(a.verdict, a.reasons);
    }
  }

  lemma {:induction false} ItemsComeFromRecords(cfg: Config, rs: seq<Record>, it: Item)
    requires it in ItemsOf(cfg, rs)
    ensures exists i :: 0 <= i < |rs| && Validate(cfg, rs[i]) == Some(it)
    decreases |rs|
  {
    var n := |rs| - 1;
    if Validate(cfg, rs[n]) != Some(it) {
      ItemsComeFromRecords(cfg, rs[..n], it);
      var i :| 0 <= i < n && Validate(cfg, rs[..n][i]) == Some(it);
      assert Validate(cfg, rs[i]) == Some(it);
    }
  }

  lemma {:induction false} FlattenMember<T>(ls: seq<seq<T>>, x: T)
    requires x in Flatten(ls)
    ensures exists i :: 0 <= i < |ls| && x in ls[i]
    decreases |ls|
  {
    var n := |ls| - 1;
    if x !in ls[n] {
      FlattenMember(ls[..n], x);
      var i :| 0 <= i < n && x in ls[..n][i];
      assert x in ls[i];
    }
  }

  lemma {:induction false} CheckedAt(cfg: Config, env: Env, st: Stores, its: seq<Item>, i: nat)
    requires i < |its|
    ensures CheckedAll(cfg, env, st, its)[i] == CheckedItem(cfg, env, CheckAll(cfg, env, st, its[..i]), its[i])
    decreases |its|
  {
    if i < |its| - 1 {
      assert its[..|its| - 1][..i] == its[..i];
      CheckedAt(cfg, env, st, its[..|its| - 1], i);
    }
  }

  /** Every emitted detection is about a record of the batch and names that record's own user, event and address. */
  lemma {:induction false} EmittedNameTheirRecords(cfg: Config, env: Env, st: Stores, rs: seq<Record>, d: Detection)
    requires d in HandleBatch(cfg, env, st, rs).emitted
    ensures exists i :: 0 <= i < |rs| && Names(cfg, rs[i], d)
  {
    var its := ItemsOf(cfg, rs);
    var checked := CheckedAll(cfg, env, st, its);
    var lists := CandidateLists(cfg, env, its, checked);
    if cfg.cooldownSeconds > 0 { Cooldown.WinnersAreCandidates(st.cooldown, Flatten(lists), d); }
    FlattenMember(lists, d);
    var k :| 0 <= k < |lists| && d in lists[k];
    ItemsComeFromRecords(cfg, rs, its[k]);
    var i :| 0 <= i < |rs| && Validate(cfg, rs[i]) == Some(its[k]);
    CheckedAt(cfg, env, st, its, k);
    CandidateNames(cfg, env, CheckAll(cfg, env, st, its[..k]), rs[i], its[k], d);
  }

  lemma {:induction false} CandidateNames(cfg: Config, env: Env, st: Stores, r: Record, it: Item, d: Detection)
    requires Validate(cfg, r) == Some(it) && d in CandidatesOf(cfg, env, it, CheckedItem(cfg, env, st, it))
    ensures Names(cfg, r, d)
  {
    var fs := FindingsOf(cfg, env, it, CheckedItem(cfg, env, st, it));
    var j :| 0 <= j < |fs| && d == WithStableId(it, fs[j]);
    FindingsFit(cfg, env, st, it, fs[j]);
  }

  // ---------------------------------------------------------------- one record

  predicate Accepted(cfg: Config, r: Record) {
    if r.topic == cfg.authTopic then r.asAuth.Some? else r.asTx.Some?
  }

  /** A record that its topic's schema does not accept is a failure and nothing else. */
  lemma RejectedRecord(cfg: Config, env: Env, st: Stores, r: Record)
    requires !Accepted(cfg, r)
    ensures HandleBatch(cfg, env, st, [r]) == Outcome(st, [], [], {0}, [])
  {
    assert [r][..0] == [] && ItemsOf(cfg, [r]) == [];
    assert FailuresOf(cfg, [r]) == {0};
  }

  lemma OneItem(cfg: Config, env: Env, st: Stores, r: Record, it: Item)
    requires Validate(cfg, r) == Some(it)
    ensures var out := HandleBatch(cfg, env, st, [r]);
            var ds := CandidatesOf(cfg, env, it, CheckedItem(cfg, env, st, it));
            && out.stores == CheckItem(cfg, env, st, it).(cooldown :=
                Cooldown.AfterFilter(st.cooldown, ds, cfg.cooldownSeconds))
            && out.emitted == Cooldown.Filtered(st.cooldown, ds, cfg.cooldownSeconds)
            && out.claimed == Cooldown.Claimed(st.cooldown, ds, cfg.cooldownSeconds)
            && out.failures == {}
            && out.refused == if Blocked(env, it) then [it] else []
  {
    assert [r][..0] == [] && ItemsOf(cfg, [r]) == [it];
    assert [it][..0] == [];
    Laws.CandidatesOfOne(cfg, env, st, it);
    assert FailuresOf(cfg, [r]) == {};
    assert BlockedOf(env, [it]) == if Blocked(env, it) then [it] else [] by {
      assert BlockedOf(env, [it][..0]) == [];
      assert [it][..|[it]| - 1] == [];
    }
  }

  /** A quarantined user's transaction, or a login from a blocked address. */
  ghost predicate UnderRule(cfg: Config, env: Env, r: Record)
    requires Accepted(cfg, r)
  {
    if r.topic == cfg.authTopic then SanitizeIp(r.asAuth.value.ip) in env.blockedIps
        else r.asTx.value.userId in env.quarantined
  }

  ghost function EventOf(cfg: Config, r: Record): Event
    requires Accepted(cfg, r)
  {
    if r.topic == cfg.authTopic then Login(r.asAuth.value) else Transaction(r.asTx.value)
  }

  /** Where a record comes from. */
  ghost function Origin(r: Record): Ref { Kafka(r.topic, r.partition, r.offset) }

  lemma Inactive(cfg: Config, env: Env, st: Stores, r: Record, it: Item)
    requires Validate(cfg, r) == Some(it) && !Active(env, it)
    ensures var out := HandleBatch(cfg, env, st, [r]);
            && out.stores == st && out.emitted == [] && out.claimed == [] && out.failures == {}
            && out.refused == if Blocked(env, it) then [it] else []
  {
    OneItem(cfg, env, st, r, it);
    assert CandidatesOf(cfg, env, it, NotChecked) == [];
    NoCandidates(st, cfg.cooldownSeconds);
  }

  lemma NoCandidates(st: Stores, seconds: int)
    ensures Cooldown.Filtered(st.cooldown, [], seconds) == []
    ensures Cooldown.Claimed(st.cooldown, [], seconds) == []
    ensures st.(cooldown := Cooldown.AfterFilter(st.cooldown, [], seconds)) == st
  {
  }

  /** A record under a rule is refused, audited once, and leaves no trace. */
  lemma RefusedRecord(cfg: Config, env: Env, st: Stores, r: Record)
    requires Accepted(cfg, r) && UnderRule(cfg, env, r)
    ensures HandleBatch(cfg, env, st, [r]) ==
            Outcome(st, [], [], {}, [Item(EventOf(cfg, r), Origin(r))])
  {
    Inactive(cfg, env, st, r, Item(EventOf(cfg, r), Origin(r)));
  }

  /** A successful login is nothing to anybody. */
  lemma SuccessfulLogin(cfg: Config, env: Env, st: Stores, r: Record)
    requires r.topic == cfg.authTopic && Accepted(cfg, r) && !UnderRule(cfg, env, r) && r.asAuth.value.success
    ensures HandleBatch(cfg, env, st, [r]) == Outcome(st, [], [], {}, [])
  {
    Inactive(cfg, env, st, r, Item(EventOf(cfg, r), Origin(r)));
  }

  ghost function Stuffing(ref: Ref, a: Auth, scope: Scope, count: nat): Detection {
    Detection(DetectionId(ref, CredentialStuffing, scope), CredentialStuffing,
              a.userId, a.eventId, Some(a.ip), scope, InWindow(count), AsyncDetector)
  }

  /** Each count over its threshold, for its own scope. */
  ghost function Stuffings(cfg: Config, ref: Ref, a: Auth, counts: AuthWindows.Counts): seq<Detection> {
    (if counts.user > cfg.userThreshold then [Stuffing(ref, a, UserScope, counts.user)] else [])
    + (if counts.ip > cfg.ipThreshold then [Stuffing(ref, a, IpScope, counts.ip)] else [])
  }

  /** A failed login is counted twice, and each count speaks for its own scope. */
  lemma FailedLogin(cfg: Config, env: Env, st: Stores, r: Record)
    requires r.topic == cfg.authTopic && Accepted(cfg, r) && !UnderRule(cfg, env, r) && !r.asAuth.value.success
    ensures var a := r.asAuth.value;
            Comes(cfg, st, HandleBatch(cfg, env, st, [r]),
                  Stuffings(cfg, Origin(r), a, AuthWindows.CheckCounts(st.logins, a, cfg.authWindow)),
                  st.checks, AuthWindows.Check(st.logins, a, cfg.authWindow))
  {
    var a := r.asAuth.value;
    var it := Item(Login(a), Origin(r));
    OneItem(cfg, env, st, r, it);
    StuffingsAreCandidates(cfg, it, a, AuthWindows.CheckCounts(st.logins, a, cfg.authWindow));
  }

  lemma StuffingsAreCandidates(cfg: Config, it: Item, a: Auth, counts: AuthWindows.Counts)
    requires it.event == Login(a)
    ensures Identify(it, InterpretLogin(cfg, a, counts)) == Stuffings(cfg, it.ref, a, counts)
  {
  }

  /** The outcome of candidates ds: what the cooldown lets through, and the script stores as given. */
  ghost predicate Comes(cfg: Config, st: Stores, out: Outcome, ds: seq<Detection>, checks: Tx.Store,
                        logins: AuthWindows.Windows) {
    && out.emitted == Cooldown.Filtered(st.cooldown, ds, cfg.cooldownSeconds)
    && out.claimed == Cooldown.Claimed(st.cooldown, ds, cfg.cooldownSeconds)
    && out.stores == Stores(checks, logins, Cooldown.AfterFilter(st.cooldown, ds, cfg.cooldownSeconds))
    && out.failures == {} && out.refused == []
  }

  /**
   * A failed login over both thresholds raises both alarms, and with neither the user nor
   * the address cooling down both are emitted.
   */
  lemma {:induction false} BothScopesAreEmitted(cfg: Config, env: Env, st: Stores, r: Record)
    requires r.topic == cfg.authTopic && Accepted(cfg, r) && !UnderRule(cfg, env, r) && !r.asAuth.value.success
    requires r.asAuth.value.ip != ""
    requires var counts := AuthWindows.CheckCounts(st.logins, r.asAuth.value, cfg.authWindow);
             counts.user > cfg.userThreshold && counts.ip > cfg.ipThreshold
    requires forall k :: k in st.cooldown ==>
               k.subject != Cooldown.UserSubject(r.asAuth.value.userId)
                   && k.subject != Cooldown.IpSubject(SanitizeIp(r.asAuth.value.ip))
    ensures var a := r.asAuth.value;
            var counts := AuthWindows.CheckCounts(st.logins, a, cfg.authWindow);
            HandleBatch(cfg, env, st, [r]).emitted ==
            [Stuffing(Origin(r), a, UserScope, counts.user), Stuffing(Origin(r), a, IpScope, counts.ip)]
  {
    var a := r.asAuth.value;
    var counts := AuthWindows.CheckCounts(st.logins, a, cfg.authWindow);
    FailedLogin(cfg, env, st, r);
    BothAreApart(st.cooldown, Origin(r), a, counts);
    assert Stuffings(cfg, Origin(r), a, counts) ==
           [Stuffing(Origin(r), a, UserScope, counts.user), Stuffing(Origin(r), a, IpScope, counts.ip)];
  }

  lemma {:induction false} BothAreApart(store: Cooldown.Store, ref: Ref, a: Auth, counts: AuthWindows.Counts)
    requires a.ip != ""
    requires forall k :: k in store ==>
               k.subject != Cooldown.UserSubject(a.userId) && k.subject != Cooldown.IpSubject(SanitizeIp(a.ip))
    ensures var ds := [Stuffing(ref, a, UserScope, counts.user), Stuffing(ref, a, IpScope, counts.ip)];
            Cooldown.Winners(store, ds) == ds
  {
    Cooldown.ApartAllWin(store, [Stuffing(ref, a, UserScope, counts.user), Stuffing(ref, a, IpScope, counts.ip)]);
  }

  ghost function About(ref: Ref, tx: Events.Tx, dtype: DetectionType, e: Evidence, source: Source): Detection {
    Detection(DetectionId(ref, dtype, NoScope), dtype, tx.userId, tx.eventId, None, NoScope, e, source)
  }

  /** The script's answer to the record's delivery. */
  ghost function ScriptSays(cfg: Config, st: Stores, r: Record): Tx.TxResult
    requires r.asTx.Some?
  {
    Tx.CheckResult(cfg.check, st.checks, r.asTx.value, Origin(r))
  }

  /** What the detectors make of an answer: replay, geo, burst, each with its own evidence. */
  ghost function Alarms(cfg: Config, ref: Ref, tx: Events.Tx, res: Tx.TxResult): seq<Detection> {
    var g := res.geo;
    (if res.status == Tx.Replay then [About(ref, tx, ReplayAttack, FirstSeen(res.stored), AsyncDetector)] else [])
    + (if g.status == Tx.Anomaly
       then [About(ref, tx, GeoVelocityAnomaly, Travel(g.distance, g.elapsed, g.velocity, g.from, tx.position),
           AsyncDetector)]
       else [])
    + (if res.burstCount > cfg.burstThreshold then [About(ref, tx, FraudBurst, InWindow(res.burstCount),
        AsyncDetector)] else [])
  }

  /** A transaction that the script scores. */
  lemma ScoredTransaction(cfg: Config, env: Env, st: Stores, r: Record)
    requires r.topic != cfg.authTopic && Accepted(cfg, r) && !UnderRule(cfg, env, r)
    requires ScriptSays(cfg, st, r).status != Tx.Prescored
    ensures Comes(cfg, st, HandleBatch(cfg, env, st, [r]), Alarms(cfg, Origin(r), r.asTx.value, ScriptSays(cfg, st, r)),
                  Tx.Check(cfg.check, st.checks, r.asTx.value, Origin(r)), st.logins)
  {
    var it := Item(Transaction(r.asTx.value), Origin(r));
    OneItem(cfg, env, st, r, it);
    AlarmsAreCandidates(cfg, it, r.asTx.value, ScriptSays(cfg, st, r));
  }

  lemma AlarmsAreCandidates(cfg: Config, it: Item, tx: Events.Tx, res: Tx.TxResult)
    requires it.event == Transaction(tx)
    ensures Identify(it, InterpretTx(cfg, tx, res)) == Alarms(cfg, it.ref, tx, res)
  {
  }

  /** What a stored decision says about the transaction, reason by reason. */
  ghost function Restated(ref: Ref, tx: Events.Tx, verdict: Verdict, reasons: seq<Reason>): seq<Detection> {
    if reasons == [] then []
    else
      var x := reasons[|reasons| - 1];
      Restated(ref, tx, verdict, reasons[..|reasons| - 1])
      + if x.kind.Detector? && x.kind.dtype in {ReplayAttack, GeoVelocityAnomaly, FraudBurst}
        then [About(ref, tx, x.kind.dtype, x.evidence, DecisionService(verdict))] else []
  }

  lemma {:induction false} RestatedAreCandidates(it: Item, tx: Events.Tx, verdict: Verdict, reasons: seq<Reason>)
    requires it.event == Transaction(tx)
    ensures Identify(it, FromReasons(verdict, reasons)) == Restated(it.ref, tx, verdict, reasons)
    decreases |reasons|
  {
    if reasons != [] {
      var n := |reasons| - 1;
      RestatedAreCandidates(it, tx, verdict, reasons[..n]);
      var before := FromReasons(verdict, reasons[..n]);
      assert forall f :: Identify(it, before + [f]) == Identify(it, before) + [WithStableId(it, f)];
    }
  }

  /** A transaction that the decision service has scored: nothing moves, and its stored reasons are restated. */
  lemma PrescoredTransaction(cfg: Config, env: Env, st: Stores, r: Record, ds: seq<Detection>)
    requires r.topic != cfg.authTopic && Accepted(cfg, r) && !UnderRule(cfg, env, r)
    requires ScriptSays(cfg, st, r).status == Tx.Prescored
    requires match Lookup(env.decisions, r.asTx.value.eventId)
             case None => ds == []
             case Some(a) => ds == Restated(Origin(r), r.asTx.value, a.verdict, a.reasons)
    ensures Comes(cfg, st, HandleBatch(cfg, env, st, [r]), ds, st.checks, st.logins)
  {
    var it := Item(Transaction(r.asTx.value), Origin(r));
    OneItem(cfg, env, st, r, it);
    var stored := Lookup(env.decisions, r.asTx.value.eventId);
    if stored.Some? { RestatedAreCandidates(it, r.asTx.value, stored.value.verdict, stored.value.reasons); }
    assert CheckedItem(cfg, env, st, it) == TxChecked(ScriptSays(cfg, st, r));
  }

  // ---------------------------------------------------------------- what is refused and what is rejected

  lemma {:induction false} ItemsAreTheAccepted(cfg: Config, rs: seq<Record>, it: Item)
    ensures it in ItemsOf(cfg, rs) <==>
            exists i :: 0 <= i < |rs| && Accepted(cfg, rs[i]) && it == Item(EventOf(cfg, rs[i]), Origin(rs[i]))
  {
    if it in ItemsOf(cfg, rs) {
      ItemsComeFromRecords(cfg, rs, it);
      var i :| 0 <= i < |rs| && Validate(cfg, rs[i]) == Some(it);
      assert Accepted(cfg, rs[i]) && it == Item(EventOf(cfg, rs[i]), Origin(rs[i]));
    }
    if i :| 0 <= i < |rs| && Accepted(cfg, rs[i]) && it == Item(EventOf(cfg, rs[i]), Origin(rs[i])) {
      AcceptedIsItem(cfg, rs, i);
    }
  }

  lemma {:induction false} AcceptedIsItem(cfg: Config, rs: seq<Record>, i: nat)
    requires i < |rs| && Accepted(cfg, rs[i])
    ensures Item(EventOf(cfg, rs[i]), Origin(rs[i])) in ItemsOf(cfg, rs)
    decreases |rs|
  {
    if i < |rs| - 1 { AcceptedIsItem(cfg, rs[..|rs| - 1], i); }
  }

  lemma {:induction false} BlockedAre(env: Env, its: seq<Item>, it: Item)
    ensures it in BlockedOf(env, its) <==> it in its && Blocked(env, it)
    decreases |its|
  {
    if its != [] {
      var n := |its| - 1;
      BlockedAre(env, its[..n], it);
      assert it in its <==> it in its[..n] || it == its[n];
    }
  }

  /** In any batch, a record fails iff it is not accepted, and is refused iff it is and a rule applies. */
  lemma {:induction false} RefusedAndRejected(cfg: Config, env: Env, st: Stores, rs: seq<Record>, it: Item, i: nat)
    ensures var out := HandleBatch(cfg, env, st, rs);
            && (i in out.failures <==> i < |rs| && !Accepted(cfg, rs[i]))
            && (it in out.refused <==>
                  exists j :: && 0 <= j < |rs| && Accepted(cfg, rs[j]) && UnderRule(cfg, env, rs[j])
                              && it == Item(EventOf(cfg, rs[j]), Origin(rs[j])))
  {
    BlockedAre(env, ItemsOf(cfg, rs), it);
    ItemsAreTheAccepted(cfg, rs, it);
    if it in ItemsOf(cfg, rs) && Blocked(env, it) {
      var j :| 0 <= j < |rs| && Accepted(cfg, rs[j]) && it == Item(EventOf(cfg, rs[j]), Origin(rs[j]));
      assert UnderRule(cfg, env, rs[j]);
    }
  }
}
