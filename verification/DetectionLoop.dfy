/**
 * The detection engine inside the consumer loop: BatchHandling's retry loop with the real
 * handler in the place of a scripted one. It meets the same contract, for the attempts
 * that the pipeline's own behaviour amounts to, and more can be said about it.
 */
module DetectionLoop {
  import opened Wrappers
  import opened Events
  import opened KafkaProducer
  import opened Messages
  import opened BatchHandling
  import opened Services
  import Pipeline
  import DetectionPipeline
  import Cooldown
  import Laws = BatchLaws
  import Rerun = BatchRerun
  import Tx = TxCheck
  import Runs = TxRuns
  import Identity

  /** The record as the pipeline sees it. */
  function RecordOf(r: Rec): Pipeline.Record {
    var v := if r.payload.Readable? then r.payload.value else Value(None, None, None);
    Pipeline.Record(r.tp.topic, r.tp.partition, r.offset, v.asTx, v.asAuth)
  }

  function RecordsOf(rs: seq<Rec>): seq<Pipeline.Record> {
    seq(|rs|, i requires 0 <= i < |rs| => RecordOf(rs[i]))
  }

  function ItemsIn(cfg: Pipeline.Config, rs: seq<Rec>): seq<Pipeline.Item> {
    Pipeline.ItemsOf(cfg, RecordsOf(Decoded(rs)))
  }

  /** What is given from outside: rules and decisions, where Redis fails, which flush times out, shutdown. */
  datatype Try = Try(env: Pipeline.Env, cut: Cut, handlerTimesOut: bool, gateTimesOut: bool, shutdown: bool)

  function OutcomeOf(cfg: Pipeline.Config, st: Pipeline.Stores, rs: seq<Rec>, t: Try): Pipeline.Outcome {
    Pipeline.HandleBatch(cfg, t.env, st, RecordsOf(Decoded(rs)))
  }

  /** The attempt of the consumer loop that a pipeline run from the given stores amounts to. */
  function AsAttempt(cfg: Pipeline.Config, st: Pipeline.Stores, rs: seq<Rec>, t: Try): Attempt {
    var out := OutcomeOf(cfg, st, rs, t);
    Attempt(SentBy(t.cut, out), true, if t.cut.Nowhere? then Handled(out.failures) else TransientError,
            t.handlerTimesOut || t.gateTimesOut, t.shutdown)
  }

  // ---------------------------------------------------------------- what backs a cooldown claim

  /** Detections that other processes have delivered, and keys that other running processes hold. */
  datatype Others = Others(delivered: set<Detection>, held: set<Cooldown.Key>)

  /** The message is on the broker. */
  ghost predicate Delivered(sent: seq<Msg>, status: seq<Status>, m: Msg)
    requires |sent| == |status|
  {
    exists i :: 0 <= i < |sent| && sent[i] == m && status[i] == Acked
  }

  /** A detection of that type for that subject is on the broker, or another process is seeing to it. */
  ghost predicate Backed(others: Others, sent: seq<Msg>, status: seq<Status>, k: Cooldown.Key)
    requires |sent| == |status|
  {
    || k in others.held
    || exists d :: Cooldown.KeyOf(d) == k && (d in others.delivered || Delivered(sent, status, Output(DetectionMsg(d))))
  }

  ghost predicate ClaimsBacked(others: Others, store: Cooldown.Store, sent: seq<Msg>, status: seq<Status>)
    requires |sent| == |status|
  {
    forall k :: k in store ==> Backed(others, sent, status, k)
  }

  lemma BackedLasts(others: Others, a: seq<Msg>, s: seq<Status>, b: seq<Msg>, t: seq<Status>, k: Cooldown.Key)
    requires |a| == |s| && |b| == |t| && Evolves(a, s, b, t) && Backed(others, a, s, k)
    ensures Backed(others, b, t, k)
  {
    if k !in others.held {
      var d :| Cooldown.KeyOf(d) == k && (d in others.delivered || Delivered(a, s, Output(DetectionMsg(d))));
      if d !in others.delivered {
        var i :| 0 <= i < |a| && a[i] == Output(DetectionMsg(d)) && s[i] == Acked;
        assert b[i] == Output(DetectionMsg(d)) && t[i] == Acked;
        assert Delivered(b, t, Output(DetectionMsg(d)));
      }
    }
  }

  lemma ClaimsStayBacked(others: Others, store: Cooldown.Store, a: seq<Msg>, s: seq<Status>, b: seq<Msg>,
                         t: seq<Status>)
    requires |a| == |s| && |b| == |t| && Evolves(a, s, b, t) && ClaimsBacked(others, store, a, s)
    ensures ClaimsBacked(others, store, b, t)
  {
    forall k | k in store ensures Backed(others, b, t, k) {
      BackedLasts(others, a, s, b, t, k);
    }
  }

  /** The detections are on the broker, one after the other. */
  ghost predicate OnBroker(sent: seq<Msg>, status: seq<Status>, at: nat, ds: seq<Detection>)
    requires |sent| == |status|
  {
    at + |ds| <= |sent| && forall i :: 0 <= i < |ds| ==>
        sent[at + i] == Output(DetectionMsg(ds[i])) && status[at + i] == Acked
  }

  lemma OnBrokerLasts(at: nat, ds: seq<Detection>, a: seq<Msg>, s: seq<Status>, b: seq<Msg>, t: seq<Status>)
    requires |a| == |s| && |b| == |t| && Evolves(a, s, b, t) && OnBroker(a, s, at, ds)
    ensures OnBroker(b, t, at, ds)
  {
    forall i | 0 <= i < |ds| ensures b[at + i] == Output(DetectionMsg(ds[i])) && t[at + i] == Acked {
      assert a[at + i] == Output(DetectionMsg(ds[i])) && s[at + i] == Acked;
    }
  }

  lemma BodiesAreOnBroker(sent: seq<Msg>, out: Pipeline.Outcome, sent': seq<Msg>, status': seq<Status>)
    requires |sent'| == |status'| && sent' == sent + Outputs(BodiesOf(out))
    requires forall i :: |sent| <= i < |sent'| ==> status'[i] == Acked
    ensures OnBroker(sent', status', |sent| + |out.refused|, out.emitted)
  {
    var at := |sent| + |out.refused|;
    forall i | 0 <= i < |out.emitted|
        ensures sent'[at + i] == Output(DetectionMsg(out.emitted[i])) && status'[at + i] == Acked {
      assert BodiesOf(out)[|out.refused| + i] == DetectionBodies(out.emitted)[i];
      assert sent'[at + i] == Outputs(BodiesOf(out))[|out.refused| + i];
    }
  }

  /** New claims are those of the detections just delivered. */
  lemma {:induction false} NewClaimsBacked(others: Others, store: Cooldown.Store, cands: seq<Detection>, seconds: int,
                                           sent: seq<Msg>, status: seq<Status>, at: nat)
    requires |sent| == |status| && ClaimsBacked(others, store, sent, status)
    requires OnBroker(sent, status, at, Cooldown.Filtered(store, cands, seconds))
    ensures ClaimsBacked(others, Cooldown.AfterFilter(store, cands, seconds), sent, status)
    ensures forall d :: d in cands ==> Backed(others, sent, status, Cooldown.KeyOf(d))
    ensures seconds <= 0 ==> forall d :: d in cands ==> Delivered(sent, status, Output(DetectionMsg(d)))
  {
    var won := Cooldown.Filtered(store, cands, seconds);
    forall i | 0 <= i < |won|
      ensures Delivered(sent, status, Output(DetectionMsg(won[i])))
                && Backed(others, sent, status, Cooldown.KeyOf(won[i]))
    {
      assert sent[at + i] == Output(DetectionMsg(won[i]));
    }
    if seconds > 0 {
      Cooldown.ClaimsMatchWinners(store, cands);
      forall k | k in Cooldown.AfterFilter(store, cands, seconds) ensures Backed(others, sent, status, k) {
        if k !in store {
          var i :| 0 <= i < |won| && Cooldown.KeysOf(won)[i] == k;
        }
      }
    }
  }

  // ---------------------------------------------------------------- one attempt

  /** Every candidate is on the broker or backed by another detection of its type and subject. */
  ghost predicate CandidatesBacked(cfg: Pipeline.Config, others: Others, cands: seq<Detection>, sent: seq<Msg>,
                                   status: seq<Status>)
    requires |sent| == |status|
  {
    && (forall d :: d in cands ==> Backed(others, sent, status, Cooldown.KeyOf(d)))
    && (cfg.cooldownSeconds <= 0 ==> forall d :: d in cands ==> Delivered(sent, status, Output(DetectionMsg(d))))
  }

  function CandidatesOf(cfg: Pipeline.Config, st: Pipeline.Stores, rs: seq<Rec>, t: Try): seq<Detection> {
    Pipeline.Candidates(cfg, t.env, st, ItemsIn(cfg, rs))
  }

  lemma CooldownPart(cfg: Pipeline.Config, st: Pipeline.Stores, rs: seq<Rec>, t: Try)
    ensures var out, cands := OutcomeOf(cfg, st, rs, t), CandidatesOf(cfg, st, rs, t);
            && out.emitted == Cooldown.Filtered(st.cooldown, cands, cfg.cooldownSeconds)
            && out.stores.cooldown == Cooldown.AfterFilter(st.cooldown, cands, cfg.cooldownSeconds)
  {
  }

  /** The script stores after some of the batch's items, whatever has become of the cooldown. */
  ghost predicate Scripted(cfg: Pipeline.Config, env: Pipeline.Env, st: Pipeline.Stores, its: seq<Pipeline.Item>,
                           n: nat, now: Pipeline.Stores) {
    n <= |its| && now == Pipeline.CheckAll(cfg, env, st, its[..n]).(cooldown := now.cooldown)
  }

  lemma WholeIsScripted(cfg: Pipeline.Config, st: Pipeline.Stores, rs: seq<Rec>, t: Try)
    ensures var its := ItemsIn(cfg, rs); Scripted(cfg, t.env, st, its, |its|, OutcomeOf(cfg, st, rs, t).stores)
  {
    var its := ItemsIn(cfg, rs);
    assert its[..|its|] == its;
  }

  lemma NothingDecoded(cfg: Pipeline.Config, st: Pipeline.Stores, rs: seq<Rec>, t: Try)
    requires Decoded(rs) == []
    ensures var out := OutcomeOf(cfg, st, rs, t);
            out.stores == st && out.failures == {} && BodiesOf(out) == [] && CandidatesOf(cfg, st, rs, t) == []
  {
    assert RecordsOf([]) == [];
  }

  lemma DeliveredBatch(cfg: Pipeline.Config, others: Others, st: Pipeline.Stores, rs: seq<Rec>, t: Try, at: nat,
                       sent: seq<Msg>, status: seq<Status>)
    requires |sent| == |status| && ClaimsBacked(others, st.cooldown, sent, status)
    requires OnBroker(sent, status, at, OutcomeOf(cfg, st, rs, t).emitted)
    ensures ClaimsBacked(others, OutcomeOf(cfg, st, rs, t).stores.cooldown, sent, status)
    ensures CandidatesBacked(cfg, others, CandidatesOf(cfg, st, rs, t), sent, status)
  {
    CooldownPart(cfg, st, rs, t);
    NewClaimsBacked(others, st.cooldown, CandidatesOf(cfg, st, rs, t), cfg.cooldownSeconds, sent, status, at);
  }

  /** The handler, given something to handle. */
  method HandleDecoded(engine: DetectionPipeline.Engine, p: Producer<Msg>, rs: seq<Rec>, decoded: seq<Rec>, t: Try,
                       ghost others: Others)
    returns (report: Report, ghost ran: nat, ghost at: nat)
    requires p.Valid() && decoded == Decoded(rs) && decoded != []
             && ClaimsBacked(others, engine.cooldown.store, p.sent, p.status)
    modifies engine, engine.transactions, engine.logins, engine.cooldown, p
    ensures p.Valid() && Evolves(old(p.sent), old(p.status), p.sent, p.status)
    ensures p.sent == old(p.sent) + Outputs(AsAttempt(engine.cfg, old(engine.State()), rs, t).sends)
    ensures ClaimsBacked(others, engine.cooldown.store, p.sent, p.status)
    ensures Scripted(engine.cfg, t.env, old(engine.State()), ItemsIn(engine.cfg, rs), ran, engine.State())
    ensures report != TransientError ==>
              && report == AsAttempt(engine.cfg, old(engine.State()), rs, t).report
              && engine.State() == OutcomeOf(engine.cfg, old(engine.State()), rs, t).stores
              && OnBroker(p.sent, p.status, at, OutcomeOf(engine.cfg, old(engine.State()), rs, t).emitted)
              && !p.lastError && p.AllAcked(|old(p.sent)|)
    ensures report == TransientError ==>
              Doomed(AsAttempt(engine.cfg, old(engine.State()), rs, t)) || old(p.lastError)
              || FailedSince(old(p.status), p.status)
  {
    ghost var sent, status, st := p.sent, p.status, engine.State();
    ghost var out, its := OutcomeOf(engine.cfg, st, rs, t), ItemsIn(engine.cfg, rs);
    var failures := HandleDetectionBatch(engine, p, t.env, RecordsOf(decoded), t.cut, t.handlerTimesOut);
    ClaimsStayBacked(others, st.cooldown, sent, status, p.sent, p.status);
    ran, at := Checked(t.cut, |its|), |sent| + |out.refused|;
    if failures.None? {
      return TransientError, ran, at;
    }
    assert p.AllAcked(|sent|);
    BodiesAreOnBroker(sent, out, p.sent, p.status);
    DeliveredBatch(engine.cfg, others, st, rs, t, at, p.sent, p.status);
    WholeIsScripted(engine.cfg, st, rs, t);
    report := Handled(failures.value);
  }

  /** What the handler's half of an attempt has left behind when it did not fail. */
  ghost predicate HandlerDone(cfg: Pipeline.Config, st: Pipeline.Stores, rs: seq<Rec>, t: Try, at: nat,
                              now: Pipeline.Stores, sent: seq<Msg>, status: seq<Status>, report: Report)
    requires |sent| == |status|
  {
    && report == ReportOf(AsAttempt(cfg, st, rs, t), rs) != TransientError
    && now == OutcomeOf(cfg, st, rs, t).stores
    && OnBroker(sent, status, at, OutcomeOf(cfg, st, rs, t).emitted)
  }

  /** The handler's half of an attempt; without decoded records the handler is not called. */
  method Handle(engine: DetectionPipeline.Engine, p: Producer<Msg>, rs: seq<Rec>, decoded: seq<Rec>, t: Try,
                ghost others: Others)
    returns (report: Report, ghost ran: nat, ghost at: nat)
    requires p.Valid() && decoded == Decoded(rs) && ClaimsBacked(others, engine.cooldown.store, p.sent, p.status)
             && !p.lastError
    modifies engine, engine.transactions, engine.logins, engine.cooldown, p
    ensures p.Valid() && Evolves(old(p.sent), old(p.status), p.sent, p.status)
    ensures ClaimsBacked(others, engine.cooldown.store, p.sent, p.status)
    ensures Scripted(engine.cfg, t.env, old(engine.State()), ItemsIn(engine.cfg, rs), ran, engine.State())
    ensures report != TransientError ==>
              && HandlerDone(engine.cfg, old(engine.State()), rs, t, at, engine.State(), p.sent, p.status, report)
              && p.sent == old(p.sent) + (if decoded != [] then Outputs(AsAttempt(engine.cfg, old(engine.State()), rs,
                  t).sends) else [])
              && !p.lastError && p.AllAcked(|old(p.sent)|)
    ensures report == TransientError ==>
              Doomed(AsAttempt(engine.cfg, old(engine.State()), rs, t)) || FailedSince(old(p.status), p.status)
  {
    if |decoded| > 0 {
      report, ran, at := HandleDecoded(engine, p, rs, decoded, t, others);
    } else {
      NothingDecoded(engine.cfg, engine.State(), rs, t);
      WholeIsScripted(engine.cfg, engine.State(), rs, t);
      report, ran, at := Handled({}), |ItemsIn(engine.cfg, rs)|, |p.sent|;
    }
  }

  /** The attempt succeeded: the consumer loop's contract, and every candidate is seen to. */
  ghost predicate Succeeded(cfg: Pipeline.Config, others: Others, st: Pipeline.Stores, rs: seq<Rec>, t: Try,
                            processed: seq<Rec>, dead: seq<Rec>, now: Pipeline.Stores, sent: seq<Msg>,
                                status: seq<Status>)
    requires |sent| == |status|
  {
    var report := ReportOf(AsAttempt(cfg, st, rs, t), rs);
    && report != TransientError
    && processed == ProcessedBy(Decoded(rs), report)
    && dead == DeadBy(rs, report)
    && now == OutcomeOf(cfg, st, rs, t).stores
    && CandidatesBacked(cfg, others, CandidatesOf(cfg, st, rs, t), sent, status)
  }

  /** One attempt: the handler and the common gate. */
  method TryOnce(engine: DetectionPipeline.Engine, p: Producer<Msg>, rs: seq<Rec>, decoded: seq<Rec>, bad: seq<Rec>,
                 t: Try, ghost others: Others)
    returns (done: bool, processed: seq<Rec>, dead: seq<Rec>, ghost mark: nat, ghost ran: nat)
    requires p.Valid() && decoded == Decoded(rs) && bad == Undecoded(rs)
             && ClaimsBacked(others, engine.cooldown.store, p.sent, p.status)
    modifies engine, engine.transactions, engine.logins, engine.cooldown, p
    ensures p.Valid() && Evolves(old(p.sent), old(p.status), p.sent, p.status)
    ensures ClaimsBacked(others, engine.cooldown.store, p.sent, p.status)
    ensures Scripted(engine.cfg, t.env, old(engine.State()), ItemsIn(engine.cfg, rs), ran, engine.State())
    ensures done ==>
              && Succeeded(engine.cfg, others, old(engine.State()), rs, t, processed, dead, engine.State(), p.sent,
                  p.status)
              && Durable(p, mark, AsAttempt(engine.cfg, old(engine.State()), rs, t), rs, true)
    ensures !done ==> Doomed(AsAttempt(engine.cfg, old(engine.State()), rs, t)) || FailedSince(old(p.status), p.status)
  {
    ghost var st := engine.State();
    p.ResetSendErrors();
    ghost var sent0, status0 := p.sent, p.status;
    mark := |p.sent|;
    done, processed, dead := false, [], bad;
    var report;
    ghost var at;
    report, ran, at := Handle(engine, p, rs, decoded, t, others);
    if report == TransientError {
      return;
    }
    ghost var sent, status, now := p.sent, p.status, engine.State();
    done, processed, dead := Gate(p, rs, decoded, bad, true, report, t.gateTimesOut);
    assert engine.State() == now;
    Blame(sent0, status0, sent, status, p.sent, p.status);
    ClaimsStayBacked(others, now.cooldown, sent, status, p.sent, p.status);
    if done {
      GateProduces(engine.cfg, st, rs, t, at, now, sent0, sent, status, report, p.sent);
      GateKeepsCandidates(engine.cfg, others, st, rs, t, at, sent0, status0, sent, status, p.sent, p.status);
    }
  }

  lemma GateProduces(cfg: Pipeline.Config, st: Pipeline.Stores, rs: seq<Rec>, t: Try, at: nat, now: Pipeline.Stores,
                     sent0: seq<Msg>, sent1: seq<Msg>, status1: seq<Status>, report: Report, sent: seq<Msg>)
    requires |sent1| == |status1| && HandlerDone(cfg, st, rs, t, at, now, sent1, status1, report)
    requires sent1 == sent0 + if Decoded(rs) != [] then Outputs(AsAttempt(cfg, st, rs, t).sends) else []
    requires sent == sent1 + Letters(DeadBy(rs, report))
    ensures |sent0| <= |sent| && sent[|sent0|..] == Produced(AsAttempt(cfg, st, rs, t), rs, true)
  {
  }

  lemma GateKeepsCandidates(cfg: Pipeline.Config, others: Others, st: Pipeline.Stores, rs: seq<Rec>, t: Try, at: nat,
                            sent0: seq<Msg>, status0: seq<Status>, sent1: seq<Msg>, status1: seq<Status>,
                                sent: seq<Msg>, status: seq<Status>)
    requires |sent0| == |status0| && |sent1| == |status1| && |sent| == |status|
    requires Evolves(sent0, status0, sent1, status1) && Evolves(sent1, status1, sent, status)
    requires ClaimsBacked(others, st.cooldown, sent0, status0)
    requires OnBroker(sent1, status1, at, OutcomeOf(cfg, st, rs, t).emitted)
    ensures CandidatesBacked(cfg, others, CandidatesOf(cfg, st, rs, t), sent, status)
  {
    ClaimsStayBacked(others, st.cooldown, sent0, status0, sent1, status1);
    ClaimsStayBacked(others, st.cooldown, sent1, status1, sent, status);
    OnBrokerLasts(at, OutcomeOf(cfg, st, rs, t).emitted, sent1, status1, sent, status);
    DeliveredBatch(cfg, others, st, rs, t, at, sent, status);
  }

  // ---------------------------------------------------------------- the retry loop

  /** All tries find the same rules and decisions, and the batch's timestamps are in order. */
  ghost predicate Repeatable(cfg: Pipeline.Config, rs: seq<Rec>, tries: seq<Try>) {
    && Tx.ValidConfig(cfg.check)
    && forall i :: 0 <= i < |tries| ==>
        tries[i].env == tries[0].env && Runs.InOrderPerUser(Rerun.Scripted(tries[0].env, ItemsIn(cfg, rs)))
  }

  /** Running the batch's scripts now leads where running them at the start would have. */
  ghost predicate SameScripts(cfg: Pipeline.Config, env: Pipeline.Env, its: seq<Pipeline.Item>,
                              start: Pipeline.Stores, now: Pipeline.Stores) {
    Pipeline.CheckAll(cfg, env, now, its).(cooldown := start.cooldown) == Pipeline.CheckAll(cfg, env, start, its)
  }

  lemma {:induction false} CutKeepsScripts(cfg: Pipeline.Config, env: Pipeline.Env, its: seq<Pipeline.Item>,
                                           start: Pipeline.Stores,
                                           st: Pipeline.Stores, n: nat, now: Pipeline.Stores)
    requires Tx.ValidConfig(cfg.check) && Runs.InOrderPerUser(Rerun.Scripted(env, its))
    requires SameScripts(cfg, env, its, start, st) && Scripted(cfg, env, st, its, n, now)
    ensures SameScripts(cfg, env, its, start, now)
  {
    var part := Pipeline.CheckAll(cfg, env, st, its[..n]);
    Rerun.InterruptedChecksRepeat(cfg, env, st, its, n);
    Laws.ChecksIgnoreCooldown(cfg, env, part, its, now.cooldown);
  }

  /** An attempt has run the scripts of some of the batch's items. */
  ghost predicate LeadsTo(cfg: Pipeline.Config, rs: seq<Rec>, t: Try, st: Pipeline.Stores, now: Pipeline.Stores) {
    exists n :: Scripted(cfg, t.env, st, ItemsIn(cfg, rs), n, now)
  }

  ghost predicate OnTrack(cfg: Pipeline.Config, rs: seq<Rec>, tries: seq<Try>, start: Pipeline.Stores,
                          now: Pipeline.Stores)
    requires |tries| > 0
  {
    Repeatable(cfg, rs, tries) ==> SameScripts(cfg, tries[0].env, ItemsIn(cfg, rs), start, now)
  }

  lemma StartsOnTrack(cfg: Pipeline.Config, rs: seq<Rec>, tries: seq<Try>, start: Pipeline.Stores)
    requires |tries| > 0
    ensures OnTrack(cfg, rs, tries, start, start)
  {
    Laws.ChecksIgnoreCooldown(cfg, tries[0].env, start, ItemsIn(cfg, rs), start.cooldown);
  }

  /** The stores each attempt so far has started from, and where the last one has ended. */
  ghost predicate Series(cfg: Pipeline.Config, rs: seq<Rec>, tries: seq<Try>, sts: seq<Pipeline.Stores>,
                         start: Pipeline.Stores, now: Pipeline.Stores) {
    && |sts| <= |tries|
    && (if sts == [] then now == start else sts[0] == start && LeadsTo(cfg, rs, tries[|sts| - 1], sts[|sts| - 1], now))
    && forall i :: 0 < i < |sts| ==> LeadsTo(cfg, rs, tries[i - 1], sts[i - 1], sts[i])
  }

  lemma SeriesGrows(cfg: Pipeline.Config, rs: seq<Rec>, tries: seq<Try>, sts: seq<Pipeline.Stores>,
                    start: Pipeline.Stores,
                    now: Pipeline.Stores, next: Pipeline.Stores)
    requires Series(cfg, rs, tries, sts, start, now) && |sts| < |tries| && LeadsTo(cfg, rs, tries[|sts|], now, next)
    ensures Series(cfg, rs, tries, sts + [now], start, next)
    ensures (sts + [now])[0] == start
  {
  }

  /** The first attempt failed for a reason of its own, or some message has failed since. */
  ghost predicate Excused(cfg: Pipeline.Config, rs: seq<Rec>, tries: seq<Try>, start: Pipeline.Stores,
                          before: seq<Status>, status: seq<Status>)
    requires |tries| > 0
  {
    Doomed(AsAttempt(cfg, start, rs, tries[0])) || FailedSince(before, status)
  }

  /** No shutdown was requested in the first n backoffs. */
  ghost predicate NoShutdown(tries: seq<Try>, n: nat)
    requires n <= |tries|
  {
    forall k :: 0 <= k < n ==> !tries[k].shutdown
  }

  /** What holds between the attempts of a series. */
  ghost predicate Trying(cfg: Pipeline.Config, others: Others, rs: seq<Rec>, tries: seq<Try>, sts: seq<Pipeline.Stores>,
                         start: Pipeline.Stores, before: seq<Status>, now: Pipeline.Stores, sent: seq<Msg>,
                             status: seq<Status>)
    requires |sent| == |status|
  {
    && ClaimsBacked(others, now.cooldown, sent, status)
    && Series(cfg, rs, tries, sts, start, now)
    && (|sts| > 0 ==> Excused(cfg, rs, tries, start, before, status))
    && (|tries| > 0 ==> OnTrack(cfg, rs, tries, start, now))
  }

  /** One more attempt of a series. */
  method TryAgain(engine: DetectionPipeline.Engine, p: Producer<Msg>, rs: seq<Rec>, decoded: seq<Rec>, bad: seq<Rec>,
                  t: Try,
                  ghost tries: seq<Try>, ghost others: Others, ghost sts: seq<Pipeline.Stores>,
                      ghost start: Pipeline.Stores, ghost before: seq<Status>)
    returns (done: bool, processed: seq<Rec>, dead: seq<Rec>, ghost mark: nat)
    requires p.Valid() && decoded == Decoded(rs) && bad == Undecoded(rs)
    requires Trying(engine.cfg, others, rs, tries, sts, start, before, engine.State(), p.sent, p.status)
    requires |sts| < |tries| && t == tries[|sts|] && |before| <= |p.status|
    requires forall i :: 0 <= i < |before| && before[i] != Pending ==> p.status[i] == before[i]
    modifies engine, engine.transactions, engine.logins, engine.cooldown, p
    ensures p.Valid() && Evolves(old(p.sent), old(p.status), p.sent, p.status)
    ensures ClaimsBacked(others, engine.cooldown.store, p.sent, p.status)
    ensures Series(engine.cfg, rs, tries, sts + [old(engine.State())], start, engine.State())
    ensures |sts| > 0 ==> Excused(engine.cfg, rs, tries, start, before, p.status)
    ensures !done ==> Trying(engine.cfg, others, rs, tries, sts + [old(engine.State())], start, before,
              engine.State(), p.sent, p.status)
    ensures done ==>
              && Succeeded(engine.cfg, others, old(engine.State()), rs, t, processed, dead, engine.State(), p.sent,
                  p.status)
              && Durable(p, mark, AsAttempt(engine.cfg, old(engine.State()), rs, t), rs, true)
              && (Repeatable(engine.cfg, rs, tries) ==>
                    engine.State() == OutcomeOf(engine.cfg, start, rs, tries[0]).stores.(cooldown :=
                        engine.cooldown.store))
  {
    ghost var sent0, status0, st, ran := p.sent, p.status, engine.State(), 0;
    done, processed, dead, mark, ran := TryOnce(engine, p, rs, decoded, bad, t, others);
    SeriesGrows(engine.cfg, rs, tries, sts, start, st, engine.State());
    ExcuseGrows(engine.cfg, rs, tries, sts, start, before, sent0, status0, p.sent, p.status);
    Track(engine.cfg, rs, tries, t, start, st, ran, engine.State());
    if done && Repeatable(engine.cfg, rs, tries) {
      EndsAsOneRun(engine.cfg, start, st, rs, tries[0], t, engine.State());
    }
  }

  lemma Track(cfg: Pipeline.Config, rs: seq<Rec>, tries: seq<Try>, t: Try, start: Pipeline.Stores,
              st: Pipeline.Stores, ran: nat, now: Pipeline.Stores)
    requires t in tries && OnTrack(cfg, rs, tries, start, st) && Scripted(cfg, t.env, st, ItemsIn(cfg, rs), ran, now)
    ensures OnTrack(cfg, rs, tries, start, now)
    ensures Repeatable(cfg, rs, tries) ==> t.env == tries[0].env
  {
    if Repeatable(cfg, rs, tries) {
      CutKeepsScripts(cfg, tries[0].env, ItemsIn(cfg, rs), start, st, ran, now);
    }
  }

  lemma ExcuseGrows(cfg: Pipeline.Config, rs: seq<Rec>, tries: seq<Try>, sts: seq<Pipeline.Stores>,
                    start: Pipeline.Stores, before: seq<Status>,
                    a: seq<Msg>, s: seq<Status>, b: seq<Msg>, t: seq<Status>)
    requires |a| == |s| && |b| == |t| && Evolves(a, s, b, t) && |before| <= |s| && |tries| > 0
    requires forall i :: 0 <= i < |before| && before[i] != Pending ==> s[i] == before[i]
    requires |sts| > 0 ==> Excused(cfg, rs, tries, start, before, s)
    ensures |sts| > 0 ==> Excused(cfg, rs, tries, start, before, t)
    ensures FailedSince(s, t) ==> FailedSince(before, t)
  {
    if FailedSince(before, s) { FailureLasts(before, a, s, b, t); }
    if FailedSince(s, t) {
      var i :| 0 <= i < |t| && t[i] == Failed && (i >= |s| || s[i] == Pending);
      assert i >= |before| || before[i] == Pending;
    }
  }

  /**
   * Retries a batch until it is delivered. It keeps the consumer loop's contract for the
   * attempts that the tries amount to. Moreover every cooldown claim stays backed, and
   * when the batch is done so is every candidate of the successful attempt: the broker
   * holds a detection of its type for its subject, from this process or another, or a
   * running process is seeing to it; without a cooldown the broker holds the candidate
   * itself. Attempts cut short anywhere leave no trace in the script stores.
   */
  method HandleBatchWithRetry(engine: DetectionPipeline.Engine, p: Producer<Msg>, rs: seq<Rec>, tries: seq<Try>,
                              ghost others: Others)
    returns (outcome: Outcome, ghost mark: nat, ghost sts: seq<Pipeline.Stores>)
    requires p.Valid() && ClaimsBacked(others, engine.cooldown.store, p.sent, p.status)
    modifies engine, engine.transactions, engine.logins, engine.cooldown, p
    ensures p.Valid() && Evolves(old(p.sent), old(p.status), p.sent, p.status)
    ensures ClaimsBacked(others, engine.cooldown.store, p.sent, p.status)
    ensures Series(engine.cfg, rs, tries, sts, old(engine.State()), engine.State())
    ensures outcome.NothingToDo? <==> Decoded(rs) == [] && Undecoded(rs) == []
    ensures outcome.NothingToDo? ==> sts == []
    ensures outcome.StillRetrying? ==> |sts| == |tries| && NoShutdown(tries, |tries|)
    ensures outcome.ShutdownRequested? ==>
              outcome.attempt + 1 == |sts| && NoShutdown(tries, outcome.attempt) && tries[outcome.attempt].shutdown
    ensures outcome.Returned? ==> outcome.attempt + 1 == |sts| && NoShutdown(tries, outcome.attempt)
    ensures |sts| > 1 || (outcome.ShutdownRequested? || (outcome.StillRetrying? && |tries| > 0)) ==>
              Excused(engine.cfg, rs, tries, old(engine.State()), old(p.status), p.status)
    ensures outcome.Returned? ==>
              && Durable(p, mark, AsAttempt(engine.cfg, sts[outcome.attempt], rs, tries[outcome.attempt]), rs, true)
              && Succeeded(engine.cfg, others, sts[outcome.attempt], rs, tries[outcome.attempt], outcome.processed,
                  outcome.dead,
                           engine.State(), p.sent, p.status)
    ensures outcome.Returned? && Repeatable(engine.cfg, rs, tries) ==>
              engine.State() == OutcomeOf(engine.cfg, old(engine.State()), rs, tries[0]).stores.(cooldown :=
                  engine.cooldown.store)
  {
    ghost var st := engine.State();
    mark, sts := 0, [];
    var decoded, bad := DecodeAll(rs);
    if |decoded| == 0 && |bad| == 0 {
      return NothingToDo, mark, sts;
    }
    if |tries| > 0 {
      StartsOnTrack(engine.cfg, rs, tries, st);
    }
    for n := 0 to |tries|
      invariant p.Valid() && Evolves(old(p.sent), old(p.status), p.sent, p.status)
      invariant |sts| == n && NoShutdown(tries, n)
      invariant Trying(engine.cfg, others, rs, tries, sts, st, old(p.status), engine.State(), p.sent, p.status)
    {
      ghost var before := engine.State();
      ghost var m;
      var done, processed, dead;
      done, processed, dead, m :=
          TryAgain(engine, p, rs, decoded, bad, tries[n], tries, others, sts, st, old(p.status));
      sts := sts + [before];
      if done {
        return Returned(n, processed, dead), m, sts;
      }
      if tries[n].shutdown {
        return ShutdownRequested(n), mark, sts;
      }
    }
    outcome := StillRetrying;
  }

  lemma EndsAsOneRun(cfg: Pipeline.Config, start: Pipeline.Stores, before: Pipeline.Stores, rs: seq<Rec>, t0: Try,
                     t: Try, now: Pipeline.Stores)
    requires t.env == t0.env && SameScripts(cfg, t.env, ItemsIn(cfg, rs), start, before)
    requires now == OutcomeOf(cfg, before, rs, t).stores
    ensures now == OutcomeOf(cfg, start, rs, t0).stores.(cooldown := now.cooldown)
  {
  }

  /** The records a whole attempt dead-letters are those that do not decode or do not validate. */
  lemma {:induction false} InvalidIsDeadLettered(cfg: Pipeline.Config, st: Pipeline.Stores, rs: seq<Rec>, t: Try,
                                                 i: nat)
    requires t.cut.Nowhere? && i < |rs|
    ensures var report := ReportOf(AsAttempt(cfg, st, rs, t), rs);
            var invalid := rs[i].payload.Undecodable?
                || (rs[i].payload.Readable? && Pipeline.Validate(cfg, RecordOf(rs[i])).None?);
            && (ClassOf(rs, report, i) == DeadLettered <==> invalid)
            && (invalid ==> rs[i] in DeadBy(rs, report))
  {
    var a := AsAttempt(cfg, st, rs, t);
    var decoded, k := Decoded(rs), |Decoded(rs[..i])|;
    if rs[i].payload.Readable? {
      IndexNamesOriginal(rs, i);
      assert RecordsOf(decoded)[k] == RecordOf(rs[i]);
      assert k in Pipeline.FailuresOf(cfg, RecordsOf(decoded)) <==> Pipeline.Validate(cfg, RecordOf(rs[i])).None?;
      assert ReportOf(a, rs) == Handled(Pipeline.FailuresOf(cfg, RecordsOf(decoded)));
    }
    ClassHasRecord(rs, ReportOf(a, rs), i);
  }

  /** The pipeline sees a record under its own topic, partition and offset, with its own values. */
  lemma RecordIsSeenAs(r: Rec)
    ensures Identity.RefText(Pipeline.RecordRef(RecordOf(r))) ==
            r.tp.topic + ":" + Identity.Decimal(r.tp.partition) + ":" + Identity.Decimal(r.offset)
    ensures RecordOf(r).topic == r.tp.topic
    ensures r.payload.Readable? ==>
              RecordOf(r).asTx == r.payload.value.asTx && RecordOf(r).asAuth == r.payload.value.asAuth
  {
  }
}
