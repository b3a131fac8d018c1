/** The two engines' own glue: what each hands to the loop as its handler. */
module Services {
  import opened Wrappers
  import opened Events
  import opened KafkaProducer
  import opened Messages
  import opened BatchHandling
  import Pipeline
  import DetectionPipeline
  import Cooldown
  import Laws = BatchLaws
  import Containment
  import Worker = ContainmentWorker

  function DetectionBodies(ds: seq<Detection>): seq<Body> {
    seq(|ds|, i requires 0 <= i < |ds| => DetectionMsg(ds[i]))
  }

  function RefusalBodies(its: seq<Pipeline.Item>): seq<Body> {
    seq(|its|, i requires 0 <= i < |its| => RefusalMsg(its[i]))
  }

  /** What the detection engine sends for a batch: refusals as they are found, then detections. */
  function BodiesOf(out: Pipeline.Outcome): seq<Body> {
    RefusalBodies(out.refused) + DetectionBodies(out.emitted)
  }

  /** Every refusal is audited once, in order, and then every detection is sent once, in order. */
  lemma WhatIsSent(out: Pipeline.Outcome)
    ensures var bodies, n := BodiesOf(out), |out.refused|;
            && |bodies| == n + |out.emitted|
            && (forall i :: 0 <= i < n ==> bodies[i] == RefusalMsg(out.refused[i]))
            && (forall i :: 0 <= i < |out.emitted| ==> bodies[n + i] == DetectionMsg(out.emitted[i]))
            && |Outputs(bodies)| == |bodies| && forall i :: 0 <= i < |bodies| ==>
                Outputs(bodies)[i] == Output(bodies[i])
  {
  }

  /** Where Redis fails during a batch, if it does. */
  datatype Cut = Nowhere | InEnforcement | InChecks(items: nat)

  /** How many items have been through the scripts when an attempt ends without delivery. */
  function Checked(cut: Cut, items: nat): (n: nat)
    ensures n <= items
  {
    match cut
    case Nowhere => items
    case InEnforcement => 0
    case InChecks(k) => if k < items then k else items
  }

  /** What has been sent by then. */
  function SentBy(cut: Cut, out: Pipeline.Outcome): seq<Body> {
    match cut
    case Nowhere => BodiesOf(out)
    case InEnforcement => []
    case InChecks(_) => RefusalBodies(out.refused)
  }

  /**
   * The detection engine's handler: run the pipeline, confirm delivery, and give the
   * cooldown claims back if delivery failed. None is the error that is raised, from Redis
   * or from the failed delivery.
   *
   * Kept claims therefore mean acknowledged detections, and a failed attempt leaves the
   * cooldown store exactly as it found it.
   */
  method HandleDetectionBatch(engine: DetectionPipeline.Engine, p: Producer<Msg>, env: Pipeline.Env,
                              rs: seq<Pipeline.Record>,
                              cut: Cut, timesOut: bool)
    returns (failures: Option<set<nat>>)
    requires p.Valid()
    modifies engine, engine.transactions, engine.logins, engine.cooldown, p
    ensures p.Valid() && Evolves(old(p.sent), old(p.status), p.sent, p.status)
    ensures var out, items := Pipeline.HandleBatch(engine.cfg, env, old(engine.State()), rs),
              Pipeline.ItemsOf(engine.cfg, rs);
            && p.sent == old(p.sent) + Outputs(SentBy(cut, out))
            && (failures.Some? ==> cut.Nowhere? && failures.value == out.failures && engine.State() == out.stores)
            && (failures.None? ==>
                  engine.State() == Pipeline.CheckAll(engine.cfg, env, old(engine.State()),
                      items[..Checked(cut, |items|)]))
            && (failures.None? ==> engine.cooldown.store == old(engine.cooldown.store))
    ensures failures.Some? ==> !p.lastError && forall mark: nat :: mark <= |old(p.sent)| && old(p.Latched(mark)) ==>
              p.AllAcked(mark)
    ensures failures.None? ==> !cut.Nowhere? || timesOut || old(p.lastError) || FailedSince(old(p.status), p.status)
  {
    ghost var st := engine.State();
    ghost var items, out := Pipeline.ItemsOf(engine.cfg, rs), Pipeline.HandleBatch(engine.cfg, env, st, rs);
    var seen := |engine.refused|;
    if cut.InEnforcement? {
      return None;
    }
    if cut.InChecks? {
      var valid, _ := engine.ValidateAll(rs);
      engine.HandleCut(env, rs, Checked(cut, |valid|));
      p.SendAll(Outputs(RefusalBodies(engine.refused[seen..])));
      assert engine.refused[seen..] == out.refused;
      Laws.ChecksIgnoreCooldown(engine.cfg, env, st, items[..Checked(cut, |items|)], st.cooldown);
      return None;
    }
    var delivered, failed, claimed := engine.Handle(env, rs);
    var ok := Deliver(p, engine.refused[seen..], delivered, timesOut, out);
    if ok {
      return Some(failed);
    }
    Cooldown.ReleaseUndoesClaim(st.cooldown, Pipeline.Candidates(engine.cfg, env, st, items),
        engine.cfg.cooldownSeconds);
    Laws.ChecksIgnoreCooldown(engine.cfg, env, st, items, st.cooldown);
    assert items[..|items|] == items;
    engine.cooldown.ReleaseCooldown(claimed);
    failures := None;
  }

  /** Sends what a batch has produced and waits for its delivery. */
  method Deliver(p: Producer<Msg>, refused: seq<Pipeline.Item>, delivered: seq<Detection>, timesOut: bool,
                 ghost out: Pipeline.Outcome)
    returns (ok: bool)
    requires p.Valid() && refused == out.refused && delivered == out.emitted
    modifies p
    ensures p.Valid() && Evolves(old(p.sent), old(p.status), p.sent, p.status)
    ensures p.sent == old(p.sent) + Outputs(BodiesOf(out))
    ensures ok ==> !p.lastError && forall mark: nat :: mark <= |old(p.sent)| && old(p.Latched(mark)) ==>
              p.AllAcked(mark)
    ensures !ok ==> timesOut || old(p.lastError) || FailedSince(old(p.status), p.status)
  {
    p.SendAll(Outputs(RefusalBodies(refused)));
    ghost var sent, status := p.sent, p.status;
    p.SendAll(Outputs(DetectionBodies(delivered)));
    Blame(old(p.sent), old(p.status), sent, status, p.sent, p.status);
    assert Outputs(BodiesOf(out)) == Outputs(RefusalBodies(out.refused)) + Outputs(DetectionBodies(out.emitted));
    sent, status := p.sent, p.status;
    ok := p.FlushAndVerify(timesOut);
    Blame(old(p.sent), old(p.status), sent, status, p.sent, p.status);
  }

  /** The containment engine's handler: apply, then audit the actions actually in force. */
  method HandleDetection(redis: Worker.Redis, p: Producer<Msg>, d: Detection, ttls: Containment.Ttls,
                         schedule: seq<seq<Worker.Foreign>>)
    returns (actions: seq<Containment.Action>, used: nat)
    requires p.Valid()
    modifies redis, p
    ensures used <= |schedule| && p.Valid()
    ensures var before := Worker.ApplyAll(old(redis.db), Worker.Upto(schedule, used));
            && redis.db == Containment.ApplyAtomic(before, d, ttls)
            && actions == Containment.AtomicActions(before, d, ttls)
    ensures p.sent == old(p.sent) + [Output(AuditMsg(d, actions))]
  {
    var retries;
    actions, retries, used := Worker.ApplyContainment(redis, d, ttls, schedule);
    p.Send(Output(AuditMsg(d, actions)));
  }
}
