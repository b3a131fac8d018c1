/**
 * common/kafka_client.py: asynchronous sends whose failures are latched on the producer,
 * and the flush that refuses to go on while an error is latched.
 *
 * The broker's behaviour is nondeterministic: a pending send may be acknowledged or may
 * fail at any moment.
 */
module KafkaProducer {

  datatype Status = Pending | Acked | Failed

  /** Settled sends stay settled; sent messages are never forgotten. */
  ghost predicate Evolves<M>(sent: seq<M>, status: seq<Status>, sent': seq<M>, status': seq<Status>)
    requires |sent| == |status| && |sent'| == |status'|
  {
    && sent <= sent'
    && forall i :: 0 <= i < |status| && status[i] != Pending ==> status'[i] == status[i]
  }

  /** Some send that was still open, or not yet made, has failed since. */
  ghost predicate FailedSince(before: seq<Status>, status: seq<Status>) {
    exists i :: 0 <= i < |status| && status[i] == Failed && (i >= |before| || before[i] == Pending)
  }

  lemma FailureLasts<M>(before: seq<Status>, a: seq<M>, s: seq<Status>, b: seq<M>, t: seq<Status>)
    requires |a| == |s| && |b| == |t| && Evolves(a, s, b, t) && FailedSince(before, s)
    ensures FailedSince(before, t)
  {
    var i :| 0 <= i < |s| && s[i] == Failed && (i >= |before| || before[i] == Pending);
    assert t[i] == Failed;
  }

  lemma FailureIsNewer<M>(a: seq<M>, s: seq<Status>, b: seq<M>, t: seq<Status>, status: seq<Status>)
    requires |a| == |s| && |b| == |t| && Evolves(a, s, b, t) && FailedSince(t, status)
    ensures FailedSince(s, status)
  {
    var i :| 0 <= i < |status| && status[i] == Failed && (i >= |t| || t[i] == Pending);
    assert i >= |s| || s[i] == Pending;
  }

  /** A failure in either of two successive phases is a failure of the whole. */
  lemma Blame<M>(a: seq<M>, s: seq<Status>, b: seq<M>, t: seq<Status>, c: seq<M>, u: seq<Status>)
    requires |a| == |s| && |b| == |t| && |c| == |u| && Evolves(a, s, b, t) && Evolves(b, t, c, u)
    ensures FailedSince(s, t) || FailedSince(t, u) ==> FailedSince(s, u)
  {
    if FailedSince(s, t) { FailureLasts(s, b, t, c, u); }
    if FailedSince(t, u) { FailureIsNewer(a, s, b, t, u); }
  }

  lemma ExtendFailure(before: seq<Status>, status: seq<Status>, s: Status)
    ensures FailedSince(before, status) ==> FailedSince(before, status + [s])
    ensures s == Failed && (|status| >= |before| || before[|status|] == Pending) ==> FailedSince(before, status + [s])
  {
    var after := status + [s];
    assert after[|status|] == s;
    if i :| 0 <= i < |status| && status[i] == Failed && (i >= |before| || before[i] == Pending) {
      assert after[i] == Failed;
    }
  }

  class Producer<M> {
    /** Every message ever handed over, with what became of it. */
    var sent: seq<M>
    var status: seq<Status>
    /** _rtace_last_error is set. */
    var lastError: bool

    ghost predicate Valid()
      reads this
    {
      |sent| == |status|
    }

    /** No failure since mark has gone unnoticed. */
    ghost predicate Latched(mark: nat)
      requires Valid()
      reads this
    {
      forall i :: mark <= i < |status| && status[i] == Failed ==> lastError
    }

    ghost predicate AllAcked(mark: nat)
      requires Valid()
      reads this
    {
      forall i :: mark <= i < |status| ==> status[i] == Acked
    }

    constructor ()
      ensures Valid() && sent == [] && !lastError
    {
      sent, status, lastError := [], [], false;
    }

    /** The I/O thread settles some pending sends; every failure runs the error callback. */
    method Background()
      requires Valid()
      modifies this`status, this`lastError
      ensures Valid() && Evolves(old(sent), old(status), sent, status)
      ensures forall mark: nat :: old(Latched(mark)) ==> Latched(mark)
      ensures lastError ==> old(lastError) || FailedSince(old(status), status)
    {
      for i := 0 to |status|
        invariant Valid() && Evolves(old(sent), old(status), sent, status)
        invariant forall mark: nat :: old(Latched(mark)) ==> Latched(mark)
        invariant forall j :: i <= j < |status| ==> status[j] == old(status)[j]
        invariant lastError ==> old(lastError) || FailedSince(old(status), status[..i])
      {
        ghost var done := status[..i];
        var resolve: bool := *;
        var ack: bool := *;
        if status[i] == Pending && resolve {
          status := status[i := if ack then Acked else Failed];
          if !ack {
            lastError := true;
          }
        }
        assert status[..i + 1] == done + [status[i]];
        ExtendFailure(old(status), done, status[i]);
      }
      assert status[..|status|] == status;
    }

    /** Enqueue; a refused enqueue latches the error at once. */
    method Send(m: M)
      requires Valid()
      modifies this
      ensures Valid() && sent == old(sent) + [m]
      ensures Evolves(old(sent), old(status), sent, status)
      ensures forall mark: nat :: mark <= |old(sent)| && old(Latched(mark)) ==> Latched(mark)
      ensures lastError ==> old(lastError) || FailedSince(old(status), status)
    {
      Background();
      ghost var before := status;
      var accepted: bool := *;
      sent := sent + [m];
      if accepted {
        status := status + [Pending];
      } else {
        status := status + [Failed];
        lastError := true;
      }
      ExtendFailure(old(status), before, status[|before|]);
    }

    /** Sends a list of messages; the error latch keeps watching from any earlier mark. */
    method SendAll(ms: seq<M>)
      requires Valid()
      modifies this
      ensures Valid() && sent == old(sent) + ms
      ensures Evolves(old(sent), old(status), sent, status)
      ensures forall mark: nat :: mark <= |old(sent)| && old(Latched(mark)) ==> Latched(mark)
      ensures lastError ==> old(lastError) || FailedSince(old(status), status)
    {
      for i := 0 to |ms|
        invariant Valid() && sent == old(sent) + ms[..i]
        invariant Evolves(old(sent), old(status), sent, status)
        invariant forall mark: nat :: mark <= |old(sent)| && old(Latched(mark)) ==> Latched(mark)
        invariant lastError ==> old(lastError) || FailedSince(old(status), status)
      {
        ghost var before, settled := sent, status;
        Send(ms[i]);
        Blame(old(sent), old(status), before, settled, sent, status);
      }
    }

    method ResetSendErrors()
      requires Valid()
      modifies this`lastError
      ensures Valid() && !lastError && Latched(|sent|)
    {
      lastError := false;
    }

    /**
     * Waits until nothing is pending, then refuses if any failure is latched. Success
     * means that every message since any watched mark is acknowledged; refusal has a cause.
     */
    method FlushAndVerify(timesOut: bool) returns (ok: bool)
      requires Valid()
      modifies this`status, this`lastError
      ensures Valid() && Evolves(old(sent), old(status), sent, status)
      ensures ok ==> !timesOut && !lastError && forall mark: nat :: old(Latched(mark)) ==> AllAcked(mark)
      ensures !ok ==> timesOut || (!lastError && (old(lastError) || FailedSince(old(status), status)))
    {
      if timesOut {
        Background();
        return false;
      }
      for i := 0 to |status|
        invariant Valid() && Evolves(old(sent), old(status), sent, status)
        invariant forall mark: nat :: old(Latched(mark)) ==> Latched(mark)
        invariant forall j :: 0 <= j < i ==> status[j] != Pending
        invariant forall j :: i <= j < |status| ==> status[j] == old(status)[j]
        invariant lastError ==> old(lastError) || FailedSince(old(status), status[..i])
      {
        ghost var done := status[..i];
        if status[i] == Pending {
          var ack: bool := *;
          status := status[i := if ack then Acked else Failed];
          if !ack {
            lastError := true;
          }
        }
        assert status[..i + 1] == done + [status[i]];
        ExtendFailure(old(status), done, status[i]);
      }
      assert status[..|status|] == status;
      ok := !lastError;
      if lastError {
        lastError := false;
      }
    }
  }
}
