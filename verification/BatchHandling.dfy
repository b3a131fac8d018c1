/**
 * common/consumer_loop.py, one batch: decode once, then handle, dead-letter and flush
 * until an attempt is durable or shutdown is requested.
 *
 * Each attempt's handler behaviour is an input, so every handler and every sequence of
 * transient failures is covered; a list of attempts that runs out stands for a batch that
 * is still being retried.
 */
module BatchHandling {
  import opened KafkaProducer
  import opened Messages

  /** What the handler reports: permanent failures by index, or an exception. */
  datatype Report = Handled(failures: set<nat>) | TransientError | UnexpectedError

  /**
   * One attempt: what the handler sends, whether it then flushes and verifies by itself,
   * what it reports, whether a flush times out, and whether shutdown is requested by the
   * time of a backoff.
   */
  datatype Attempt = Attempt(sends: seq<Body>, flushes: bool, report: Report, timesOut: bool, shutdown: bool)

  /** An attempt that cannot succeed whatever the broker does with its messages. */
  predicate Doomed(a: Attempt) { a.report == TransientError || a.timesOut }

  datatype Outcome =
    | Returned(attempt: nat, processed: seq<Rec>, dead: seq<Rec>)
    | NothingToDo
    | ShutdownRequested(attempt: nat)
    | StillRetrying

  /** How many attempts an outcome took. */
  function Tried(outcome: Outcome, attempts: seq<Attempt>): (n: nat)
    requires (outcome.Returned? || outcome.ShutdownRequested?) ==> outcome.attempt < |attempts|
    ensures n <= |attempts|
  {
    match outcome
    case Returned(n, _, _) => n + 1
    case NothingToDo => 0
    case ShutdownRequested(n) => n + 1
    case StillRetrying => |attempts|
  }

  // ---------------------------------------------------------------- classification

  function Decoded(rs: seq<Rec>): seq<Rec> {
    if rs == [] then []
    else
      var r := rs[|rs| - 1];
      if r.payload.Readable? then Decoded(rs[..|rs| - 1]) + [r] else Decoded(rs[..|rs| - 1])
  }

  function Undecoded(rs: seq<Rec>): seq<Rec> {
    if rs == [] then []
    else
      var r := rs[|rs| - 1];
      if r.payload.Undecodable? then Undecoded(rs[..|rs| - 1]) + [r] else Undecoded(rs[..|rs| - 1])
  }

  /** Elements at the given positions, or at the others. */
  function Pick(rs: seq<Rec>, at: set<nat>, chosen: bool): seq<Rec> {
    if rs == [] then []
    else
      var n := |rs| - 1;
      if (n in at) == chosen then Pick(rs[..n], at, chosen) + [rs[n]] else Pick(rs[..n], at, chosen)
  }

  function ProcessedBy(decoded: seq<Rec>, report: Report): seq<Rec> {
    match report
    case Handled(failures) => Pick(decoded, failures, false)
    case _ => []
  }

  function FailedBy(decoded: seq<Rec>, report: Report): seq<Rec> {
    match report
    case Handled(failures) => Pick(decoded, failures, true)
    case _ => decoded
  }

  function DeadBy(rs: seq<Rec>, report: Report): seq<Rec> {
    Undecoded(rs) + FailedBy(Decoded(rs), report)
  }

  function Outputs(sends: seq<Body>): seq<Msg> {
    seq(|sends|, i requires 0 <= i < |sends| => Output(sends[i]))
  }

  function Letters(dead: seq<Rec>): seq<Msg> {
    seq(|dead|, i requires 0 <= i < |dead| => DeadLetter(dead[i]))
  }

  /** What the final attempt handed to the producer, in order. */
  function Produced(a: Attempt, rs: seq<Rec>, dlq: bool): seq<Msg> {
    (if Decoded(rs) != [] then Outputs(a.sends) else []) + (if dlq then Letters(DeadBy(rs, ReportOf(a, rs))) else [])
  }

  /** With nothing decoded the handler is not called. */
  function ReportOf(a: Attempt, rs: seq<Rec>): Report {
    if Decoded(rs) == [] then Handled({}) else a.report
  }

  // ---------------------------------------------------------------- the retry loop

  method DecodeAll(rs: seq<Rec>) returns (decoded: seq<Rec>, bad: seq<Rec>)
    ensures decoded == Decoded(rs) && bad == Undecoded(rs)
  {
    decoded, bad := [], [];
    for i := 0 to |rs|
      invariant decoded == Decoded(rs[..i]) && bad == Undecoded(rs[..i])
    {
      assert rs[..i + 1][..i] == rs[..i];
      match rs[i].payload {
        case Undecodable => bad := bad + [rs[i]];
        case Tombstone =>
        case Readable(_) => decoded := decoded + [rs[i]];
      }
    }
    assert rs[..|rs|] == rs;
  }

  /** Handler failure indices refer to the decoded list. */
  method Classify(decoded: seq<Rec>, failures: set<nat>) returns (processed: seq<Rec>, failed: seq<Rec>)
    ensures processed == Pick(decoded, failures, false) && failed == Pick(decoded, failures, true)
  {
    processed, failed := [], [];
    for i := 0 to |decoded|
      invariant processed == Pick(decoded[..i], failures, false) && failed == Pick(decoded[..i], failures, true)
    {
      assert decoded[..i + 1][..i] == decoded[..i];
      if i in failures {
        failed := failed + [decoded[i]];
      } else {
        processed := processed + [decoded[i]];
      }
    }
    assert decoded[..|decoded|] == decoded;
  }

  /** One call of the handler: the decoded records it was given, and what it then did. */
  datatype Invocation = Invocation(records: seq<Rec>, attempt: Attempt)

  /** The handler is called with the same records in every attempt, and not at all without any. */
  function Invocations(decoded: seq<Rec>, attempts: seq<Attempt>): seq<Invocation> {
    if decoded == [] then [] else seq(|attempts|, i requires 0 <= i < |attempts| => Invocation(decoded, attempts[i]))
  }

  /** The service's handler; calls is everything it has ever been asked to do. */
  class Handler {
    var calls: seq<Invocation>

    constructor ()
      ensures calls == []
    {
      calls := [];
    }

    /**
     * The handler's sends and, for the detection engine, its own flush: a failed delivery
     * is re-raised as a transient error.
     */
    method Call(p: Producer<Msg>, decoded: seq<Rec>, a: Attempt) returns (report: Report)
      requires p.Valid()
      modifies this, p
      ensures calls == old(calls) + [Invocation(decoded, a)]
      ensures p.Valid() && p.sent == old(p.sent) + Outputs(a.sends)
      ensures Evolves(old(p.sent), old(p.status), p.sent, p.status)
      ensures report == a.report || report == TransientError
      ensures report != TransientError ==>
                forall mark: nat :: mark <= |old(p.sent)| && old(p.Latched(mark)) ==> p.Latched(mark)
      ensures report == TransientError ==> Doomed(a) || old(p.lastError) || FailedSince(old(p.status), p.status)
      ensures report != TransientError && p.lastError ==> old(p.lastError) || FailedSince(old(p.status), p.status)
    {
      calls := calls + [Invocation(decoded, a)];
      p.SendAll(Outputs(a.sends));
      report := a.report;
      if a.flushes {
        ghost var sent, status := p.sent, p.status;
        var ok := p.FlushAndVerify(a.timesOut);
        Blame(old(p.sent), old(p.status), sent, status, p.sent, p.status);
        assert ok ==> forall mark: nat :: mark <= |old(p.sent)| && old(p.Latched(mark)) ==> p.AllAcked(mark);
        if !ok {
          report := TransientError;
        }
      }
    }
  }

  /** How handling one record ended. */
  datatype RecordResult = Fine | Transient | Permanent

  /**
   * per_record: a permanent failure is charged to its own index; a transient one is
   * re-raised at once and the remaining records are not tried.
   */
  method PerRecord(results: seq<RecordResult>) returns (report: Report, tried: nat)
    ensures tried <= |results|
    ensures report.TransientError? <==> Transient in results
    ensures report.TransientError? ==>
              tried > 0 && results[tried - 1] == Transient && Transient !in results[..tried - 1]
    ensures !report.TransientError? ==>
              tried == |results| && report == Handled(set i | 0 <= i < |results| && results[i] == Permanent)
  {
    var failures: set<nat> := {};
    for i := 0 to |results|
      invariant failures == set j | 0 <= j < i && results[j] == Permanent
      invariant Transient !in results[..i]
    {
      match results[i] {
        case Fine =>
        case Transient => return TransientError, i + 1;
        case Permanent => failures := failures + {i};
      }
    }
    return Handled(failures), |results|;
  }

  ghost predicate Durable(p: Producer<Msg>, mark: nat, a: Attempt, rs: seq<Rec>, dlq: bool)
    requires p.Valid()
    reads p
  {
    mark <= |p.sent| && p.sent[mark..] == Produced(a, rs, dlq) && p.AllAcked(mark)
  }

  /**
   * On return every record is accounted for by the attempt that succeeded, and everything
   * that attempt produced is acknowledged. The first attempt is that attempt unless its
   * handler failed transiently, a flush timed out or a message failed. The handler is
   * called once per attempt, always with the decoded records.
   */
  method HandleBatchWithRetry(h: Handler, p: Producer<Msg>, rs: seq<Rec>, dlq: bool, attempts: seq<Attempt>)
    returns (outcome: Outcome, ghost mark: nat)
    requires p.Valid()
    modifies h, p
    ensures p.Valid() && Evolves(old(p.sent), old(p.status), p.sent, p.status)
    ensures outcome.Returned? || outcome.ShutdownRequested? ==> outcome.attempt < |attempts|
    ensures h.calls == old(h.calls) + Invocations(Decoded(rs), attempts[..Tried(outcome, attempts)])
    ensures outcome.Returned? ==>
              var a := attempts[outcome.attempt];
                 && ReportOf(a, rs) != TransientError
                 && outcome.processed == ProcessedBy(Decoded(rs), ReportOf(a, rs))
                 && outcome.dead == DeadBy(rs, ReportOf(a, rs))
                 && Durable(p, mark, a, rs, dlq)
    ensures outcome.NothingToDo? <==> Decoded(rs) == [] && Undecoded(rs) == []
    ensures outcome.ShutdownRequested? ==> attempts[outcome.attempt].shutdown
    ensures forall n :: 0 <= n < Tried(outcome, attempts) && (outcome.StillRetrying? || n < outcome.attempt) ==>
              !attempts[n].shutdown
    ensures outcome.Returned? && outcome.attempt > 0 ==> Doomed(attempts[0]) || FailedSince(old(p.status), p.status)
    ensures outcome.ShutdownRequested? || outcome.StillRetrying? ==>
              attempts == [] || Doomed(attempts[0]) || FailedSince(old(p.status), p.status)
  {
    mark := 0;
    var decoded, bad := DecodeAll(rs);
    if decoded == [] && bad == [] {
      return NothingToDo, mark;
    }
    for n := 0 to |attempts|
      invariant p.Valid() && Evolves(old(p.sent), old(p.status), p.sent, p.status)
      invariant h.calls == old(h.calls) + Invocations(decoded, attempts[..n])
      invariant forall k :: 0 <= k < n ==> !attempts[k].shutdown
      invariant n > 0 ==> Doomed(attempts[0]) || FailedSince(old(p.status), p.status)
    {
      ghost var sent, status := p.sent, p.status;
      var done, processed, dead, m := TryOnce(h, p, rs, decoded, bad, dlq, attempts[n]);
      assert Invocations(decoded, attempts[..n]) + Invocations(decoded, [attempts[n]]) ==
          Invocations(decoded, attempts[..n + 1]);
      Blame(old(p.sent), old(p.status), sent, status, p.sent, p.status);
      if done {
        return Returned(n, processed, dead), m;
      }
      if attempts[n].shutdown {
        return ShutdownRequested(n), mark;
      }
    }
    assert attempts[..|attempts|] == attempts;
    outcome := StillRetrying;
  }

  /** Which decoded records an attempt processed and which it must dead-letter. */
  method Sort(decoded: seq<Rec>, report: Report) returns (processed: seq<Rec>, failed: seq<Rec>)
    requires report != TransientError
    ensures processed == ProcessedBy(decoded, report) && failed == FailedBy(decoded, report)
  {
    if report == UnexpectedError {
      return [], decoded;
    }
    processed, failed := Classify(decoded, report.failures);
  }

  /** After the handler: dead letters and the durability gate. */
  method Gate(p: Producer<Msg>, rs: seq<Rec>, decoded: seq<Rec>, bad: seq<Rec>, dlq: bool, report: Report,
              timesOut: bool)
    returns (done: bool, processed: seq<Rec>, dead: seq<Rec>)
    requires p.Valid() && decoded == Decoded(rs) && bad == Undecoded(rs) && report != TransientError
    modifies p
    ensures p.Valid() && Evolves(old(p.sent), old(p.status), p.sent, p.status)
    ensures processed == ProcessedBy(decoded, report) && dead == DeadBy(rs, report)
    ensures p.sent == old(p.sent) + if dlq then Letters(dead) else []
    ensures done ==> forall mark: nat :: mark <= |old(p.sent)| && old(p.Latched(mark)) ==> p.AllAcked(mark)
    ensures !done ==> timesOut || old(p.lastError) || FailedSince(old(p.status), p.status)
  {
    var failed;
    processed, failed := Sort(decoded, report);
    dead := bad + failed;
    if dlq {
      p.SendAll(Letters(dead));
    }
    ghost var sent, status := p.sent, p.status;
    done := p.FlushAndVerify(timesOut);
    Blame(old(p.sent), old(p.status), sent, status, p.sent, p.status);
    assert done ==> forall mark: nat :: mark <= |old(p.sent)| && old(p.Latched(mark)) ==> p.AllAcked(mark);
  }

  /** One turn of the retry loop; done is false when the loop must back off. */
  method TryOnce(h: Handler, p: Producer<Msg>, rs: seq<Rec>, decoded: seq<Rec>, bad: seq<Rec>, dlq: bool, a: Attempt)
    returns (done: bool, processed: seq<Rec>, dead: seq<Rec>, ghost mark: nat)
    requires p.Valid() && decoded == Decoded(rs) && bad == Undecoded(rs)
    modifies h, p
    ensures p.Valid() && Evolves(old(p.sent), old(p.status), p.sent, p.status)
    ensures h.calls == old(h.calls) + Invocations(decoded, [a])
    ensures done ==>
              && ReportOf(a, rs) != TransientError
              && processed == ProcessedBy(decoded, ReportOf(a, rs))
              && dead == DeadBy(rs, ReportOf(a, rs))
              && Durable(p, mark, a, rs, dlq)
    ensures !done ==> Doomed(a) || FailedSince(old(p.status), p.status)
  {
    done, processed, dead := false, [], bad;
    p.ResetSendErrors();
    mark := |p.sent|;
    var report := Handled({});
    ghost var sent, status := p.sent, p.status;
    if decoded != [] {
      report := h.Call(p, decoded, a);
      if report == TransientError {
        return;
      }
    }
    assert report == ReportOf(a, rs);
    sent, status := p.sent, p.status;
    done, processed, dead := Gate(p, rs, decoded, bad, dlq, report, a.timesOut);
    assert p.sent[mark..] == Produced(a, rs, dlq);
    Blame(old(p.sent), old(p.status), sent, status, p.sent, p.status);
  }

  // ---------------------------------------------------------------- conservation

  datatype Class = Skipped | Processed | DeadLettered

  /** The class of a record that comes after the given number of decoded ones. */
  function ClassAfter(decodedBefore: nat, r: Rec, report: Report): Class {
    match r.payload
    case Tombstone => Skipped
    case Undecodable => DeadLettered
    case Readable(_) => if report.Handled? && decodedBefore !in report.failures then Processed else DeadLettered
  }

  /** The class of the i-th record of a batch under an attempt's report. */
  function ClassOf(rs: seq<Rec>, report: Report, i: nat): Class
    requires i < |rs|
  {
    ClassAfter(|Decoded(rs[..i])|, rs[i], report)
  }

  function Select(rs: seq<Rec>, report: Report, c: Class): seq<Rec> {
    if rs == [] then []
    else
      var n := |rs| - 1;
      if ClassOf(rs, report, n) == c then Select(rs[..n], report, c) + [rs[n]] else Select(rs[..n], report, c)
  }

  /** A failure index names the same record before and after tombstones and garbage are filtered out. */
  lemma {:induction false} IndexNamesOriginal(rs: seq<Rec>, i: nat)
    requires i < |rs| && rs[i].payload.Readable?
    ensures var k := |Decoded(rs[..i])|; k < |Decoded(rs)| && Decoded(rs)[k] == rs[i]
    decreases |rs|
  {
    var n := |rs| - 1;
    if i < n {
      assert rs[..n][..i] == rs[..i];
      IndexNamesOriginal(rs[..n], i);
    }
  }

  function One(r: Rec, count: bool): multiset<Rec> {
    if count then multiset{r} else multiset{}
  }

  lemma SelectStep(rs: seq<Rec>, report: Report, c: Class)
    requires rs != []
    ensures var n := |rs| - 1;
            multiset(Select(rs, report, c)) ==
                multiset(Select(rs[..n], report, c)) + One(rs[n], ClassOf(rs, report, n) == c)
  {
  }

  lemma FailedStep(decoded: seq<Rec>, r: Rec, report: Report)
    ensures multiset(FailedBy(decoded + [r], report)) ==
            multiset(FailedBy(decoded, report)) + One(r, !(report.Handled? && |decoded| !in report.failures))
  {
    assert (decoded + [r])[..|decoded|] == decoded;
  }

  lemma DeadStep(rs: seq<Rec>, report: Report)
    requires rs != []
    ensures var n := |rs| - 1;
            multiset(DeadBy(rs, report)) ==
                multiset(DeadBy(rs[..n], report)) + One(rs[n], ClassOf(rs, report, n) == DeadLettered)
  {
    var n := |rs| - 1;
    var before := Decoded(rs[..n]);
    assert multiset(DeadBy(rs, report)) == multiset(Undecoded(rs)) + multiset(FailedBy(Decoded(rs), report));
    assert multiset(DeadBy(rs[..n], report)) == multiset(Undecoded(rs[..n])) + multiset(FailedBy(before, report));
    FailedStep(before, rs[n], report);
  }

  /** The lists the loop builds are exactly the records of each class. */
  lemma {:induction false} ListsMatchClasses(rs: seq<Rec>, report: Report)
    ensures ProcessedBy(Decoded(rs), report) == Select(rs, report, Processed)
    ensures multiset(DeadBy(rs, report)) == multiset(Select(rs, report, DeadLettered))
  {
    ProcessedMatch(rs, report);
    DeadMatch(rs, report);
  }

  lemma {:induction false} ProcessedMatch(rs: seq<Rec>, report: Report)
    ensures ProcessedBy(Decoded(rs), report) == Select(rs, report, Processed)
    decreases |rs|
  {
    if rs != [] {
      var n := |rs| - 1;
      ProcessedMatch(rs[..n], report);
      var d := Decoded(rs[..n]);
      assert (d + [rs[n]])[..|d|] == d;
    }
  }

  lemma {:induction false} DeadMatch(rs: seq<Rec>, report: Report)
    ensures multiset(DeadBy(rs, report)) == multiset(Select(rs, report, DeadLettered))
    decreases |rs|
  {
    if rs != [] {
      DeadMatch(rs[..|rs| - 1], report);
      DeadStep(rs, report);
      SelectStep(rs, report, DeadLettered);
    }
  }

  /** Nothing is lost and nothing is counted twice. */
  lemma {:induction false} Conservation(rs: seq<Rec>, report: Report)
    ensures multiset(Select(rs, report, Skipped)) + multiset(ProcessedBy(Decoded(rs), report)) + multiset(DeadBy(rs,
              report))
            == multiset(rs)
  {
    ListsMatchClasses(rs, report);
    SelectionsPartition(rs, report);
  }

  lemma OneOfThree(r: Rec, c: Class)
    ensures One(r, c == Skipped) + One(r, c == Processed) + One(r, c == DeadLettered) == multiset{r}
  {
  }

  lemma Regroup(a: multiset<Rec>, b: multiset<Rec>, c: multiset<Rec>, x: multiset<Rec>, y: multiset<Rec>,
                z: multiset<Rec>)
    ensures (a + x) + (b + y) + (c + z) == (a + b + c) + (x + y + z)
  {
  }

  lemma {:induction false} SelectionsPartition(rs: seq<Rec>, report: Report)
    ensures multiset(Select(rs, report, Skipped)) + multiset(Select(rs, report, Processed)) + multiset(Select(rs,
              report, DeadLettered))
            == multiset(rs)
    decreases |rs|
  {
    if rs != [] {
      var n := |rs| - 1;
      SelectionsPartition(rs[..n], report);
      SelectStep(rs, report, Skipped);
      SelectStep(rs, report, Processed);
      SelectStep(rs, report, DeadLettered);
      var c := ClassOf(rs, report, n);
      OneOfThree(rs[n], c);
      assert rs == rs[..n] + [rs[n]];
      Regroup(multiset(Select(rs[..n], report, Skipped)), multiset(Select(rs[..n], report, Processed)),
          multiset(Select(rs[..n], report, DeadLettered)),
              One(rs[n], c == Skipped), One(rs[n], c == Processed), One(rs[n], c == DeadLettered));
    }
  }

  ghost predicate IsAt(rs: seq<Rec>, report: Report, c: Class, r: Rec, i: nat) {
    i < |rs| && rs[i] == r && ClassOf(rs, report, i) == c
  }

  lemma IsAtPrefix(rs: seq<Rec>, report: Report, c: Class, r: Rec, i: nat)
    requires i < |rs| - 1
    ensures IsAt(rs, report, c, r, i) <==> IsAt(rs[..|rs| - 1], report, c, r, i)
  {
    assert rs[..|rs| - 1][..i] == rs[..i];
  }

  lemma {:induction false} SelectedIff(rs: seq<Rec>, report: Report, c: Class, r: Rec)
    ensures r in Select(rs, report, c) <==> exists i: nat :: IsAt(rs, report, c, r, i)
    decreases |rs|
  {
    if rs != [] {
      var n := |rs| - 1;
      SelectedIff(rs[..n], report, c, r);
      if i: nat :| IsAt(rs[..n], report, c, r, i) {
        IsAtPrefix(rs, report, c, r, i);
      }
      if i: nat :| IsAt(rs, report, c, r, i) && i < n {
        IsAtPrefix(rs, report, c, r, i);
      }
      if ClassOf(rs, report, n) == c && rs[n] == r {
        assert IsAt(rs, report, c, r, n);
      }
    }
  }

  /** No record is left out: the list of its class holds it. */
  lemma {:induction false} ClassHasRecord(rs: seq<Rec>, report: Report, i: nat)
    requires i < |rs|
    ensures match ClassOf(rs, report, i)
            case Skipped => rs[i].payload.Tombstone?
            case Processed => rs[i] in ProcessedBy(Decoded(rs), report)
            case DeadLettered => rs[i] in DeadBy(rs, report)
  {
    var c := ClassOf(rs, report, i);
    ListsMatchClasses(rs, report);
    SelectedIff(rs, report, c, rs[i]);
    assert IsAt(rs, report, c, rs[i], i);
    assert c == DeadLettered ==> rs[i] in multiset(DeadBy(rs, report));
  }

  /** In a batch of distinct records each one is skipped, processed or dead-lettered, and only that. */
  lemma {:induction false} ExactlyOneClass(rs: seq<Rec>, report: Report, i: nat)
    requires i < |rs| && forall j, k :: 0 <= j < k < |rs| ==> rs[j] != rs[k]
    ensures var c := ClassOf(rs, report, i);
            && (rs[i] in ProcessedBy(Decoded(rs), report) <==> c == Processed)
            && (rs[i] in DeadBy(rs, report) <==> c == DeadLettered)
            && (rs[i].payload.Tombstone? <==> c == Skipped)
  {
    ListsMatchClasses(rs, report);
    SelectedIff(rs, report, Processed, rs[i]);
    SelectedIff(rs, report, DeadLettered, rs[i]);
    assert IsAt(rs, report, ClassOf(rs, report, i), rs[i], i);
    assert rs[i] in DeadBy(rs, report) <==> rs[i] in multiset(DeadBy(rs, report));
    assert rs[i] in Select(rs, report, DeadLettered) <==> rs[i] in multiset(Select(rs, report, DeadLettered));
  }

  /** How many records before the i-th can be read. */
  ghost function ReadableBefore(rs: seq<Rec>, i: nat): nat
    requires i <= |rs|
  {
    if i == 0 then 0 else ReadableBefore(rs, i - 1) + if rs[i - 1].payload.Readable? then 1 else 0
  }

  lemma {:induction false} DecodedCounts(rs: seq<Rec>, i: nat)
    requires i <= |rs|
    ensures |Decoded(rs[..i])| == ReadableBefore(rs, i)
    decreases i
  {
    if i > 0 {
      DecodedCounts(rs, i - 1);
      assert rs[..i][..i - 1] == rs[..i - 1];
    }
  }

  /**
   * In a batch of distinct records, where each record ends up: a tombstone nowhere, what
   * cannot be read and everything the handler choked on among the dead letters, and of
   * the rest those and only those the handler reported by their number among the
   * readable ones.
   */
  lemma {:induction false} WhereRecordsGo(rs: seq<Rec>, report: Report, i: nat)
    requires i < |rs| && forall j, k :: 0 <= j < k < |rs| ==> rs[j] != rs[k]
    ensures var processed, dead := ProcessedBy(Decoded(rs), report), DeadBy(rs, report);
            && (rs[i].payload.Tombstone? ==> rs[i] !in processed && rs[i] !in dead)
            && (rs[i].payload.Undecodable? ==> rs[i] !in processed && rs[i] in dead)
            && (rs[i].payload.Readable? && report.Handled? ==>
                  && (rs[i] in dead <==> ReadableBefore(rs, i) in report.failures)
                  && (rs[i] in processed <==> ReadableBefore(rs, i) !in report.failures))
            && (rs[i].payload.Readable? && !report.Handled? ==> rs[i] !in processed && rs[i] in dead)
  {
    ExactlyOneClass(rs, report, i);
    DecodedCounts(rs, i);
  }
}
