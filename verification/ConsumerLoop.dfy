/**
 * common/consumer_loop.py, whole runs: poll, handle, commit, over any number of process
 * lifetimes with failed polls, failed commits, crashes and shutdown.
 *
 * The inputs of a run are the partitions and, per lifetime and turn, what the poll
 * fetches, how each attempt of the handler goes and where the process dies. What a
 * committed record went through is stated in terms of those inputs.
 */
module ConsumerLoop {
  import opened KafkaProducer
  import opened Messages
  import opened BatchHandling

  type Log = map<TopicPartition, seq<Payload>>

  type Offsets = map<TopicPartition, nat>

  datatype Fetch = Fetch(tp: TopicPartition, count: nat)

  datatype CrashPoint = NoCrash | AfterPoll | AfterHandling

  /** One turn of the poll loop. */
  datatype Turn =
    | PollFailed
    | Polled(fetches: seq<Fetch>, attempts: seq<Attempt>, commitAccepted: bool, crash: CrashPoint)

  function OffsetIn(offsets: Offsets, tp: TopicPartition): nat {
    if tp in offsets then offsets[tp] else 0
  }

  // ---------------------------------------------------------------- what a poll reads

  datatype Reading = Reading(position: Offsets, batch: seq<Rec>)

  function ReadNext(log: Log, r: Reading, tp: TopicPartition): Reading {
    var o := OffsetIn(r.position, tp);
    if tp in log && o < |log[tp]| then Reading(r.position[tp := o + 1], r.batch + [Rec(tp, o, log[tp][o])]) else r
  }

  function ReadSome(log: Log, r: Reading, tp: TopicPartition, count: nat): Reading {
    if count == 0 then r else ReadNext(log, ReadSome(log, r, tp, count - 1), tp)
  }

  /** Reads on from a position, partition by partition. */
  function ReadAll(log: Log, from: Offsets, fetches: seq<Fetch>): Reading {
    if fetches == [] then Reading(from, [])
    else
      var f := fetches[|fetches| - 1];
      ReadSome(log, ReadAll(log, from, fetches[..|fetches| - 1]), f.tp, f.count)
  }

  /** Offsets grow within each partition of the batch. */
  ghost predicate Ascending(rs: seq<Rec>) {
    forall i, j :: 0 <= i < j < |rs| && rs[i].tp == rs[j].tp ==> rs[i].offset < rs[j].offset
  }

  ghost predicate Exists(log: Log, tp: TopicPartition, o: nat) { tp in log && o < |log[tp]| }

  ghost function At(log: Log, tp: TopicPartition, o: nat): Rec
    requires Exists(log, tp, o)
  {
    Rec(tp, o, log[tp][o])
  }

  ghost predicate InRange(log: Log, position: Offsets) {
    forall tp :: OffsetIn(position, tp) == 0 || (tp in log && OffsetIn(position, tp) <= |log[tp]|)
  }

  ghost predicate Between(log: Log, from: Offsets, to: Offsets, rec: Rec) {
    && Exists(log, rec.tp, rec.offset) && rec == At(log, rec.tp, rec.offset)
    && OffsetIn(from, rec.tp) <= rec.offset < OffsetIn(to, rec.tp)
  }

  /** The batch is what lies between the two positions, in order. */
  ghost predicate HasRead(log: Log, from: Offsets, r: Reading) {
    && InRange(log, r.position)
    && (forall tp :: OffsetIn(r.position, tp) >= OffsetIn(from, tp))
    && (forall i :: 0 <= i < |r.batch| ==> Between(log, from, r.position, r.batch[i]))
    && (forall tp, o: nat :: OffsetIn(from, tp) <= o < OffsetIn(r.position, tp) ==>
        Exists(log, tp, o) && At(log, tp, o) in r.batch)
    && Ascending(r.batch)
    && (r.batch == [] ==> r.position == from)
  }

  lemma NextIsRead(log: Log, from: Offsets, r: Reading, tp: TopicPartition)
    requires HasRead(log, from, r)
    ensures HasRead(log, from, ReadNext(log, r, tp))
  {
    var next := ReadNext(log, r, tp);
    if next != r {
      var o := OffsetIn(r.position, tp);
      assert forall p :: OffsetIn(next.position, p) == if p == tp then o + 1 else OffsetIn(r.position, p);
      forall i | 0 <= i < |next.batch| ensures Between(log, from, next.position, next.batch[i]) {
        if i < |r.batch| { assert Between(log, from, r.position, r.batch[i]); }
      }
      forall i, j | 0 <= i < j < |next.batch| && next.batch[i].tp == next.batch[j].tp
        ensures next.batch[i].offset < next.batch[j].offset
      {
        assert Between(log, from, r.position, r.batch[i]);
      }
      forall p, k: nat | OffsetIn(from, p) <= k < OffsetIn(next.position, p)
          ensures Exists(log, p, k) && At(log, p, k) in next.batch {
        if p == tp && k == o { assert next.batch[|r.batch|] == At(log, p, k); }
            else { assert At(log, p, k) in r.batch; }
      }
    }
  }

  lemma {:induction false} SomeIsRead(log: Log, from: Offsets, r: Reading, tp: TopicPartition, count: nat)
    requires HasRead(log, from, r)
    ensures HasRead(log, from, ReadSome(log, r, tp, count))
    decreases count
  {
    if count > 0 {
      SomeIsRead(log, from, r, tp, count - 1);
      NextIsRead(log, from, ReadSome(log, r, tp, count - 1), tp);
    }
  }

  lemma {:induction false} ReadIsContiguous(log: Log, from: Offsets, fetches: seq<Fetch>)
    requires InRange(log, from)
    ensures HasRead(log, from, ReadAll(log, from, fetches))
    decreases |fetches|
  {
    if fetches != [] {
      var n := |fetches| - 1;
      ReadIsContiguous(log, from, fetches[..n]);
      SomeIsRead(log, from, ReadAll(log, from, fetches[..n]), fetches[n].tp, fetches[n].count);
    }
  }

  function Asked(fetches: seq<Fetch>, tp: TopicPartition): nat {
    if fetches == [] then 0
    else
      var f := fetches[|fetches| - 1];
      Asked(fetches[..|fetches| - 1], tp) + if f.tp == tp then f.count else 0
  }

  /** Reading n records on from a position, of a partition with so many. */
  function Advanced(log: Log, from: nat, tp: TopicPartition, n: nat): nat {
    if tp in log && from <= |log[tp]| then (if from + n <= |log[tp]| then from + n else |log[tp]|) else from
  }

  lemma {:induction false} SomeAdvances(log: Log, r: Reading, tp: TopicPartition, count: nat, p: TopicPartition)
    ensures OffsetIn(ReadSome(log, r, tp, count).position, p) ==
            if p == tp then Advanced(log, OffsetIn(r.position, p), p, count) else OffsetIn(r.position, p)
    decreases count
  {
    if count > 0 { SomeAdvances(log, r, tp, count - 1, p); }
  }

  /** A poll advances every partition by what it was asked for, or to the end. */
  lemma {:induction false} ReadAdvances(log: Log, from: Offsets, fetches: seq<Fetch>, p: TopicPartition)
    requires InRange(log, from)
    ensures OffsetIn(ReadAll(log, from, fetches).position, p) == Advanced(log, OffsetIn(from, p), p, Asked(fetches, p))
    decreases |fetches|
  {
    if fetches != [] {
      var n := |fetches| - 1;
      ReadAdvances(log, from, fetches[..n], p);
      SomeAdvances(log, ReadAll(log, from, fetches[..n]), fetches[n].tp, fetches[n].count, p);
    }
  }

  // ---------------------------------------------------------------- what a turn is about

  /** Where a process that started from the given offsets stands before a turn. */
  function PositionBefore(log: Log, from: Offsets, turns: seq<Turn>, t: nat): Offsets
    requires t <= |turns|
  {
    if t == 0 then from
    else
      match turns[t - 1]
      case PollFailed => PositionBefore(log, from, turns, t - 1)
      case Polled(fetches, _, _, _) => ReadAll(log, PositionBefore(log, from, turns, t - 1), fetches).position
  }

  /** The batch a turn handles, a matter of the log, the starting offsets and the fetches alone. */
  function BatchOf(log: Log, from: Offsets, turns: seq<Turn>, t: nat): seq<Rec>
    requires t < |turns| && turns[t].Polled?
  {
    ReadAll(log, PositionBefore(log, from, turns, t), turns[t].fetches).batch
  }

  /** A turn of the schedule, one of its attempts, and where its messages and its call are recorded. */
  datatype Handling = Handling(lifetime: nat, turn: nat, attempt: nat, mark: nat, call: nat)

  /** What the world outside has seen: messages with their fate, and handler calls. */
  datatype Trace = Trace(sent: seq<Msg>, status: seq<Status>, calls: seq<Invocation>)

  /** The attempt's messages are all acknowledged, and its handler really ran on the batch. */
  ghost predicate AttemptDone(w: Trace, batch: seq<Rec>, a: Attempt, mark: nat, call: nat)
    requires |w.sent| == |w.status|
  {
    var upto := mark + |Produced(a, batch, true)|;
    && ReportOf(a, batch) != TransientError
    && upto <= |w.sent|
    && w.sent[mark..upto] == Produced(a, batch, true)
    && (forall i :: mark <= i < upto ==> w.status[i] == Acked)
    && (Decoded(batch) != [] ==> call < |w.calls| && w.calls[call] == Invocation(Decoded(batch), a))
  }

  predicate Scheduled(lifetimes: seq<seq<Turn>>, starts: seq<Offsets>, h: Handling) {
    && h.lifetime < |lifetimes| && h.lifetime < |starts|
    && h.turn < |lifetimes[h.lifetime]| && lifetimes[h.lifetime][h.turn].Polled?
  }

  function BatchAt(log: Log, lifetimes: seq<seq<Turn>>, starts: seq<Offsets>, h: Handling): seq<Rec>
    requires Scheduled(lifetimes, starts, h)
  {
    BatchOf(log, starts[h.lifetime], lifetimes[h.lifetime], h.turn)
  }

  function AttemptsAt(lifetimes: seq<seq<Turn>>, starts: seq<Offsets>, h: Handling): seq<Attempt>
    requires Scheduled(lifetimes, starts, h)
  {
    lifetimes[h.lifetime][h.turn].attempts
  }

  /**
   * The turn was carried through: nothing but tombstones, or the named attempt of its own
   * schedule succeeded on its own batch, after attempts that did not end the loop.
   */
  ghost predicate TurnDone(log: Log, lifetimes: seq<seq<Turn>>, starts: seq<Offsets>, w: Trace, h: Handling)
    requires |w.sent| == |w.status|
  {
    && Scheduled(lifetimes, starts, h)
    && var batch, attempts := BatchAt(log, lifetimes, starts, h), AttemptsAt(lifetimes, starts, h);
       || (Decoded(batch) == [] && Undecoded(batch) == [])
       || (&& h.attempt < |attempts|
           && (forall n :: 0 <= n < h.attempt ==> !attempts[n].shutdown)
           && AttemptDone(w, batch, attempts[h.attempt], h.mark, h.call))
  }

  /** The record was part of a turn that was carried through. */
  ghost predicate Covers(log: Log, lifetimes: seq<seq<Turn>>, starts: seq<Offsets>, w: Trace, h: Handling, r: Rec)
    requires |w.sent| == |w.status|
  {
    TurnDone(log, lifetimes, starts, w, h) && r in BatchAt(log, lifetimes, starts, h)
  }

  ghost predicate Accounted(log: Log, lifetimes: seq<seq<Turn>>, starts: seq<Offsets>, w: Trace, tp: TopicPartition,
                            o: nat)
    requires |w.sent| == |w.status|
  {
    Exists(log, tp, o) && exists h :: Covers(log, lifetimes, starts, w, h, At(log, tp, o))
  }

  /** Every record below the offsets has been part of a turn that was carried through. */
  ghost predicate SafeUpTo(log: Log, lifetimes: seq<seq<Turn>>, starts: seq<Offsets>, w: Trace, offsets: Offsets)
    requires |w.sent| == |w.status|
  {
    forall tp, o: nat :: o < OffsetIn(offsets, tp) ==> Accounted(log, lifetimes, starts, w, tp, o)
  }

  // ---------------------------------------------------------------- nothing is taken back

  ghost predicate Later(w: Trace, w': Trace)
    requires |w.sent| == |w.status| && |w'.sent| == |w'.status|
  {
    Evolves(w.sent, w.status, w'.sent, w'.status) && w.calls <= w'.calls
  }

  lemma CoversLasts(log: Log, lifetimes: seq<seq<Turn>>, starts: seq<Offsets>, w: Trace, starts': seq<Offsets>,
                    w': Trace, h: Handling, r: Rec)
    requires |w.sent| == |w.status| && |w'.sent| == |w'.status| && Later(w, w') && starts <= starts'
    requires Covers(log, lifetimes, starts, w, h, r)
    ensures Covers(log, lifetimes, starts', w', h, r)
  {
    assert starts'[h.lifetime] == starts[h.lifetime];
    var batch, attempts := BatchAt(log, lifetimes, starts, h), AttemptsAt(lifetimes, starts, h);
    if !(Decoded(batch) == [] && Undecoded(batch) == []) {
      var upto := h.mark + |Produced(attempts[h.attempt], batch, true)|;
      assert w'.sent[h.mark..upto] == w.sent[h.mark..upto];
    }
  }

  lemma SafeLasts(log: Log, lifetimes: seq<seq<Turn>>, starts: seq<Offsets>, w: Trace, starts': seq<Offsets>,
                  w': Trace, offsets: Offsets)
    requires |w.sent| == |w.status| && |w'.sent| == |w'.status| && Later(w, w') && starts <= starts'
    requires SafeUpTo(log, lifetimes, starts, w, offsets)
    ensures SafeUpTo(log, lifetimes, starts', w', offsets)
  {
    forall tp, o: nat | o < OffsetIn(offsets, tp) ensures Accounted(log, lifetimes, starts', w', tp, o) {
      assert Accounted(log, lifetimes, starts, w, tp, o);
      var h :| Covers(log, lifetimes, starts, w, h, At(log, tp, o));
      CoversLasts(log, lifetimes, starts, w, starts', w', h, At(log, tp, o));
    }
  }

  /** A turn that was carried through accounts for everything it read. */
  lemma TurnIsSafe(log: Log, lifetimes: seq<seq<Turn>>, starts: seq<Offsets>, w: Trace, h: Handling)
    requires |w.sent| == |w.status| && TurnDone(log, lifetimes, starts, w, h)
    requires InRange(log, PositionBefore(log, starts[h.lifetime], lifetimes[h.lifetime], h.turn))
    requires SafeUpTo(log, lifetimes, starts, w, PositionBefore(log, starts[h.lifetime], lifetimes[h.lifetime], h.turn))
    ensures SafeUpTo(log, lifetimes, starts, w,
              PositionBefore(log, starts[h.lifetime], lifetimes[h.lifetime], h.turn + 1))
  {
    var turns, from := lifetimes[h.lifetime], starts[h.lifetime];
    var before := PositionBefore(log, from, turns, h.turn);
    var r := ReadAll(log, before, turns[h.turn].fetches);
    ReadIsContiguous(log, before, turns[h.turn].fetches);
    forall tp, o: nat | o < OffsetIn(r.position, tp) ensures Accounted(log, lifetimes, starts, w, tp, o) {
      if o >= OffsetIn(before, tp) {
        assert Covers(log, lifetimes, starts, w, h, At(log, tp, o));
      }
    }
  }

  // ---------------------------------------------------------------- what being accounted for means

  /** The record is a tombstone, has an acknowledged dead letter, or was processed. */
  ghost predicate Handled(log: Log, lifetimes: seq<seq<Turn>>, starts: seq<Offsets>, w: Trace, h: Handling, r: Rec)
    requires |w.sent| == |w.status|
  {
    && Scheduled(lifetimes, starts, h)
    && var batch, attempts := BatchAt(log, lifetimes, starts, h), AttemptsAt(lifetimes, starts, h);
       && r in batch
       && (|| r.payload.Tombstone?
           || (&& h.attempt < |attempts|
               && var a := attempts[h.attempt];
                  || (&& r in DeadBy(batch, ReportOf(a, batch))
                      && exists i :: 0 <= i < |w.sent| && w.sent[i] == DeadLetter(r) && w.status[i] == Acked)
                  || (&& r in ProcessedBy(Decoded(batch), a.report)
                      && h.call < |w.calls| && w.calls[h.call] == Invocation(Decoded(batch), a)
                      && h.mark + |a.sends| <= |w.sent|
                      && w.sent[h.mark..h.mark + |a.sends|] == Outputs(a.sends)
                      && forall i :: h.mark <= i < h.mark + |a.sends| ==> w.status[i] == Acked)))
  }

  lemma {:induction false} CoveredIsHandled(log: Log, lifetimes: seq<seq<Turn>>, starts: seq<Offsets>, w: Trace,
                                            h: Handling, r: Rec)
    requires |w.sent| == |w.status| && Covers(log, lifetimes, starts, w, h, r)
    ensures Handled(log, lifetimes, starts, w, h, r)
  {
    var batch, attempts := BatchAt(log, lifetimes, starts, h), AttemptsAt(lifetimes, starts, h);
    var i :| 0 <= i < |batch| && batch[i] == r;
    if Decoded(batch) == [] && Undecoded(batch) == [] {
      OnlyTombstones(batch, i);
    } else {
      AttemptHandles(w, batch, attempts[h.attempt], h.mark, h.call, i);
    }
  }

  /** Every record below the offsets is a tombstone, has an acknowledged dead letter, or was processed. */
  ghost predicate HandledUpTo(log: Log, lifetimes: seq<seq<Turn>>, starts: seq<Offsets>, w: Trace, offsets: Offsets)
    requires |w.sent| == |w.status|
  {
    forall tp, o: nat :: o < OffsetIn(offsets, tp) ==>
      Exists(log, tp, o) && exists h :: Handled(log, lifetimes, starts, w, h, At(log, tp, o))
  }

  lemma {:induction false} SafeIsHandled(log: Log, lifetimes: seq<seq<Turn>>, starts: seq<Offsets>, w: Trace,
                                         offsets: Offsets)
    requires |w.sent| == |w.status| && SafeUpTo(log, lifetimes, starts, w, offsets)
    ensures HandledUpTo(log, lifetimes, starts, w, offsets)
  {
    forall tp, o: nat | o < OffsetIn(offsets, tp)
      ensures Exists(log, tp, o) && exists h :: Handled(log, lifetimes, starts, w, h, At(log, tp, o))
    {
      assert Accounted(log, lifetimes, starts, w, tp, o);
      var h :| Covers(log, lifetimes, starts, w, h, At(log, tp, o));
      CoveredIsHandled(log, lifetimes, starts, w, h, At(log, tp, o));
    }
  }

  /** A finished attempt leaves each record of the batch in the class its report gives it. */
  lemma {:induction false} AttemptHandles(w: Trace, batch: seq<Rec>, a: Attempt, mark: nat, call: nat, i: nat)
    requires |w.sent| == |w.status| && AttemptDone(w, batch, a, mark, call) && i < |batch|
    ensures match ClassOf(batch, ReportOf(a, batch), i)
            case Skipped => batch[i].payload.Tombstone?
            case Processed =>
              && batch[i] in ProcessedBy(Decoded(batch), a.report)
              && call < |w.calls| && w.calls[call] == Invocation(Decoded(batch), a)
              && mark + |a.sends| <= |w.sent|
              && w.sent[mark..mark + |a.sends|] == Outputs(a.sends)
              && forall j :: mark <= j < mark + |a.sends| ==> w.status[j] == Acked
            case DeadLettered =>
              && batch[i] in DeadBy(batch, ReportOf(a, batch))
              && exists j :: 0 <= j < |w.sent| && w.sent[j] == DeadLetter(batch[i]) && w.status[j] == Acked
  {
    var report := ReportOf(a, batch);
    ClassHasRecord(batch, report, i);
    match ClassOf(batch, report, i)
    case Skipped =>
    case Processed =>
      assert Decoded(batch) != [];
      OutputsAreThere(w, batch, a, mark, call);
    case DeadLettered =>
      LetterIsThere(w, batch, a, mark, call, batch[i]);
  }

  lemma OutputsAreThere(w: Trace, batch: seq<Rec>, a: Attempt, mark: nat, call: nat)
    requires |w.sent| == |w.status| && AttemptDone(w, batch, a, mark, call) && Decoded(batch) != []
    ensures mark + |a.sends| <= |w.sent| && w.sent[mark..mark + |a.sends|] == Outputs(a.sends)
    ensures forall j :: mark <= j < mark + |a.sends| ==> w.status[j] == Acked
  {
    var upto := mark + |Produced(a, batch, true)|;
    assert w.sent[mark..mark + |a.sends|] == w.sent[mark..upto][..|a.sends|];
  }

  lemma LetterIsThere(w: Trace, batch: seq<Rec>, a: Attempt, mark: nat, call: nat, r: Rec)
    requires |w.sent| == |w.status| && AttemptDone(w, batch, a, mark, call) && r in DeadBy(batch, ReportOf(a, batch))
    ensures exists j :: 0 <= j < |w.sent| && w.sent[j] == DeadLetter(r) && w.status[j] == Acked
  {
    var dead, ms := DeadBy(batch, ReportOf(a, batch)), Produced(a, batch, true);
    var k :| 0 <= k < |dead| && dead[k] == r;
    var j := |ms| - |dead| + k;
    assert ms[j] == DeadLetter(r);
    assert w.sent[mark..mark + |ms|][j] == DeadLetter(r);
    assert w.sent[mark + j] == DeadLetter(r);
  }

  lemma {:induction false} OnlyTombstones(rs: seq<Rec>, i: nat)
    requires i < |rs| && Decoded(rs) == [] && Undecoded(rs) == []
    ensures rs[i].payload.Tombstone?
    decreases |rs|
  {
    if i < |rs| - 1 { OnlyTombstones(rs[..|rs| - 1], i); }
  }

  // ---------------------------------------------------------------- the consumer

  class Consumer {
    /** The partitions, as they are on the broker. */
    const log: Log
    /** Where this process reads next, and what the group has committed. */
    var position: Offsets
    var committed: Offsets
    /** The offsets each process of the group has started from. */
    var starts: seq<Offsets>

    constructor (log: Log)
      ensures this.log == log && position == map[] && committed == map[] && starts == []
    {
      this.log, position, committed, starts := log, map[], map[], [];
    }

    /** A new process starts from the committed offsets. */
    method Join()
      modifies this`position, this`starts
      ensures position == committed && starts == old(starts) + [committed]
    {
      position, starts := committed, starts + [committed];
    }

    /** Reads on from the current positions, partition by partition. */
    method Poll(fetches: seq<Fetch>) returns (rs: seq<Rec>)
      requires InRange(log, position)
      modifies this`position
      ensures Reading(position, rs) == ReadAll(log, old(position), fetches)
      ensures HasRead(log, old(position), Reading(position, rs))
      ensures forall p :: OffsetIn(position, p) == Advanced(log, OffsetIn(old(position), p), p, Asked(fetches, p))
    {
      rs := [];
      for n := 0 to |fetches|
        invariant Reading(position, rs) == ReadAll(log, old(position), fetches[..n])
      {
        var tp := fetches[n].tp;
        for k := 0 to fetches[n].count
          invariant Reading(position, rs) == ReadSome(log, ReadAll(log, old(position), fetches[..n]), tp, k)
        {
          var o := OffsetIn(position, tp);
          if tp in log && o < |log[tp]| {
            rs := rs + [Rec(tp, o, log[tp][o])];
            position := position[tp := o + 1];
          }
        }
        assert fetches[..n + 1][..n] == fetches[..n];
      }
      assert fetches[..|fetches|] == fetches;
      ReadIsContiguous(log, old(position), fetches);
      forall p ensures OffsetIn(position, p) == Advanced(log, OffsetIn(old(position), p), p, Asked(fetches, p)) {
        ReadAdvances(log, old(position), fetches, p);
      }
    }

    /** Commits what the batch covers; a failed commit is only logged. */
    method Commit(rs: seq<Rec>, accepted: bool)
      modifies this`committed
      ensures forall tp :: OffsetIn(committed, tp) == OffsetIn(old(committed), tp) ||
                           exists i :: 0 <= i < |rs| && rs[i].tp == tp && OffsetIn(committed, tp) == rs[i].offset + 1
      ensures !accepted ==> committed == old(committed)
      ensures committed == old(committed) + if accepted then LastOffsets(rs) else map[]
      ensures accepted && Ascending(rs) ==> forall i :: 0 <= i < |rs| ==> rs[i].offset < OffsetIn(committed, rs[i].tp)
    {
      var offsets := NextOffsets(rs);
      LastIsMaximum(rs);
      if accepted {
        committed := committed + offsets;
        forall i | 0 <= i < |rs| ensures rs[i].tp in offsets { assert rs[i] in rs; }
      }
    }
  }

  function LastOffsets(rs: seq<Rec>): Offsets {
    if rs == [] then map[]
    else
      var r := rs[|rs| - 1];
      LastOffsets(rs[..|rs| - 1])[r.tp := r.offset + 1]
  }

  lemma {:induction false} LastIsThere(rs: seq<Rec>, tp: TopicPartition)
    requires tp in LastOffsets(rs)
    ensures exists i :: 0 <= i < |rs| && rs[i].tp == tp && LastOffsets(rs)[tp] == rs[i].offset + 1
    decreases |rs|
  {
    var n := |rs| - 1;
    if tp == rs[n].tp {
      assert LastOffsets(rs)[tp] == rs[n].offset + 1;
    } else {
      LastIsThere(rs[..n], tp);
      var i :| 0 <= i < n && rs[..n][i].tp == tp && LastOffsets(rs[..n])[tp] == rs[..n][i].offset + 1;
      assert rs[i].tp == tp && LastOffsets(rs)[tp] == rs[i].offset + 1;
    }
  }

  lemma {:induction false} LastBounds(rs: seq<Rec>, i: nat)
    requires i < |rs|
    ensures rs[i].tp in LastOffsets(rs)
    ensures Ascending(rs) ==> rs[i].offset < LastOffsets(rs)[rs[i].tp]
    decreases |rs|
  {
    var n := |rs| - 1;
    if i < n {
      LastBounds(rs[..n], i);
    }
  }

  /** The last record of a partition decides; in an ascending batch it is the maximum. */
  lemma {:induction false} LastIsMaximum(rs: seq<Rec>)
    ensures forall i :: 0 <= i < |rs| ==> rs[i].tp in LastOffsets(rs)
    ensures forall tp :: tp in LastOffsets(rs) ==>
              exists i :: 0 <= i < |rs| && rs[i].tp == tp && LastOffsets(rs)[tp] == rs[i].offset + 1
    ensures Ascending(rs) ==> forall i :: 0 <= i < |rs| ==> rs[i].offset < LastOffsets(rs)[rs[i].tp]
  {
    forall i | 0 <= i < |rs|
        ensures rs[i].tp in LastOffsets(rs) && (Ascending(rs) ==> rs[i].offset < LastOffsets(rs)[rs[i].tp]) {
      LastBounds(rs, i);
    }
    forall tp | tp in LastOffsets(rs)
        ensures exists i :: 0 <= i < |rs| && rs[i].tp == tp && LastOffsets(rs)[tp] == rs[i].offset + 1 {
      LastIsThere(rs, tp);
    }
  }

  method NextOffsets(rs: seq<Rec>) returns (offsets: Offsets)
    ensures offsets == LastOffsets(rs)
  {
    offsets := map[];
    for n := 0 to |rs|
      invariant offsets == LastOffsets(rs[..n])
    {
      assert rs[..n + 1][..n] == rs[..n];
      offsets := offsets[rs[n].tp := rs[n].offset + 1];
    }
    assert rs[..|rs|] == rs;
  }

  // ---------------------------------------------------------------- the loop

  ghost function Seen(p: Producer<Msg>, h: Handler): Trace
    reads p, h
  {
    Trace(p.sent, p.status, h.calls)
  }

  /** Everything below the committed offsets is accounted for. */
  ghost predicate CommitSafe(c: Consumer, h: Handler, p: Producer<Msg>, lifetimes: seq<seq<Turn>>)
    requires p.Valid()
    reads c, h, p
  {
    SafeUpTo(c.log, lifetimes, c.starts, Seen(p, h), c.committed)
  }

  /** So is everything this process has read past. */
  ghost predicate ReadSafe(c: Consumer, h: Handler, p: Producer<Msg>, lifetimes: seq<seq<Turn>>)
    requires p.Valid()
    reads c, h, p
  {
    SafeUpTo(c.log, lifetimes, c.starts, Seen(p, h), c.position)
  }

  ghost predicate Ordered(low: Offsets, high: Offsets) {
    forall tp :: OffsetIn(low, tp) <= OffsetIn(high, tp)
  }

  /** The process of the latest lifetime stands before its turn t. */
  ghost predicate Standing(c: Consumer, lifetimes: seq<seq<Turn>>, t: nat)
    reads c
  {
    && 0 < |c.starts| <= |lifetimes| && t <= |lifetimes[|c.starts| - 1]|
    && c.position == PositionBefore(c.log, c.starts[|c.starts| - 1], lifetimes[|c.starts| - 1], t)
    && InRange(c.log, c.position) && Ordered(c.committed, c.position)
  }

  /** Handles one batch; finished means that the turn has been carried through. */
  method HandleBatch(c: Consumer, h: Handler, p: Producer<Msg>, rs: seq<Rec>, attempts: seq<Attempt>)
    returns (finished: bool, ghost attempt: nat, ghost mark: nat, ghost call: nat)
    requires p.Valid()
    modifies h, p
    ensures p.Valid() && Later(old(Seen(p, h)), Seen(p, h))
    ensures finished ==>
              || (Decoded(rs) == [] && Undecoded(rs) == [])
              || (&& attempt < |attempts|
                  && (forall n :: 0 <= n < attempt ==> !attempts[n].shutdown)
                  && AttemptDone(Seen(p, h), rs, attempts[attempt], mark, call))
    ensures !finished ==> attempts == [] || Doomed(attempts[0]) || FailedSince(old(p.status), p.status)
  {
    ghost var calls := h.calls;
    var outcome;
    outcome, mark := HandleBatchWithRetry(h, p, rs, true, attempts);
    finished, attempt, call := outcome.NothingToDo?, 0, 0;
    if outcome.Returned? {
      finished, attempt, call := true, outcome.attempt, |calls| + outcome.attempt;
      assert p.sent[mark..] == p.sent[mark..mark + |Produced(attempts[attempt], rs, true)|];
    }
  }

  /**
   * One polled batch; go is false when the loop stops without committing, which needs a
   * cause, and an accepted commit covers everything the turn has read.
   */
  method RunTurn(c: Consumer, h: Handler, p: Producer<Msg>, lifetimes: seq<seq<Turn>>, t: nat)
    returns (go: bool)
    requires p.Valid() && Standing(c, lifetimes, t) && ReadSafe(c, h, p, lifetimes)
    requires t < |lifetimes[|c.starts| - 1]| && lifetimes[|c.starts| - 1][t].Polled?
    modifies c`position, c`committed, h, p
    ensures p.Valid() && Later(old(Seen(p, h)), Seen(p, h))
    ensures Standing(c, lifetimes, t + 1) && CommitSafe(c, h, p, lifetimes) && Ordered(old(c.committed), c.committed)
    ensures go ==> ReadSafe(c, h, p, lifetimes)
    ensures var turn := lifetimes[|c.starts| - 1][t];
            && (go && turn.commitAccepted ==>
                  forall tp ::
                    || OffsetIn(c.position, tp) == OffsetIn(old(c.position), tp)
                    || OffsetIn(c.committed, tp) == OffsetIn(c.position, tp))
            && (!go ==> Stoppable(turn, old(p.status), p.status))
  {
    var turn := lifetimes[|c.starts| - 1][t];
    ghost var before := c.position;
    var rs := c.Poll(turn.fetches);
    SafeBelow(c, h, p, lifetimes, before);
    if turn.crash == AfterPoll {
      return false;
    }
    if |rs| == 0 {
      return true;
    }
    var finished := CarryThrough(c, h, p, lifetimes, t, rs, before);
    if !finished || turn.crash == AfterHandling {
      return false;
    }
    CommitTurn(c, h, p, lifetimes, t, rs, turn.commitAccepted, before);
    return true;
  }

  /** Handles the batch a turn has read; finished means that everything read so far is accounted for. */
  method CarryThrough(c: Consumer, h: Handler, p: Producer<Msg>, lifetimes: seq<seq<Turn>>, t: nat, rs: seq<Rec>,
                      ghost before: Offsets)
    returns (finished: bool)
    requires p.Valid() && Standing(c, lifetimes, t + 1) && lifetimes[|c.starts| - 1][t].Polled?
    requires before == PositionBefore(c.log, c.starts[|c.starts| - 1], lifetimes[|c.starts| - 1], t)
             && InRange(c.log, before)
    requires rs == BatchOf(c.log, c.starts[|c.starts| - 1], lifetimes[|c.starts| - 1], t)
             && Ordered(c.committed, before)
    requires SafeUpTo(c.log, lifetimes, c.starts, Seen(p, h), before)
    modifies h, p
    ensures p.Valid() && Later(old(Seen(p, h)), Seen(p, h))
    ensures CommitSafe(c, h, p, lifetimes)
    ensures finished ==> ReadSafe(c, h, p, lifetimes)
    ensures var attempts := lifetimes[|c.starts| - 1][t].attempts;
            !finished ==> attempts == [] || Doomed(attempts[0]) || FailedSince(old(p.status), p.status)
  {
    ghost var seen := Seen(p, h);
    ghost var attempt, mark, call;
    finished, attempt, mark, call := HandleBatch(c, h, p, rs, lifetimes[|c.starts| - 1][t].attempts);
    SafeLasts(c.log, lifetimes, c.starts, seen, c.starts, Seen(p, h), before);
    SafeBelow(c, h, p, lifetimes, before);
    if finished {
      TurnIsSafe(c.log, lifetimes, c.starts, Seen(p, h), Handling(|c.starts| - 1, t, attempt, mark, call));
    }
  }

  method CommitTurn(c: Consumer, h: Handler, p: Producer<Msg>, lifetimes: seq<seq<Turn>>, t: nat, rs: seq<Rec>,
                    accepted: bool, ghost before: Offsets)
    requires p.Valid() && Standing(c, lifetimes, t + 1) && ReadSafe(c, h, p, lifetimes)
    requires HasRead(c.log, before, Reading(c.position, rs)) && Ordered(c.committed, before)
    modifies c`committed
    ensures Standing(c, lifetimes, t + 1) && CommitSafe(c, h, p, lifetimes) && ReadSafe(c, h, p, lifetimes)
    ensures Ordered(old(c.committed), c.committed)
    ensures accepted ==>
              forall tp ::
                || OffsetIn(c.position, tp) == OffsetIn(before, tp)
                || OffsetIn(c.committed, tp) == OffsetIn(c.position, tp)
  {
    ghost var committed := c.committed;
    c.Commit(rs, accepted);
    CommitCovers(c.log, before, Reading(c.position, rs), committed, c.committed, accepted);
    SafeBelow(c, h, p, lifetimes, c.position);
  }

  /** A commit of a batch just read moves no partition beyond the position, and, if accepted, up to it. */
  lemma CommitCovers(log: Log, from: Offsets, r: Reading, committed: Offsets, committed': Offsets, accepted: bool)
    requires HasRead(log, from, r) && Ordered(committed, from)
    requires forall tp :: OffsetIn(committed', tp) == OffsetIn(committed, tp) ||
                          exists i :: 0 <= i < |r.batch| && r.batch[i].tp == tp
                              && OffsetIn(committed', tp) == r.batch[i].offset + 1
    requires accepted ==> forall i :: 0 <= i < |r.batch| ==> r.batch[i].offset < OffsetIn(committed', r.batch[i].tp)
    ensures Ordered(committed, committed') && Ordered(committed', r.position)
    ensures accepted ==>
              forall tp ::
                || OffsetIn(r.position, tp) == OffsetIn(from, tp)
                || OffsetIn(committed', tp) == OffsetIn(r.position, tp)
  {
    forall tp ensures OffsetIn(committed, tp) <= OffsetIn(committed', tp) <= OffsetIn(r.position, tp) {
      if OffsetIn(committed', tp) != OffsetIn(committed, tp) {
        var i :| 0 <= i < |r.batch| && r.batch[i].tp == tp && OffsetIn(committed', tp) == r.batch[i].offset + 1;
        assert Between(log, from, r.position, r.batch[i]);
      }
    }
    forall tp | accepted && OffsetIn(r.position, tp) != OffsetIn(from, tp)
        ensures OffsetIn(committed', tp) == OffsetIn(r.position, tp) {
      assert At(log, tp, OffsetIn(r.position, tp) - 1) in r.batch;
    }
  }

  lemma SafeBelow(c: Consumer, h: Handler, p: Producer<Msg>, lifetimes: seq<seq<Turn>>, offsets: Offsets)
    requires p.Valid() && SafeUpTo(c.log, lifetimes, c.starts, Seen(p, h), offsets) && Ordered(c.committed, offsets)
    ensures CommitSafe(c, h, p, lifetimes)
  {
  }

  /** A turn may stop the loop if its process dies, its schedule ends, or something has failed. */
  ghost predicate Stoppable(turn: Turn, before: seq<Status>, status: seq<Status>)
    requires turn.Polled?
  {
    || turn.crash != NoCrash || turn.attempts == [] || Doomed(turn.attempts[0])
    || FailedSince(before, status)
  }

  /**
   * Poll, handle, commit until the schedule ends, shutdown is requested or the process
   * dies. It runs every turn unless the last one it ran had cause to stop it.
   */
  method RunConsumerLoop(c: Consumer, h: Handler, p: Producer<Msg>, lifetimes: seq<seq<Turn>>)
    returns (ran: nat)
    requires p.Valid() && CommitSafe(c, h, p, lifetimes) && InRange(c.log, c.committed)
    requires |c.starts| < |lifetimes|
    modifies c, h, p
    ensures p.Valid() && CommitSafe(c, h, p, lifetimes) && InRange(c.log, c.committed)
    ensures c.starts == old(c.starts) + [old(c.committed)] && Ordered(old(c.committed), c.committed)
    ensures Standing(c, lifetimes, ran)
    ensures var turns := lifetimes[|old(c.starts)|];
            ran < |turns| ==> ran > 0 && turns[ran - 1].Polled? && Stoppable(turns[ran - 1], old(p.status), p.status)
  {
    ghost var starts, seen := c.starts, Seen(p, h);
    c.Join();
    SafeLasts(c.log, lifetimes, starts, seen, c.starts, seen, c.committed);
    var turns := lifetimes[|c.starts| - 1];
    ran := 0;
    while ran < |turns|
      invariant p.Valid() && Standing(c, lifetimes, ran) && ReadSafe(c, h, p, lifetimes)
                && CommitSafe(c, h, p, lifetimes)
      invariant c.starts == starts + [old(c.committed)] && Ordered(old(c.committed), c.committed)
      invariant Evolves(old(p.sent), old(p.status), p.sent, p.status)
      decreases |turns| - ran
    {
      var go := TakeTurn(c, h, p, lifetimes, ran, old(p.sent), old(p.status));
      ran := ran + 1;
      if !go {
        return;
      }
    }
  }

  /** One turn of a lifetime, a failed poll included. */
  method TakeTurn(c: Consumer, h: Handler, p: Producer<Msg>, lifetimes: seq<seq<Turn>>, t: nat, ghost sent: seq<Msg>,
                  ghost status: seq<Status>)
    returns (go: bool)
    requires p.Valid() && Standing(c, lifetimes, t) && ReadSafe(c, h, p, lifetimes) && CommitSafe(c, h, p, lifetimes)
    requires t < |lifetimes[|c.starts| - 1]| && |sent| == |status| && Evolves(sent, status, p.sent, p.status)
    modifies c`position, c`committed, h, p
    ensures p.Valid() && Evolves(sent, status, p.sent, p.status)
    ensures Standing(c, lifetimes, t + 1) && CommitSafe(c, h, p, lifetimes) && Ordered(old(c.committed), c.committed)
    ensures go ==> ReadSafe(c, h, p, lifetimes)
    ensures var turn := lifetimes[|c.starts| - 1][t]; !go ==> turn.Polled? && Stoppable(turn, status, p.status)
  {
    go := true;
    if lifetimes[|c.starts| - 1][t].Polled? {
      ghost var sent', status' := p.sent, p.status;
      go := RunTurn(c, h, p, lifetimes, t);
      Blame(sent, status, sent', status', p.sent, p.status);
    }
  }

  /**
   * Any number of process lifetimes, one after the other. Every record below a committed
   * offset is a tombstone, or has its acknowledged dead letter, or was processed: a turn
   * of the schedule read it, an attempt of that very turn ran the handler on that very
   * batch, its report processed the record and its messages are acknowledged.
   */
  method RunLifetimes(c: Consumer, h: Handler, p: Producer<Msg>, lifetimes: seq<seq<Turn>>)
    requires p.Valid() && c.committed == map[] && c.starts == []
    modifies c, h, p
    ensures p.Valid() && |c.starts| == |lifetimes|
    ensures forall l :: 0 <= l < |c.starts| ==> Ordered(c.starts[l], c.committed)
    ensures |lifetimes| > 0 ==> c.starts[0] == map[]
    ensures HandledUpTo(c.log, lifetimes, c.starts, Seen(p, h), c.committed)
  {
    for l := 0 to |lifetimes|
      invariant p.Valid() && CommitSafe(c, h, p, lifetimes) && InRange(c.log, c.committed)
      invariant |c.starts| == l && forall k :: 0 <= k < l ==> Ordered(c.starts[k], c.committed)
      invariant if l == 0 then c.committed == map[] else c.starts[0] == map[]
    {
      var _ := RunConsumerLoop(c, h, p, lifetimes);
    }
    SafeIsHandled(c.log, lifetimes, c.starts, Seen(p, h), c.committed);
  }
}
