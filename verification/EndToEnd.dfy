/**
 * The containment engine end to end: the at-least-once loop of one consumer drives
 * apply_containment calls, while any other actors (other consumers, calls left over from
 * dead processes, manual overrides, rule expiry) run the same protocol concurrently.
 */
module EndToEnd {
  import opened Wrappers
  import opened Events
  import opened Containment
  import Protocol = ContainmentProtocol
  import Laws = ContainmentLaws
  import Messages
  import Batch = BatchHandling
  import Consumer = ConsumerLoop

  /** A record of the detections topic; what is not one either does not decode or does not validate. */
  datatype Payload = Tombstone | Garbage | Invalid | Detected(det: Detection)

  datatype Id = Id(partition: nat, offset: nat)

  type Log = map<nat, seq<Payload>>

  datatype Phase =
    | Collecting
    | Handling(next: nat, call: Option<nat>, failed: set<nat>)
    | Flushed

  /** The consumer: offsets, the batch in hand, and the dead letters acknowledged so far. */
  datatype Loop = Loop(committed: map<nat, nat>, position: map<nat, nat>, batch: seq<Id>, phase: Phase, dead: set<Id>)

  /** trace is the interleaving of protocol steps so far. */
  datatype State = State(trace: seq<Protocol.Step>, loop: Loop)

  datatype Step =
    | Concurrent(step: Protocol.Step)
    | Fetch(partition: nat)
    | StartBatch
    | Call(w: nat)
    | CallReturned
    | RecordFailed
    | TransientFailure
    | Flush(delivered: bool)
    | Commit(accepted: bool)
    | Crash

  function Redis(ttls: Ttls, db: Db, s: State): Protocol.State { Protocol.Run(ttls, db, s.trace) }

  function At(m: map<nat, nat>, p: nat): nat { if p in m then m[p] else 0 }

  predicate InLog(log: Log, id: Id) { id.partition in log && id.offset < |log[id.partition]| }

  function Read(log: Log, id: Id): Payload
    requires InLog(log, id)
  {
    log[id.partition][id.offset]
  }

  /** _commit: the last record of each partition decides. */
  function CommitAll(committed: map<nat, nat>, batch: seq<Id>): map<nat, nat> {
    if batch == [] then committed
    else
      var id := batch[|batch| - 1];
      CommitAll(committed, batch[..|batch| - 1])[id.partition := id.offset + 1]
  }

  /** Records of the batch that the attempt dead-letters. */
  function DeadOf(log: Log, batch: seq<Id>, failed: set<nat>): set<Id> {
    set i | 0 <= i < |batch| && (i in failed || (InLog(log, batch[i]) && Read(log, batch[i]).Garbage?)) :: batch[i]
  }

  const RESTART := Handling(0, None, {})

  /** A step that is not enabled does nothing. */
  function Next(ttls: Ttls, db: Db, log: Log, s: State, step: Step): State {
    var l := s.loop;
    match step
    case Concurrent(p) => s.(trace := s.trace + [p])
    case Fetch(p) =>
      var id := Id(p, At(l.position, p));
      if l.phase.Collecting? && InLog(log, id)
      then s.(loop := l.(batch := l.batch + [id], position := l.position[p := id.offset + 1]))
      else s
    case StartBatch =>
      if l.phase.Collecting? then s.(loop := l.(phase := RESTART)) else s
    case Call(w) =>
      if l.phase.Handling? && l.phase.call.None? && l.phase.next < |l.batch| && InLog(log, l.batch[l.phase.next]) then
        match Read(log, l.batch[l.phase.next])
        case Detected(d) =>
          if w in Redis(ttls, db, s).calls then s
          else State(s.trace + [Protocol.Begin(w, d)], l.(phase := l.phase.(call := Some(w))))
        case Invalid => s.(loop := l.(phase := Handling(l.phase.next + 1, None, l.phase.failed + {l.phase.next})))
        case _ => s.(loop := l.(phase := l.phase.(next := l.phase.next + 1)))
      else s
    case CallReturned =>
      if l.phase.Handling? && l.phase.call.Some? && l.phase.call.value in Redis(ttls, db, s).calls
         && Redis(ttls, db, s).calls[l.phase.call.value].pc.Done?
      then s.(loop := l.(phase := l.phase.(next := l.phase.next + 1, call := None)))
      else s
    case RecordFailed =>
      if l.phase.Handling? && l.phase.next < |l.batch| && InLog(log, l.batch[l.phase.next])
          && Read(log, l.batch[l.phase.next]).Detected?
      then s.(loop := l.(phase := Handling(l.phase.next + 1, None, l.phase.failed + {l.phase.next})))
      else s
    case TransientFailure =>
      if l.phase.Handling? then s.(loop := l.(phase := RESTART)) else s
    case Flush(delivered) =>
      if l.phase.Handling? && l.phase.next == |l.batch| then
        if delivered then s.(loop := l.(phase := Flushed, dead := l.dead + DeadOf(log, l.batch, l.phase.failed)))
        else s.(loop := l.(phase := RESTART))
      else s
    case Commit(accepted) =>
      if l.phase.Flushed?
      then s.(loop := l.(phase := Collecting, batch := [], committed :=
          if accepted then CommitAll(l.committed, l.batch) else l.committed))
      else s
    case Crash =>
      s.(loop := l.(phase := Collecting, batch := [], position := l.committed))
  }

  const START := State([], Loop(map[], map[], [], Collecting, {}))

  function Run(ttls: Ttls, db: Db, log: Log, steps: seq<Step>): State {
    if steps == [] then START
    else Next(ttls, db, log, Run(ttls, db, log, steps[..|steps| - 1]), steps[|steps| - 1])
  }

  // ---------------------------------------------------------------- what a settled record is

  /** A tombstone, an acknowledged dead letter, a no-op type, or applied, in this run or before it. */
  ghost predicate Settled(db: Db, log: Log, events: seq<Protocol.Event>, dead: set<Id>, id: Id) {
    && InLog(log, id)
    && match Read(log, id)
       case Tombstone => true
       case Garbage => id in dead
       case Invalid => id in dead
       case Detected(d) => id in dead || !Known(d) || HasReceipt(db, d.id) || Laws.Commits(events, d.id) >= 1
  }

  /** Handled in the current attempt, and settled once its dead letters are acknowledged. */
  ghost predicate Handled(db: Db, log: Log, events: seq<Protocol.Event>, dead: set<Id>, failed: set<nat>,
                          batch: seq<Id>, i: nat)
    requires i < |batch|
  {
    i in failed || (InLog(log, batch[i]) && (Read(log, batch[i]).Garbage? || Settled(db, log, events, dead, batch[i])))
  }

  ghost predicate LoopInv(db: Db, log: Log, c: Protocol.State, l: Loop) {
    && (forall id: Id :: id.offset < At(l.committed, id.partition) ==> Settled(db, log, c.log, l.dead, id))
    && (forall id: Id :: id.offset < At(l.position, id.partition) ==>
        Settled(db, log, c.log, l.dead, id) || id in l.batch)
    && (forall i :: 0 <= i < |l.batch| ==>
        InLog(log, l.batch[i]) && l.batch[i].offset < At(l.position, l.batch[i].partition))
    && match l.phase
       case Collecting => true
       case Flushed => forall i :: 0 <= i < |l.batch| ==> Settled(db, log, c.log, l.dead, l.batch[i])
       case Handling(next, call, failed) =>
         && next <= |l.batch|
         && (forall i :: 0 <= i < next ==> Handled(db, log, c.log, l.dead, failed, l.batch, i))
         && (call.Some? ==>
               && next < |l.batch| && call.value in c.calls
               && Read(log, l.batch[next]) == Detected(c.calls[call.value].det))
  }

  // ---------------------------------------------------------------- steps keep the invariant

  lemma {:induction false} CommitsPrefix(a: seq<Protocol.Event>, e: Protocol.Event, id: DetectionId)
    ensures Laws.Commits(a + [e], id) >= Laws.Commits(a, id)
  {
    assert (a + [e])[..|a|] == a;
  }

  /** One more protocol step: applied stays applied, calls keep their detection. */
  lemma {:induction false} TraceGrows(ttls: Ttls, db: Db, trace: seq<Protocol.Step>, p: Protocol.Step)
    ensures var a, b := Protocol.Run(ttls, db, trace), Protocol.Run(ttls, db, trace + [p]);
            && (forall id :: Laws.Commits(a.log, id) <= Laws.Commits(b.log, id))
            && (forall w :: w in a.calls ==> w in b.calls && b.calls[w].det == a.calls[w].det)
            && b == Protocol.Next(ttls, a, p)
  {
    var a, b := Protocol.Run(ttls, db, trace), Protocol.Run(ttls, db, trace + [p]);
    assert (trace + [p])[..|trace|] == trace;
    Laws.LogGrows(ttls, a, p);
    forall id ensures Laws.Commits(a.log, id) <= Laws.Commits(b.log, id) {
      if b.log != a.log {
        assert b.log == a.log + [b.log[|a.log|]];
        CommitsPrefix(a.log, b.log[|a.log|], id);
      }
    }
    forall w | w in a.calls ensures w in b.calls && b.calls[w].det == a.calls[w].det {
      Laws.CallEvolves(ttls, a, p, w);
    }
  }

  /** Settled records stay settled when only the protocol moves. */
  lemma ProtocolKeepsLoop(ttls: Ttls, db: Db, log: Log, s: State, p: Protocol.Step)
    requires LoopInv(db, log, Redis(ttls, db, s), s.loop)
    ensures LoopInv(db, log, Protocol.Run(ttls, db, s.trace + [p]), s.loop)
  {
    TraceGrows(ttls, db, s.trace, p);
    var a, b := Redis(ttls, db, s), Protocol.Run(ttls, db, s.trace + [p]);
    var l := s.loop;
    forall id | Settled(db, log, a.log, l.dead, id) ensures Settled(db, log, b.log, l.dead, id) {}
    if l.phase.Handling? {
      forall i | 0 <= i < l.phase.next ensures Handled(db, log, b.log, l.dead, l.phase.failed, l.batch, i) {
        assert Handled(db, log, a.log, l.dead, l.phase.failed, l.batch, i);
      }
    }
  }

  lemma {:induction false} CommitBounds(committed: map<nat, nat>, batch: seq<Id>, p: nat)
    ensures At(CommitAll(committed, batch), p) == At(committed, p) ||
            exists i :: 0 <= i < |batch| && batch[i].partition == p
                && At(CommitAll(committed, batch), p) == batch[i].offset + 1
    decreases |batch|
  {
    if batch != [] {
      var n := |batch| - 1;
      CommitBounds(committed, batch[..n], p);
      if batch[n].partition == p {
        assert At(CommitAll(committed, batch), p) == batch[n].offset + 1;
      } else if At(CommitAll(committed, batch), p) != At(committed, p) {
        var i :| 0 <= i < n && batch[..n][i].partition == p
            && At(CommitAll(committed, batch[..n]), p) == batch[..n][i].offset + 1;
        assert batch[i].partition == p && At(CommitAll(committed, batch), p) == batch[i].offset + 1;
      }
    }
  }

  lemma FlushSettles(db: Db, log: Log, c: Protocol.State, l: Loop)
    requires LoopInv(db, log, c, l) && l.phase.Handling? && l.phase.next == |l.batch|
    ensures LoopInv(db, log, c, l.(phase := Flushed, dead := l.dead + DeadOf(log, l.batch, l.phase.failed)))
  {
    var dead := l.dead + DeadOf(log, l.batch, l.phase.failed);
    forall i | 0 <= i < |l.batch| ensures Settled(db, log, c.log, dead, l.batch[i]) {
      assert Handled(db, log, c.log, l.dead, l.phase.failed, l.batch, i);
      if i in l.phase.failed || Read(log, l.batch[i]).Garbage? {
        assert l.batch[i] in DeadOf(log, l.batch, l.phase.failed);
      }
    }
    forall id | Settled(db, log, c.log, l.dead, id) ensures Settled(db, log, c.log, dead, id) {}
  }

  lemma CommitKeepsLoop(db: Db, log: Log, c: Protocol.State, l: Loop, accepted: bool)
    requires LoopInv(db, log, c, l) && l.phase.Flushed?
    ensures LoopInv(db, log, c,
              l.(phase := Collecting, batch := [], committed := if accepted then CommitAll(l.committed, l.batch)
              else l.committed))
  {
    forall id: Id | id.offset < At(l.position, id.partition) ensures Settled(db, log, c.log, l.dead, id) {
      if id in l.batch {
        var i :| 0 <= i < |l.batch| && l.batch[i] == id;
      }
    }
    var after := CommitAll(l.committed, l.batch);
    forall id: Id | id.offset < At(after, id.partition) ensures Settled(db, log, c.log, l.dead, id) {
      CommitBounds(l.committed, l.batch, id.partition);
    }
  }

  lemma SkipKeepsLoop(db: Db, log: Log, c: Protocol.State, l: Loop)
    requires LoopInv(db, log, c, l) && l.phase.Handling? && l.phase.call.None? && l.phase.next < |l.batch|
    requires !Read(log, l.batch[l.phase.next]).Detected? && !Read(log, l.batch[l.phase.next]).Invalid?
    ensures LoopInv(db, log, c, l.(phase := l.phase.(next := l.phase.next + 1)))
  {
    forall i | 0 <= i < l.phase.next + 1 ensures Handled(db, log, c.log, l.dead, l.phase.failed, l.batch, i) {
      if i < l.phase.next { assert Handled(db, log, c.log, l.dead, l.phase.failed, l.batch, i); }
    }
  }

  lemma AwaitKeepsLoop(db: Db, log: Log, c: Protocol.State, l: Loop, w: nat)
    requires LoopInv(db, log, c, l) && l.phase.Handling? && l.phase.next < |l.batch|
    requires w in c.calls && Read(log, l.batch[l.phase.next]) == Detected(c.calls[w].det)
    ensures LoopInv(db, log, c, l.(phase := l.phase.(call := Some(w))))
  {
  }

  lemma BeginAddsCall(ttls: Ttls, db: Db, trace: seq<Protocol.Step>, w: nat, d: Detection)
    requires w !in Protocol.Run(ttls, db, trace).calls
    ensures var c := Protocol.Run(ttls, db, trace + [Protocol.Begin(w, d)]); w in c.calls && c.calls[w].det == d
  {
    assert (trace + [Protocol.Begin(w, d)])[..|trace|] == trace;
  }

  lemma BegunKeepsLoop(ttls: Ttls, db: Db, log: Log, s: State, w: nat, d: Detection)
    requires LoopInv(db, log, Redis(ttls, db, s), s.loop) && s.loop.phase.Handling?
             && s.loop.phase.next < |s.loop.batch|
    requires Read(log, s.loop.batch[s.loop.phase.next]) == Detected(d) && w !in Redis(ttls, db, s).calls
    ensures LoopInv(db, log, Protocol.Run(ttls, db, s.trace + [Protocol.Begin(w, d)]),
              s.loop.(phase := s.loop.phase.(call := Some(w))))
  {
    ProtocolKeepsLoop(ttls, db, log, s, Protocol.Begin(w, d));
    BeginAddsCall(ttls, db, s.trace, w, d);
    AwaitKeepsLoop(db, log, Protocol.Run(ttls, db, s.trace + [Protocol.Begin(w, d)]), s.loop, w);
  }

  lemma CallKeepsLoop(ttls: Ttls, db: Db, log: Log, s: State, w: nat)
    requires LoopInv(db, log, Redis(ttls, db, s), s.loop) && Next(ttls, db, log, s, Call(w)) != s
    ensures var s' := Next(ttls, db, log, s, Call(w)); LoopInv(db, log, Redis(ttls, db, s'), s'.loop)
  {
    var l := s.loop;
    match Read(log, l.batch[l.phase.next])
    case Detected(d) => BegunKeepsLoop(ttls, db, log, s, w, d);
    case Invalid => FailureKeepsLoop(db, log, Redis(ttls, db, s), l);
    case Tombstone => SkipKeepsLoop(db, log, Redis(ttls, db, s), l);
    case Garbage => SkipKeepsLoop(db, log, Redis(ttls, db, s), l);
  }

  /** A record that is settled already needs nothing more of this attempt. */
  lemma SettledKeepsLoop(db: Db, log: Log, c: Protocol.State, l: Loop)
    requires LoopInv(db, log, c, l) && l.phase.Handling? && l.phase.next < |l.batch|
    requires Settled(db, log, c.log, l.dead, l.batch[l.phase.next])
    ensures LoopInv(db, log, c, l.(phase := l.phase.(next := l.phase.next + 1, call := None)))
  {
    forall i | 0 <= i < l.phase.next + 1 ensures Handled(db, log, c.log, l.dead, l.phase.failed, l.batch, i) {
      if i < l.phase.next { assert Handled(db, log, c.log, l.dead, l.phase.failed, l.batch, i); }
    }
  }

  lemma AwaitedIsSettled(ttls: Ttls, db: Db, log: Log, s: State)
    requires LoopInv(db, log, Redis(ttls, db, s), s.loop) && s.loop.phase.Handling? && s.loop.phase.call.Some?
    requires Redis(ttls, db, s).calls[s.loop.phase.call.value].pc.Done?
    ensures Settled(db, log, Redis(ttls, db, s).log, s.loop.dead, s.loop.batch[s.loop.phase.next])
  {
    var w := s.loop.phase.call.value;
    if Known(Redis(ttls, db, s).calls[w].det) { Laws.FinishedWasApplied(ttls, db, s.trace, w); }
  }

  lemma ReturnKeepsLoop(ttls: Ttls, db: Db, log: Log, s: State)
    requires LoopInv(db, log, Redis(ttls, db, s), s.loop) && Next(ttls, db, log, s, CallReturned) != s
    ensures var s' := Next(ttls, db, log, s, CallReturned); LoopInv(db, log, Redis(ttls, db, s'), s'.loop)
  {
    AwaitedIsSettled(ttls, db, log, s);
    SettledKeepsLoop(db, log, Redis(ttls, db, s), s.loop);
  }

  lemma RestartKeepsLoop(db: Db, log: Log, c: Protocol.State, l: Loop)
    requires LoopInv(db, log, c, l)
    ensures LoopInv(db, log, c, l.(phase := RESTART))
    ensures LoopInv(db, log, c, l.(phase := Collecting, batch := [], position := l.committed))
  {
  }

  lemma NextKeepsLoop(ttls: Ttls, db: Db, log: Log, s: State, step: Step)
    requires LoopInv(db, log, Redis(ttls, db, s), s.loop)
    ensures var s' := Next(ttls, db, log, s, step); LoopInv(db, log, Redis(ttls, db, s'), s'.loop)
  {
    if Next(ttls, db, log, s, step) != s {
      match step
      case Concurrent(p) => ProtocolKeepsLoop(ttls, db, log, s, p);
      case Call(w) => CallKeepsLoop(ttls, db, log, s, w);
      case CallReturned => ReturnKeepsLoop(ttls, db, log, s);
      case _ => LocalKeepsLoop(ttls, db, log, s, step);
    }
  }

  /** Steps of the loop that leave the protocol where it is. */
  lemma LocalKeepsLoop(ttls: Ttls, db: Db, log: Log, s: State, step: Step)
    requires LoopInv(db, log, Redis(ttls, db, s), s.loop) && Next(ttls, db, log, s, step) != s
    requires !step.Concurrent? && !step.Call? && !step.CallReturned?
    ensures var s' := Next(ttls, db, log, s, step); LoopInv(db, log, Redis(ttls, db, s'), s'.loop)
  {
    var l, c := s.loop, Redis(ttls, db, s);
    match step
    case Fetch(p) => FetchKeepsLoop(db, log, c, l, p);
    case RecordFailed => FailureKeepsLoop(db, log, c, l);
    case Flush(delivered) => if delivered { FlushSettles(db, log, c, l); } else { RestartKeepsLoop(db, log, c, l); }
    case Commit(accepted) => CommitKeepsLoop(db, log, c, l, accepted);
    case _ => RestartKeepsLoop(db, log, c, l);
  }

  lemma FetchKeepsLoop(db: Db, log: Log, c: Protocol.State, l: Loop, p: nat)
    requires LoopInv(db, log, c, l) && l.phase.Collecting? && InLog(log, Id(p, At(l.position, p)))
    ensures var id := Id(p, At(l.position, p));
            LoopInv(db, log, c, l.(batch := l.batch + [id], position := l.position[p := id.offset + 1]))
  {
    var id := Id(p, At(l.position, p));
    var l' := l.(batch := l.batch + [id], position := l.position[p := id.offset + 1]);
    forall x: Id | x.offset < At(l'.position, x.partition)
        ensures Settled(db, log, c.log, l'.dead, x) || x in l'.batch {
      if x != id { assert x.offset < At(l.position, x.partition); }
    }
  }

  lemma FailureKeepsLoop(db: Db, log: Log, c: Protocol.State, l: Loop)
    requires LoopInv(db, log, c, l) && l.phase.Handling? && l.phase.next < |l.batch|
    ensures LoopInv(db, log, c, l.(phase := Handling(l.phase.next + 1, None, l.phase.failed + {l.phase.next})))
  {
    forall i | 0 <= i < l.phase.next + 1
      ensures Handled(db, log, c.log, l.dead, l.phase.failed + {l.phase.next}, l.batch, i)
    {
      if i < l.phase.next { assert Handled(db, log, c.log, l.dead, l.phase.failed, l.batch, i); }
    }
  }

  // ---------------------------------------------------------------- progress

  lemma RunAppend(ttls: Ttls, db: Db, trace: seq<Protocol.Step>, p: Protocol.Step)
    ensures Protocol.Run(ttls, db, trace + [p]) == Protocol.Next(ttls, Protocol.Run(ttls, db, trace), p)
  {
    assert (trace + [p])[..|trace|] == trace;
  }

  /** The protocol steps of one undisturbed pass. */
  function Pass(ttls: Ttls, db: Db, log: Log, s: State, w: nat): State {
    Next(ttls, db, log,
         Next(ttls, db, log,
              Next(ttls, db, log,
                   Next(ttls, db, log, s, Concurrent(Protocol.Watch(w))),
                   Concurrent(Protocol.Get(w))),
              Concurrent(Protocol.MakePlan(w))),
         Concurrent(Protocol.Exec(w)))
  }

  lemma PassRuns(ttls: Ttls, db: Db, log: Log, s: State, w: nat)
    requires w in Redis(ttls, db, s).calls && Redis(ttls, db, s).calls[w].pc.Ready?
    ensures var c, after := Redis(ttls, db, s), Pass(ttls, db, log, s, w);
            && after.loop == s.loop
            && Redis(ttls, db, after).db == ApplyAtomic(c.db, c.calls[w].det, ttls)
            && w in Redis(ttls, db, after).calls && Redis(ttls, db, after).calls[w].pc.Done?
  {
    var c := Redis(ttls, db, s);
    var c1 := Protocol.Next(ttls, c, Protocol.Watch(w));
    var c2 := Protocol.Next(ttls, c1, Protocol.Get(w));
    var c3 := Protocol.Next(ttls, c2, Protocol.MakePlan(w));
    var t1 := s.trace + [Protocol.Watch(w)];
    var t2 := t1 + [Protocol.Get(w)];
    var t3 := t2 + [Protocol.MakePlan(w)];
    RunAppend(ttls, db, s.trace, Protocol.Watch(w));
    RunAppend(ttls, db, t1, Protocol.Get(w));
    RunAppend(ttls, db, t2, Protocol.MakePlan(w));
    RunAppend(ttls, db, t3, Protocol.Exec(w));
    assert Redis(ttls, db, Pass(ttls, db, log, s, w)) == Protocol.Next(ttls, c3, Protocol.Exec(w));
    Protocol.UndisturbedPassFinishes(ttls, c, w);
  }

  /** A record that nothing interferes with is handled: its call begins, passes and returns, applied. */
  lemma {:induction false} RecordGoesThrough(ttls: Ttls, db: Db, log: Log, s: State, w: nat, d: Detection)
    requires var l := s.loop;
             && l.phase.Handling? && l.phase.call.None? && l.phase.next < |l.batch|
             && InLog(log, l.batch[l.phase.next]) && Read(log, l.batch[l.phase.next]) == Detected(d)
    requires w !in Redis(ttls, db, s).calls
    ensures var after := Next(ttls, db, log, Pass(ttls, db, log, Next(ttls, db, log, s, Call(w)), w), CallReturned);
            && after.loop == s.loop.(phase := Handling(s.loop.phase.next + 1, None, s.loop.phase.failed))
            && Redis(ttls, db, after).db == ApplyAtomic(Redis(ttls, db, s).db, d, ttls)
  {
    var begun := Next(ttls, db, log, s, Call(w));
    RunAppend(ttls, db, s.trace, Protocol.Begin(w, d));
    PassRuns(ttls, db, log, begun, w);
  }

  /** A batch that has been gone through and whose messages are delivered is committed, and its dead letters are out. */
  lemma BatchIsCommitted(ttls: Ttls, db: Db, log: Log, s: State)
    requires s.loop.phase.Handling? && s.loop.phase.next == |s.loop.batch|
    ensures var after := Next(ttls, db, log, Next(ttls, db, log, s, Flush(true)), Commit(true));
            var l := s.loop;
            && after.loop == Loop(CommitAll(l.committed, l.batch), l.position, [], Collecting,
                l.dead + DeadOf(log, l.batch, l.phase.failed))
            && after.trace == s.trace
  {
  }

  // ---------------------------------------------------------------- this loop and the consumer loop

  /** The record as the consumer loop polls it. */
  function RecOf(log: Log, id: Id): Messages.Rec
    requires InLog(log, id)
  {
    var value := match Read(log, id)
                 case Tombstone => Messages.Tombstone
                 case Garbage => Messages.Undecodable
                 case Invalid => Messages.Readable(Messages.Value(None, None, None))
                 case Detected(d) => Messages.Readable(Messages.Value(None, None, Some(d)));
    Messages.Rec(PartitionOf(id.partition), id.offset, value)
  }

  function PartitionOf(p: nat): Messages.TopicPartition { Messages.TopicPartition("detections", p) }

  function RecsOf(log: Log, batch: seq<Id>): seq<Messages.Rec>
    requires forall i :: 0 <= i < |batch| ==> InLog(log, batch[i])
  {
    seq(|batch|, i requires 0 <= i < |batch| => RecOf(log, batch[i]))
  }

  /** Both commit the same offsets. */
  lemma {:induction false} CommitsAgree(log: Log, committed: map<nat, nat>, batch: seq<Id>, p: nat)
    requires forall i :: 0 <= i < |batch| ==> InLog(log, batch[i])
    ensures var last := Consumer.LastOffsets(RecsOf(log, batch));
            At(CommitAll(committed, batch), p) == if PartitionOf(p) in last then last[PartitionOf(p)]
                else At(committed, p)
    decreases |batch|
  {
    if batch != [] {
      var n := |batch| - 1;
      CommitsAgree(log, committed, batch[..n], p);
      assert RecsOf(log, batch)[..n] == RecsOf(log, batch[..n]);
    }
  }

  /** Failures by position among the decoded records, as the handler reports them. */
  function Reported(rs: seq<Messages.Rec>, failed: set<nat>): Batch.Report {
    Batch.Handled(set i | i in failed && i < |rs| :: |Batch.Decoded(rs[..i])|)
  }

  lemma {:induction false} DecodedGrows(rs: seq<Messages.Rec>, i: nat, j: nat)
    requires i < j <= |rs| && rs[i].payload.Readable?
    ensures |Batch.Decoded(rs[..i])| < |Batch.Decoded(rs[..j])|
    decreases j
  {
    assert rs[..j][..j - 1] == rs[..j - 1];
    if i < j - 1 { DecodedGrows(rs, i, j - 1); }
  }

  /** Both dead-letter the same records. */
  lemma {:induction false} DeadAgree(log: Log, batch: seq<Id>, failed: set<nat>, i: nat)
    requires forall k :: 0 <= k < |batch| ==> InLog(log, batch[k])
    requires forall j, k :: 0 <= j < k < |batch| ==> batch[j] != batch[k]
    requires forall k :: k in failed ==> k < |batch| && RecOf(log, batch[k]).payload.Readable?
    requires i < |batch|
    ensures var rs := RecsOf(log, batch);
            batch[i] in DeadOf(log, batch, failed) <==> rs[i] in Batch.DeadBy(rs, Reported(rs, failed))
  {
    var rs := RecsOf(log, batch);
    var report, k := Reported(rs, failed), |Batch.Decoded(rs[..i])|;
    forall j, l | 0 <= j < l < |rs| ensures rs[j] != rs[l] {
      assert batch[j] != batch[l];
    }
    Batch.ExactlyOneClass(rs, report, i);
    if rs[i].payload.Readable? && k in report.failures {
      var j :| j in failed && j < |rs| && |Batch.Decoded(rs[..j])| == k;
      if j < i { DecodedGrows(rs, j, i); }
      if i < j { DecodedGrows(rs, i, j); }
    }
    assert batch[i] in DeadOf(log, batch, failed) <==> i in failed || Read(log, batch[i]).Garbage?;
  }

  // ---------------------------------------------------------------- the theorem

  lemma {:induction false} LoopInvHolds(ttls: Ttls, db: Db, log: Log, steps: seq<Step>)
    ensures var s := Run(ttls, db, log, steps); LoopInv(db, log, Redis(ttls, db, s), s.loop)
    decreases |steps|
  {
    if steps != [] {
      LoopInvHolds(ttls, db, log, steps[..|steps| - 1]);
      NextKeepsLoop(ttls, db, log, Run(ttls, db, log, steps[..|steps| - 1]), steps[|steps| - 1]);
    }
  }

  /**
   * For any mix of crashes, lost replies, failed commits, redeliveries, expiries and
   * concurrent actors: every record below a committed offset is a tombstone, is
   * dead-lettered, is of a type without containment, or has been applied. Detection by
   * detection, if its receipt was not there before and has not expired, no more than one
   * EXEC has applied it, so that such a record has been applied by exactly one.
   */
  lemma {:induction false} CommittedMeansContained(ttls: Ttls, db: Db, log: Log, steps: seq<Step>)
    ensures var s := Run(ttls, db, log, steps);
            var events := Redis(ttls, db, s).log;
            && (forall id: Id :: id.offset < At(s.loop.committed, id.partition) ==>
                Settled(db, log, events, s.loop.dead, id))
            && (forall d :: Laws.ReceiptKept(db, s.trace, d) ==> Laws.Commits(events, d) <= 1)
            && (forall id: Id :: id.offset < At(s.loop.committed, id.partition) ==>
                  && InLog(log, id)
                  && (Read(log, id).Detected? ==>
                        var d := Read(log, id).det;
                        Known(d) && id !in s.loop.dead && Laws.ReceiptKept(db, s.trace, d.id) ==>
                            Laws.Commits(events, d.id) == 1))
  {
    var s := Run(ttls, db, log, steps);
    LoopInvHolds(ttls, db, log, steps);
    forall d | Laws.ReceiptKept(db, s.trace, d) ensures Laws.Commits(Redis(ttls, db, s).log, d) <= 1 {
      Laws.ExactlyOnce(ttls, db, s.trace, d);
    }
  }
}
