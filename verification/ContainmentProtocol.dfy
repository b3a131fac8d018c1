/**
 * apply_containment as a concurrent protocol: any number of calls, each a WATCH / GET /
 * plan / MULTI-EXEC loop, interleaved command by command with one another, with manual
 * overrides, with key expiry, with lost replies and lost connections.
 */
module ContainmentProtocol {
  import opened Wrappers
  import opened Events
  import opened Containment

  datatype Actor = Worker(w: nat) | Api | Clock

  datatype Change =
    | Commit(det: Detection, plan: Plan)
    | Observe(det: Detection, actions: seq<Action>)
    | SetRule(key: Key, ttl: nat)
    | Drop(key: Key)

  /** One linearization event; the log lists them in the order they took effect. */
  datatype Event = Event(actor: Actor, change: Change)

  /** Where a call stands; r and g are the versions of receipt and guard seen by WATCH. */
  datatype Pc =
    | Ready
    | Watching(r: nat, g: nat)
    | NoReceipt(r: nat, g: nat)
    | Planned(r: nat, g: nat, plan: Plan)
    | Done(actions: seq<Action>)
    | Lost

  /**
   * base is the number of changes to receipt and guard before the call began, begun the
   * number of events.
   */
  datatype Call = Call(det: Detection, pc: Pc, retries: nat, base: nat, begun: nat)

  datatype State = State(db: Db, log: seq<Event>, calls: map<nat, Call>)

  datatype Step =
    | Begin(w: nat, det: Detection)
    | Watch(w: nat)
    | Get(w: nat)
    | MakePlan(w: nat)
    | Exec(w: nat)
    | ExecReplyLost(w: nat)
    | Disconnect(w: nat)
    | ApiSet(key: Key, ttl: nat)
    | ApiDelete(key: Key)
    | Expire(key: Key)

  predicate Touches(e: Event, k: Key) {
    match e.change
    case Commit(d, plan) => Writes(d, plan, k)
    case Observe(_, _) => false
    case SetRule(key, _) => key == k
    case Drop(key) => key == k
  }

  /** How often a key has changed. WATCH compares this. */
  function Version(log: seq<Event>, k: Key): nat {
    if log == [] then 0
    else Version(log[..|log| - 1], k) + if Touches(log[|log| - 1], k) then 1 else 0
  }

  function Conflicts(log: seq<Event>, d: Detection): nat {
    Version(log, Receipt(d.id)) + Version(log, Guard(d))
  }

  function Move(s: State, w: nat, pc: Pc): State
    requires w in s.calls
  {
    s.(calls := s.calls[w := s.calls[w].(pc := pc)])
  }

  function Record(s: State, actor: Actor, change: Change, db: Db): State {
    s.(db := db, log := s.log + [Event(actor, change)])
  }

  predicate Unchanged(s: State, c: Call)
    requires c.pc.Planned?
  {
    Version(s.log, Receipt(c.det.id)) == c.pc.r && Version(s.log, Guard(c.det)) == c.pc.g
  }

  /** EXEC: applies the queued commands iff no watched key changed since WATCH. */
  function DoExec(ttls: Ttls, s: State, w: nat, replyLost: bool): State
    requires w in s.calls && s.calls[w].pc.Planned?
  {
    var c := s.calls[w];
    if Unchanged(s, c) then
      Move(Record(s, Worker(w), Commit(c.det, c.pc.plan), Execute(s.db, c.det, c.pc.plan, ttls)), w,
           if replyLost then Lost else Done(c.pc.plan.actions))
    else if replyLost then Move(s, w, Lost)
    else s.(calls := s.calls[w := c.(pc := Ready, retries := c.retries + 1)])
  }

  function DoGet(s: State, w: nat): State
    requires w in s.calls && s.calls[w].pc.Watching?
  {
    var c := s.calls[w];
    if HasReceipt(s.db, c.det.id) then
      var actions := ReceiptActions(s.db, c.det.id);
      Move(Record(s, Worker(w), Observe(c.det, actions), s.db), w, Done(actions))
    else if !Known(c.det) then
      Move(Record(s, Worker(w), Observe(c.det, []), s.db), w, Done([]))
    else Move(s, w, NoReceipt(c.pc.r, c.pc.g))
  }

  /** A step that is not enabled does nothing. */
  function Next(ttls: Ttls, s: State, step: Step): State {
    match step
    case Begin(w, d) =>
      if w in s.calls then s else s.(calls := s.calls[w := Call(d, Ready, 0, Conflicts(s.log, d), |s.log|)])
    case Watch(w) =>
      if w in s.calls && s.calls[w].pc.Ready? then
        Move(s, w, Watching(Version(s.log, Receipt(s.calls[w].det.id)), Version(s.log, Guard(s.calls[w].det))))
      else s
    case Get(w) =>
      if w in s.calls && s.calls[w].pc.Watching? then DoGet(s, w) else s
    case MakePlan(w) =>
      if w in s.calls && s.calls[w].pc.NoReceipt? then
        var c := s.calls[w];
        Move(s, w, Planned(c.pc.r, c.pc.g, PlanFor(c.det, Guard(c.det) in s.db, ttls)))
      else s
    case Exec(w) =>
      if w in s.calls && s.calls[w].pc.Planned? then DoExec(ttls, s, w, false) else s
    case ExecReplyLost(w) =>
      if w in s.calls && s.calls[w].pc.Planned? then DoExec(ttls, s, w, true) else s
    case Disconnect(w) =>
      if w in s.calls && !s.calls[w].pc.Done? then Move(s, w, Lost) else s
    case ApiSet(k, ttl) =>
      if k.Quarantine? || k.IpBlock? then Record(s, Api, SetRule(k, ttl), s.db[k := Rule(ByApi, ttl)]) else s
    case ApiDelete(k) =>
      if k in s.db && !k.Receipt? then Record(s, Api, Drop(k), s.db - {k}) else s
    case Expire(k) =>
      if k in s.db then Record(s, Clock, Drop(k), s.db - {k}) else s
  }

  function Init(db: Db): State { State(db, [], map[]) }

  function Run(ttls: Ttls, db: Db, steps: seq<Step>): State {
    if steps == [] then Init(db) else Next(ttls, Run(ttls, db, steps[..|steps| - 1]), steps[|steps| - 1])
  }

  // ---------------------------------------------------------------- the sequential specification

  function Effect(ttls: Ttls, db: Db, e: Event): Db {
    match e.change
    case Commit(d, _) => ApplyAtomic(db, d, ttls)
    case Observe(d, _) => ApplyAtomic(db, d, ttls)
    case SetRule(k, ttl) => db[k := Rule(ByApi, ttl)]
    case Drop(k) => db - {k}
  }

  /** The database a one-at-a-time execution of the log would produce. */
  function Replay(ttls: Ttls, db: Db, log: seq<Event>): Db {
    if log == [] then db else Effect(ttls, Replay(ttls, db, log[..|log| - 1]), log[|log| - 1])
  }

  /** The event did exactly what an atomic application at that instant would have done. */
  ghost predicate AsIfAtomic(ttls: Ttls, db: Db, e: Event) {
    match e.change
    case Commit(d, plan) => !HasReceipt(db, d.id) && Known(d) && plan == PlanFor(d, Guard(d) in db, ttls)
    case Observe(d, actions) => (HasReceipt(db, d.id) || !Known(d)) && actions == AtomicActions(db, d, ttls)
    case SetRule(k, _) => k.Quarantine? || k.IpBlock?
    case Drop(k) => k in db && (k.Receipt? ==> e.actor == Clock)
  }

  ghost predicate Sequential(ttls: Ttls, db: Db, log: seq<Event>) {
    log == [] || (Sequential(ttls, db, log[..|log| - 1])
        && AsIfAtomic(ttls, Replay(ttls, db, log[..|log| - 1]), log[|log| - 1]))
  }

  // ---------------------------------------------------------------- frame and versions

  lemma VersionAppend(log: seq<Event>, e: Event, k: Key)
    ensures Version(log + [e], k) == Version(log, k) + if Touches(e, k) then 1 else 0
  {
    assert (log + [e])[..|log|] == log;
  }

  /** An event leaves every key it does not touch as it was. */
  lemma EffectFrame(ttls: Ttls, db: Db, e: Event, k: Key)
    requires AsIfAtomic(ttls, db, e) && !Touches(e, k)
    ensures Lookup(Effect(ttls, db, e), k) == Lookup(db, k)
  {
    if e.change.Commit? {
      ExecuteFrame(db, e.change.det, Guard(e.change.det) in db, ttls, k);
    }
  }

  // ---------------------------------------------------------------- the invariant

  /** What a call may rely on while the keys it watches have not changed. */
  ghost predicate WatchSound(ttls: Ttls, s: State, c: Call) {
    var receipt, guard := Version(s.log, Receipt(c.det.id)), Version(s.log, Guard(c.det));
    match c.pc
    case NoReceipt(r, g) => Known(c.det) && (r == receipt ==> !HasReceipt(s.db, c.det.id))
    case Planned(r, g, plan) =>
      && Known(c.det)
      && (r == receipt ==> !HasReceipt(s.db, c.det.id))
      && (g == guard ==> plan == PlanFor(c.det, Guard(c.det) in s.db, ttls))
    case _ => true
  }

  /** Each failed EXEC of the call is paid for by a change to a key it watches. */
  ghost predicate RetriesPaid(s: State, c: Call) {
    var receipt, guard := Version(s.log, Receipt(c.det.id)), Version(s.log, Guard(c.det));
    match c.pc
    case Watching(r, g) => r <= receipt && g <= guard && c.retries + c.base <= r + g
    case NoReceipt(r, g) => r <= receipt && g <= guard && c.retries + c.base <= r + g
    case Planned(r, g, _) => r <= receipt && g <= guard && c.retries + c.base <= r + g
    case _ => c.retries + c.base <= receipt + guard
  }

  /** A finished call is in the log, after its beginning, with the answer it returned. */
  ghost predicate Answered(s: State, w: nat, c: Call) {
    && c.begun <= |s.log|
    && (c.pc.Done? ==> exists i :: c.begun <= i < |s.log| && AnswerAt(s.log[i], w, c))
  }

  ghost predicate AnswerAt(e: Event, w: nat, c: Call) {
    && e.actor == Worker(w)
    && (e.change.Commit? || e.change.Observe?)
    && e.change.det == c.det
    && c.pc == Done(if e.change.Commit? then e.change.plan.actions else e.change.actions)
  }

  ghost predicate CallOk(ttls: Ttls, s: State, w: nat)
    requires w in s.calls
  {
    WatchSound(ttls, s, s.calls[w]) && RetriesPaid(s, s.calls[w]) && Answered(s, w, s.calls[w])
  }

  ghost predicate Inv(ttls: Ttls, db: Db, s: State) {
    && s.db == Replay(ttls, db, s.log)
    && Sequential(ttls, db, s.log)
    && forall w :: w in s.calls ==> CallOk(ttls, s, w)
  }

  /** Appending an atomic event keeps the log sequential and every call sound. */
  lemma RecordKeepsCall(ttls: Ttls, s: State, e: Event, w: nat)
    requires w in s.calls && CallOk(ttls, s, w) && AsIfAtomic(ttls, s.db, e)
    ensures CallOk(ttls, s.(db := Effect(ttls, s.db, e), log := s.log + [e]), w)
  {
    var c := s.calls[w];
    var receipt, guard := Receipt(c.det.id), Guard(c.det);
    VersionAppend(s.log, e, receipt);
    VersionAppend(s.log, e, guard);
    if !Touches(e, receipt) { EffectFrame(ttls, s.db, e, receipt); }
    if !Touches(e, guard) { EffectFrame(ttls, s.db, e, guard); }
    if c.pc.Done? {
      var i :| c.begun <= i < |s.log| && AnswerAt(s.log[i], w, c);
      assert (s.log + [e])[i] == s.log[i];
    }
  }

  lemma RecordKeepsInv(ttls: Ttls, db: Db, s: State, e: Event)
    requires Inv(ttls, db, s) && AsIfAtomic(ttls, s.db, e)
    ensures Inv(ttls, db, s.(db := Effect(ttls, s.db, e), log := s.log + [e]))
  {
    assert (s.log + [e])[..|s.log|] == s.log;
    forall w | w in s.calls ensures CallOk(ttls, s.(db := Effect(ttls, s.db, e), log := s.log + [e]), w) {
      RecordKeepsCall(ttls, s, e, w);
    }
  }

  /** Replacing one call's state by a sound one keeps the invariant. */
  lemma MoveKeepsInv(ttls: Ttls, db: Db, s: State, w: nat, c: Call)
    requires Inv(ttls, db, s)
    requires WatchSound(ttls, s, c) && RetriesPaid(s, c) && Answered(s, w, c)
    ensures Inv(ttls, db, s.(calls := s.calls[w := c]))
  {
    var s' := s.(calls := s.calls[w := c]);
    forall v | v in s'.calls ensures CallOk(ttls, s', v) {
      if v != w { assert CallOk(ttls, s, v); }
    }
  }

  lemma CommitKeepsInv(ttls: Ttls, db: Db, s: State, w: nat, replyLost: bool)
    requires Inv(ttls, db, s) && w in s.calls && s.calls[w].pc.Planned? && Unchanged(s, s.calls[w])
    ensures Inv(ttls, db, DoExec(ttls, s, w, replyLost))
  {
    var c := s.calls[w];
    assert CallOk(ttls, s, w);
    var e := Event(Worker(w), Commit(c.det, c.pc.plan));
    assert AsIfAtomic(ttls, s.db, e);
    RecordKeepsInv(ttls, db, s, e);
    var s1 := s.(db := Effect(ttls, s.db, e), log := s.log + [e]);
    var c1 := c.(pc := if replyLost then Lost else Done(c.pc.plan.actions));
    FinishedIsSound(ttls, s, s1, e, w, c, c1);
    MoveKeepsInv(ttls, db, s1, w, c1);
  }

  lemma ExecKeepsInv(ttls: Ttls, db: Db, s: State, w: nat, replyLost: bool)
    requires Inv(ttls, db, s) && w in s.calls && s.calls[w].pc.Planned?
    ensures Inv(ttls, db, DoExec(ttls, s, w, replyLost))
  {
    var c := s.calls[w];
    assert CallOk(ttls, s, w);
    if Unchanged(s, c) {
      CommitKeepsInv(ttls, db, s, w, replyLost);
    } else {
      MoveKeepsInv(ttls, db, s, w, if replyLost then c.(pc := Lost) else c.(pc := Ready, retries := c.retries + 1));
    }
  }

  lemma FinishedIsSound(ttls: Ttls, s: State, s1: State, e: Event, w: nat, c: Call, c1: Call)
    requires RetriesPaid(s, c) && s1.log == s.log + [e] && c.begun <= |s.log|
    requires c1 == c.(pc := c1.pc) && (c1.pc.Lost? || AnswerAt(e, w, c1))
    ensures WatchSound(ttls, s1, c1) && RetriesPaid(s1, c1) && Answered(s1, w, c1)
  {
    VersionAppend(s.log, e, Receipt(c.det.id));
    VersionAppend(s.log, e, Guard(c.det));
    assert s1.log[|s.log|] == e;
  }

  lemma {:induction false} GetKeepsInv(ttls: Ttls, db: Db, s: State, w: nat)
    requires Inv(ttls, db, s) && w in s.calls && s.calls[w].pc.Watching?
    ensures Inv(ttls, db, DoGet(s, w))
  {
    if HasReceipt(s.db, s.calls[w].det.id) {
      ObserveKeepsInv(ttls, db, s, w, ReceiptActions(s.db, s.calls[w].det.id));
    } else if !Known(s.calls[w].det) {
      ObserveKeepsInv(ttls, db, s, w, []);
    } else {
      MissKeepsInv(ttls, db, s, w);
    }
  }

  lemma {:induction false} MissKeepsInv(ttls: Ttls, db: Db, s: State, w: nat)
    requires Inv(ttls, db, s) && w in s.calls && s.calls[w].pc.Watching?
    requires !HasReceipt(s.db, s.calls[w].det.id) && Known(s.calls[w].det)
    ensures Inv(ttls, db, Move(s, w, NoReceipt(s.calls[w].pc.r, s.calls[w].pc.g)))
  {
    var c := s.calls[w];
    assert CallOk(ttls, s, w);
    MoveKeepsInv(ttls, db, s, w, c.(pc := NoReceipt(c.pc.r, c.pc.g)));
  }

  /** Finishing on a receipt, or on a type without containment. */
  lemma {:induction false} ObserveKeepsInv(ttls: Ttls, db: Db, s: State, w: nat, actions: seq<Action>)
    requires Inv(ttls, db, s) && w in s.calls && s.calls[w].pc.Watching?
    requires HasReceipt(s.db, s.calls[w].det.id) || !Known(s.calls[w].det)
    requires actions == AtomicActions(s.db, s.calls[w].det, ttls)
    ensures Inv(ttls, db, Move(Record(s, Worker(w), Observe(s.calls[w].det, actions), s.db), w, Done(actions)))
  {
    var c := s.calls[w];
    assert CallOk(ttls, s, w);
    var e := Event(Worker(w), Observe(c.det, actions));
    RecordKeepsInv(ttls, db, s, e);
    var s1 := s.(db := Effect(ttls, s.db, e), log := s.log + [e]);
    var c1 := c.(pc := Done(actions));
    FinishedIsSound(ttls, s, s1, e, w, c, c1);
    MoveKeepsInv(ttls, db, s1, w, c1);
  }

  lemma WatchKeepsInv(ttls: Ttls, db: Db, s: State, w: nat)
    requires Inv(ttls, db, s) && w in s.calls && s.calls[w].pc.Ready?
    ensures Inv(ttls, db, Next(ttls, s, Watch(w)))
  {
    var c := s.calls[w];
    assert CallOk(ttls, s, w);
    MoveKeepsInv(ttls, db, s, w, c.(pc := Watching(Version(s.log, Receipt(c.det.id)), Version(s.log, Guard(c.det)))));
  }

  lemma PlanKeepsInv(ttls: Ttls, db: Db, s: State, w: nat)
    requires Inv(ttls, db, s) && w in s.calls && s.calls[w].pc.NoReceipt?
    ensures Inv(ttls, db, Next(ttls, s, MakePlan(w)))
  {
    var c := s.calls[w];
    assert CallOk(ttls, s, w);
    MoveKeepsInv(ttls, db, s, w, c.(pc := Planned(c.pc.r, c.pc.g, PlanFor(c.det, Guard(c.det) in s.db, ttls))));
  }

  lemma {:induction false} NextKeepsInv(ttls: Ttls, db: Db, s: State, step: Step)
    requires Inv(ttls, db, s)
    ensures Inv(ttls, db, Next(ttls, s, step))
  {
    if Next(ttls, s, step) != s {
      match step
      case Begin(w, d) => MoveKeepsInv(ttls, db, s, w, Call(d, Ready, 0, Conflicts(s.log, d), |s.log|));
      case Watch(w) => WatchKeepsInv(ttls, db, s, w);
      case Get(w) => GetKeepsInv(ttls, db, s, w);
      case MakePlan(w) => PlanKeepsInv(ttls, db, s, w);
      case Exec(w) => ExecKeepsInv(ttls, db, s, w, false);
      case ExecReplyLost(w) => ExecKeepsInv(ttls, db, s, w, true);
      case Disconnect(w) =>
        assert CallOk(ttls, s, w);
        MoveKeepsInv(ttls, db, s, w, s.calls[w].(pc := Lost));
      case ApiSet(k, ttl) => RecordKeepsInv(ttls, db, s, Event(Api, SetRule(k, ttl)));
      case ApiDelete(k) => RecordKeepsInv(ttls, db, s, Event(Api, Drop(k)));
      case Expire(k) => RecordKeepsInv(ttls, db, s, Event(Clock, Drop(k)));
    }
  }

  lemma {:induction false} InvHolds(ttls: Ttls, db: Db, steps: seq<Step>)
    ensures Inv(ttls, db, Run(ttls, db, steps))
    decreases |steps|
  {
    if steps != [] {
      InvHolds(ttls, db, steps[..|steps| - 1]);
      NextKeepsInv(ttls, db, Run(ttls, db, steps[..|steps| - 1]), steps[|steps| - 1]);
    }
  }

  // ---------------------------------------------------------------- linearizability

  /**
   * In any interleaving, the database is the one a sequential execution in commit order
   * produces, every EXEC wrote what the policy chooses at its own instant, and every
   * finished call returned what an atomic application at an instant since its beginning
   * returns.
   */
  lemma {:induction false} Linearizable(ttls: Ttls, db: Db, steps: seq<Step>, w: nat)
    ensures var s := Run(ttls, db, steps);
            && s.db == Replay(ttls, db, s.log)
            && Sequential(ttls, db, s.log)
            && (w in s.calls && s.calls[w].pc.Done? ==>
                  exists i :: && s.calls[w].begun <= i < |s.log| && AnswerAt(s.log[i], w, s.calls[w])
                              && s.calls[w].pc.actions ==
                                  AtomicActions(Replay(ttls, db, s.log[..i]), s.calls[w].det, ttls))
  {
    var s := Run(ttls, db, steps);
    InvHolds(ttls, db, steps);
    if w in s.calls && s.calls[w].pc.Done? {
      assert CallOk(ttls, s, w);
      var i :| s.calls[w].begun <= i < |s.log| && AnswerAt(s.log[i], w, s.calls[w]);
      SequentialAt(ttls, db, s.log, i);
    }
  }

  lemma {:induction false} SequentialAt(ttls: Ttls, db: Db, log: seq<Event>, i: nat)
    requires Sequential(ttls, db, log) && i < |log|
    ensures AsIfAtomic(ttls, Replay(ttls, db, log[..i]), log[i]) && Sequential(ttls, db, log[..i])
    decreases |log|
  {
    if i < |log| - 1 {
      SequentialAt(ttls, db, log[..|log| - 1], i);
      assert log[..|log| - 1][..i] == log[..i];
    }
  }

  // ---------------------------------------------------------------- real-time order

  predicate SameOrigin(c: Call, c': Call) {
    c'.det == c.det && c'.base == c.base && c'.begun == c.begun
  }

  /** One step: the log only grows, a finished call stays as it is, a new call begins at the end. */
  lemma StepExtends(ttls: Ttls, s: State, step: Step, w: nat)
    ensures var s' := Next(ttls, s, step);
            && s.log <= s'.log
            && (w in s.calls ==>
                  && w in s'.calls && SameOrigin(s.calls[w], s'.calls[w])
                  && (s.calls[w].pc.Done? ==> s'.calls[w] == s.calls[w]))
            && (w !in s.calls && w in s'.calls ==> s'.calls[w].begun == |s.log|)
  {
  }

  lemma {:induction false} RunExtends(ttls: Ttls, db: Db, steps: seq<Step>, m: nat, w: nat)
    requires m <= |steps|
    ensures var a, b := Run(ttls, db, steps[..m]), Run(ttls, db, steps);
            && a.log <= b.log
            && (w in a.calls ==>
                  && w in b.calls && SameOrigin(a.calls[w], b.calls[w])
                  && (a.calls[w].pc.Done? ==> b.calls[w] == a.calls[w]))
            && (w !in a.calls && w in b.calls ==> |a.log| <= b.calls[w].begun)
    decreases |steps|
  {
    var n := |steps| - 1;
    if m <= n {
      assert steps[..n][..m] == steps[..m];
      RunExtends(ttls, db, steps[..n], m, w);
      StepExtends(ttls, Run(ttls, db, steps[..n]), steps[n], w);
    } else {
      assert steps[..m] == steps;
    }
  }

  /** A call that finished before another began took effect before it. */
  lemma {:induction false} RealTimeOrder(ttls: Ttls, db: Db, steps: seq<Step>, m: nat, v: nat, w: nat)
    requires m <= |steps|
    requires var a := Run(ttls, db, steps[..m]); v in a.calls && a.calls[v].pc.Done? && w !in a.calls
    requires var b := Run(ttls, db, steps); w in b.calls && b.calls[w].pc.Done?
    ensures var b := Run(ttls, db, steps);
            && v in b.calls
            && exists i, j :: 0 <= i < j < |b.log| && AnswerAt(b.log[i], v, b.calls[v])
                && AnswerAt(b.log[j], w, b.calls[w])
  {
    var a, b := Run(ttls, db, steps[..m]), Run(ttls, db, steps);
    RunExtends(ttls, db, steps, m, v);
    RunExtends(ttls, db, steps, m, w);
    Linearizable(ttls, db, steps[..m], v);
    Linearizable(ttls, db, steps, w);
    var i :| a.calls[v].begun <= i < |a.log| && AnswerAt(a.log[i], v, a.calls[v]);
    var j :| b.calls[w].begun <= j < |b.log| && AnswerAt(b.log[j], w, b.calls[w]);
    assert b.log[i] == a.log[i];
  }

  // ---------------------------------------------------------------- progress

  /** A pass that nobody interrupts finishes the call, with the effect and the answer of one atomic application. */
  lemma {:induction false} UndisturbedPassFinishes(ttls: Ttls, s: State, w: nat)
    requires w in s.calls && s.calls[w].pc.Ready?
    ensures var c := s.calls[w];
            var s1 := Next(ttls, s, Watch(w));
            var s2 := Next(ttls, s1, Get(w));
            var s3 := Next(ttls, s2, MakePlan(w));
            var after := Next(ttls, s3, Exec(w));
            && after.db == ApplyAtomic(s.db, c.det, ttls)
            && after.calls == s.calls[w := c.(pc := Done(AtomicActions(s.db, c.det, ttls)))]
  {
    var s2 := Next(ttls, Next(ttls, s, Watch(w)), Get(w));
    var s3 := Next(ttls, s2, MakePlan(w));
    var c := s.calls[w];
    if HasReceipt(s.db, c.det.id) || !Known(c.det) {
      assert s2.calls[w].pc == Done(AtomicActions(s.db, c.det, ttls)) && s3 == s2;
    } else {
      assert s3.log == s.log && s3.db == s.db;
      assert Unchanged(s3, s3.calls[w]);
    }
  }
}
