/**
 * apply_containment as it runs, against a Redis that other clients change between any
 * two of its commands.
 */
module ContainmentWorker {
  import opened Wrappers
  import opened Events
  import opened Containment

  /** A write by somebody else: another worker, a manual override, or expiry. */
  datatype Foreign = Put(key: Key, entry: Entry) | Remove(key: Key)

  function Apply(db: Db, op: Foreign): Db {
    match op
    case Put(k, e) => db[k := e]
    case Remove(k) => db - {k}
  }

  /** Removing an absent key is not a change. */
  predicate Changes(db: Db, op: Foreign, k: Key) {
    op.key == k && (op.Put? || k in db)
  }

  function ApplyAll(db: Db, ops: seq<Foreign>): Db {
    if ops == [] then db else Apply(ApplyAll(db, ops[..|ops| - 1]), ops[|ops| - 1])
  }

  function ChangeCount(db: Db, ops: seq<Foreign>, k: Key): nat {
    if ops == [] then 0
    else
      var n := |ops| - 1;
      ChangeCount(db, ops[..n], k) + if Changes(ApplyAll(db, ops[..n]), ops[n], k) then 1 else 0
  }

  /** The foreign writes of the first gaps of a schedule, in order. */
  function Upto(schedule: seq<seq<Foreign>>, gaps: nat): seq<Foreign>
    requires gaps <= |schedule|
  {
    if gaps == 0 then [] else Upto(schedule, gaps - 1) + schedule[gaps - 1]
  }

  lemma {:induction false} ApplyAllConcat(db: Db, xs: seq<Foreign>, ys: seq<Foreign>)
    ensures ApplyAll(db, xs + ys) == ApplyAll(ApplyAll(db, xs), ys)
    ensures forall k :: ChangeCount(db, xs + ys, k) == ChangeCount(db, xs, k) + ChangeCount(ApplyAll(db, xs), ys, k)
    decreases |ys|
  {
    if ys == [] {
      assert xs + ys == xs;
    } else {
      assert (xs + ys)[..|xs + ys| - 1] == xs + ys[..|ys| - 1];
      ApplyAllConcat(db, xs, ys[..|ys| - 1]);
    }
  }

  lemma {:induction false} UnchangedKey(db: Db, ops: seq<Foreign>, k: Key)
    ensures ChangeCount(db, ops, k) == 0 ==> Lookup(ApplyAll(db, ops), k) == Lookup(db, k)
    decreases |ops|
  {
    if ops != [] { UnchangedKey(db, ops[..|ops| - 1], k); }
  }

  class Redis {
    var db: Db
    /** Bumped on every change of a key; WATCH remembers it, EXEC compares it. */
    var versions: map<Key, nat>

    constructor (db: Db)
      ensures this.db == db && versions == map[]
    {
      this.db, versions := db, map[];
    }

    function VersionOf(k: Key): nat
      reads this
    {
      if k in versions then versions[k] else 0
    }

    method Perform(op: Foreign)
      modifies this
      ensures db == Apply(old(db), op)
      ensures forall k :: VersionOf(k) == old(VersionOf(k)) + if Changes(old(db), op, k) then 1 else 0
    {
      if op.Put? || op.key in db {
        versions := versions[op.key := VersionOf(op.key) + 1];
      }
      db := match op case Put(k, e) => db[k := e] case Remove(k) => db - {k};
    }

    /** Everything other clients do in one gap between two commands. */
    method Others(ops: seq<Foreign>)
      modifies this
      ensures db == ApplyAll(old(db), ops)
      ensures forall k :: VersionOf(k) == old(VersionOf(k)) + ChangeCount(old(db), ops, k)
    {
      for i := 0 to |ops|
        invariant db == ApplyAll(old(db), ops[..i])
        invariant forall k :: VersionOf(k) == old(VersionOf(k)) + ChangeCount(old(db), ops[..i], k)
      {
        assert ops[..i + 1][..i] == ops[..i];
        Perform(ops[i]);
      }
      assert ops[..|ops|] == ops;
    }

    /** The next gap of the schedule, or nothing once the others have gone quiet. */
    method Gap(schedule: seq<seq<Foreign>>, used: nat, ghost start: Db, ghost origin: map<Key, nat>) returns (next: nat)
      requires used <= |schedule| && Follows(schedule, used, start, origin)
      modifies this
      ensures used <= next <= |schedule| && (used < |schedule| ==> next == used + 1)
      ensures Follows(schedule, next, start, origin)
      ensures next == used ==> db == old(db) && versions == old(versions)
      ensures forall k :: VersionOf(k) >= old(VersionOf(k))
      ensures forall k :: VersionOf(k) == old(VersionOf(k)) ==> Lookup(db, k) == Lookup(old(db), k)
    {
      next := used;
      if used < |schedule| {
        Others(schedule[used]);
        next := used + 1;
        ApplyAllConcat(start, Upto(schedule, used), schedule[used]);
        forall k ensures VersionOf(k) == old(VersionOf(k)) ==> Lookup(db, k) == Lookup(old(db), k) {
          UnchangedKey(old(db), schedule[used], k);
        }
      }
    }

    /** The database is exactly the foreign writes so far, each counted. */
    ghost predicate Follows(schedule: seq<seq<Foreign>>, used: nat, start: Db, origin: map<Key, nat>)
      requires used <= |schedule|
      reads this
    {
      && db == ApplyAll(start, Upto(schedule, used))
      && forall k :: VersionOf(k) ==
          (if k in origin then origin[k] else 0) + ChangeCount(start, Upto(schedule, used), k)
    }

    /** MULTI: the receipt, then one SETEX per planned write; EXEC runs them together. */
    method ExecuteQueued(d: Detection, plan: Plan, ttls: Ttls)
      modifies this
      ensures db == Execute(old(db), d, plan, ttls)
    {
      Perform(Put(Receipt(d.id), Applied(plan.actions, ttls.receipt)));
      ghost var base := db;
      for i := 0 to |plan.writes|
        invariant db == PutRules(base, plan.writes[..i], d.id)
      {
        assert plan.writes[..i + 1][..i] == plan.writes[..i];
        Perform(Put(plan.writes[i].key, Rule(ByDetection(d.id), plan.writes[i].ttl)));
      }
      assert plan.writes[..|plan.writes|] == plan.writes;
    }
  }

  /** Foreign changes to the two watched keys over a prefix of the schedule. */
  ghost function Contention(db: Db, schedule: seq<seq<Foreign>>, used: nat, d: Detection): nat
    requires used <= |schedule|
  {
    ChangeCount(db, Upto(schedule, used), Receipt(d.id)) + ChangeCount(db, Upto(schedule, used), Guard(d))
  }

  /** A gap as one call sees it: what has become of its two keys, and how often they have changed. */
  method Wait(redis: Redis, d: Detection, schedule: seq<seq<Foreign>>, used: nat, ghost start: Db,
              ghost origin: map<Key, nat>)
    returns (next: nat)
    requires used <= |schedule| && redis.Follows(schedule, used, start, origin)
    modifies redis
    ensures used <= next <= |schedule| && redis.Follows(schedule, next, start, origin)
    ensures var r, g := redis.VersionOf(Receipt(d.id)) - old(redis.VersionOf(Receipt(d.id))),
              redis.VersionOf(Guard(d)) - old(redis.VersionOf(Guard(d)));
            && 0 <= r && 0 <= g && (next == used ==> r + g == 0)
            && (r == 0 ==> (Receipt(d.id) in redis.db <==> Receipt(d.id) in old(redis.db)))
            && (g == 0 ==> (Guard(d) in redis.db <==> Guard(d) in old(redis.db)))
            && Contention(start, schedule, next, d) == Contention(start, schedule, used, d) + r + g
  {
    ghost var before := redis.db;
    next := redis.Gap(schedule, used, start, origin);
    assert Lookup(redis.db, Receipt(d.id)) == Lookup(before, Receipt(d.id))
        || redis.VersionOf(Receipt(d.id)) > old(redis.VersionOf(Receipt(d.id)));
  }

  /**
   * One pass of the loop: watch, read, plan, execute. Either it acts as one atomic
   * application at its last instant, or somebody else has changed a watched key.
   */
  method Pass(redis: Redis, d: Detection, ttls: Ttls, schedule: seq<seq<Foreign>>, used: nat, ghost start: Db,
              ghost origin: map<Key, nat>)
    returns (done: bool, actions: seq<Action>, next: nat)
    requires used <= |schedule| && redis.Follows(schedule, used, start, origin)
    modifies redis
    ensures used <= next <= |schedule|
    ensures done ==>
              var before := ApplyAll(start, Upto(schedule, next));
              redis.db == ApplyAtomic(before, d, ttls) && actions == AtomicActions(before, d, ttls)
    ensures !done ==>
              && used < next && redis.Follows(schedule, next, start, origin)
              && Contention(start, schedule, next, d) > Contention(start, schedule, used, d)
    ensures Contention(start, schedule, next, d) >= Contention(start, schedule, used, d)
  {
    var receipt, guard := Receipt(d.id), Guard(d);
    next := Wait(redis, d, schedule, used, start, origin);
    var r, g := redis.VersionOf(receipt), redis.VersionOf(guard);

    next := Wait(redis, d, schedule, next, start, origin);
    if receipt in redis.db {
      return true, ReceiptActions(redis.db, d.id), next;
    }
    if !Known(d) {
      return true, [], next;
    }

    next := Wait(redis, d, schedule, next, start, origin);
    var plan := PlanFor(d, guard in redis.db, ttls);

    next := Wait(redis, d, schedule, next, start, origin);
    if redis.VersionOf(receipt) == r && redis.VersionOf(guard) == g {
      assert receipt !in redis.db && plan == PlanFor(d, guard in redis.db, ttls);
      assert redis.db == ApplyAll(start, Upto(schedule, next));
      redis.ExecuteQueued(d, plan, ttls);
      return true, plan.actions, next;
    }
    assert Contention(start, schedule, next, d) > Contention(start, schedule, used, d);
    return false, [], next;
  }

  /**
   * Whatever the others do in the gaps, the call terminates, acts as one atomic
   * application at its last instant, and has retried at most once per foreign change to
   * its receipt or guard.
   */
  method ApplyContainment(redis: Redis, d: Detection, ttls: Ttls, schedule: seq<seq<Foreign>>)
    returns (actions: seq<Action>, retries: nat, used: nat)
    modifies redis
    ensures used <= |schedule|
    ensures var before := ApplyAll(old(redis.db), Upto(schedule, used));
            redis.db == ApplyAtomic(before, d, ttls) && actions == AtomicActions(before, d, ttls)
    ensures retries <= Contention(old(redis.db), schedule, used, d)
  {
    ghost var start, origin := redis.db, redis.versions;
    retries, used := 0, 0;
    while true
      invariant used <= |schedule| && redis.Follows(schedule, used, start, origin)
      invariant retries <= Contention(start, schedule, used, d)
      decreases |schedule| - used
    {
      var done;
      done, actions, used := Pass(redis, d, ttls, schedule, used, start, origin);
      if done {
        return;
      }
      retries := retries + 1;
    }
  }
}
