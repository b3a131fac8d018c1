/**
 * The sorted-set window both Lua scripts maintain: trim every member whose score
 * is at or below a cutoff, add the current event, count what is left.
 *
 * A window maps a member (event id) to its score (event time).
 */
module SlidingWindow {

  type Window = map<string, real>

  /** One maintenance call: the event, its time and the trim cutoff. */
  datatype Call = Call(id: string, now: real, cutoff: real)

  /** ZREMRANGEBYSCORE key -inf cutoff: the bound is inclusive. */
  function Trim(w: Window, cutoff: real): Window {
    map x | x in w && w[x] > cutoff :: w[x]
  }

  /** Trim, then ZADD. Re-adding a member overwrites its score. */
  function Touch(w: Window, c: Call): Window {
    Trim(w, c.cutoff)[c.id := c.now]
  }

  function TouchAll(w: Window, cs: seq<Call>): Window {
    if cs == [] then w
    else Touch(TouchAll(w, cs[..|cs| - 1]), cs[|cs| - 1])
  }

  lemma {:induction false} TouchAllConcat(w: Window, cs: seq<Call>, ds: seq<Call>)
    ensures TouchAll(w, cs + ds) == TouchAll(TouchAll(w, cs), ds)
    decreases |ds|
  {
    if ds == [] {
      assert cs + ds == cs;
    } else {
      assert (cs + ds)[..|cs + ds| - 1] == cs + ds[..|ds| - 1];
      TouchAllConcat(w, cs, ds[..|ds| - 1]);
    }
  }

  // ---------------------------------------------------------------- naive history

  /** Index of the most recent call for x, or -1. */
  function LastIndex(cs: seq<Call>, x: string): (i: int)
    ensures -1 <= i < |cs|
    ensures i >= 0 ==> cs[i].id == x
    ensures forall j :: i < j < |cs| ==> cs[j].id != x
  {
    if cs == [] then -1
    else if cs[|cs| - 1].id == x then |cs| - 1
    else LastIndex(cs[..|cs| - 1], x)
  }

  /**
   * What the plain call history says: x was last written with score s (or was in
   * the starting window and never written), and s beats the cutoff of every call since.
   */
  ghost predicate Survives(w: Window, cs: seq<Call>, x: string, s: real) {
    var i := LastIndex(cs, x);
    && (if i < 0 then x in w && w[x] == s else cs[i].now == s)
    && forall j :: i < j < |cs| ==> cs[j].cutoff < s
  }

  /** For every call sequence, in any order, the window is exactly what the history says. */
  lemma {:induction false} WindowRefinesHistory(w: Window, cs: seq<Call>, x: string, s: real)
    ensures x in TouchAll(w, cs) && TouchAll(w, cs)[x] == s <==> Survives(w, cs, x, s)
    decreases |cs|
  {
    if cs != [] {
      var n := |cs| - 1;
      WindowRefinesHistory(w, cs[..n], x, s);
      if cs[n].id != x {
        var i := LastIndex(cs, x);
        assert i == LastIndex(cs[..n], x);
        assert (forall j :: i < j < |cs| ==> cs[j].cutoff < s) <==>
               (forall j :: i < j < n ==> cs[..n][j].cutoff < s) && cs[n].cutoff < s;
      }
    }
  }

  /** Every call trims at its own time minus a fixed window length. */
  ghost predicate FixedWindow(cs: seq<Call>, length: real) {
    forall i :: 0 <= i < |cs| ==> cs[i].cutoff == cs[i].now - length
  }

  /** The last call is at least as late as every call before it. */
  ghost predicate AtFrontier(cs: seq<Call>) {
    |cs| > 0 && forall i :: 0 <= i < |cs| ==> cs[i].now <= cs[|cs| - 1].now
  }

  /** Distinct ids whose latest time lies in (lo, hi]. */
  ghost function RecentIds(cs: seq<Call>, lo: real, hi: real): set<string> {
    set i | 0 <= i < |cs| && LastIndex(cs, cs[i].id) == i && lo < cs[i].now <= hi :: cs[i].id
  }

  /**
   * The returned count is the number of distinct ids in (now - length, now], whatever
   * order or however often the earlier calls arrived, as long as the counting call is
   * not older than them.
   */
  lemma {:induction false} CountIsExactAtFrontier(cs: seq<Call>, length: real)
    requires length > 0.0 && FixedWindow(cs, length) && AtFrontier(cs)
    ensures var now := cs[|cs| - 1].now;
            |TouchAll(map[], cs)| == |RecentIds(cs, now - length, now)|
  {
    var now := cs[|cs| - 1].now;
    forall x ensures x in TouchAll(map[], cs) <==> x in RecentIds(cs, now - length, now) {
      MemberAtFrontier(cs, x, length);
    }
    assert TouchAll(map[], cs).Keys == RecentIds(cs, now - length, now);
  }

  lemma {:induction false} MemberAtFrontier(cs: seq<Call>, x: string, length: real)
    requires length > 0.0 && FixedWindow(cs, length) && AtFrontier(cs)
    ensures var now := cs[|cs| - 1].now;
            x in TouchAll(map[], cs) <==> x in RecentIds(cs, now - length, now)
  {
    var now := cs[|cs| - 1].now;
    var i := LastIndex(cs, x);
    if x in TouchAll(map[], cs) {
      WindowRefinesHistory(map[], cs, x, TouchAll(map[], cs)[x]);
      if i < |cs| - 1 { assert cs[|cs| - 1].cutoff < cs[i].now; }
    }
    if x in RecentIds(cs, now - length, now) {
      assert i >= 0 && now - length < cs[i].now;
      forall j | i < j < |cs| ensures cs[j].cutoff < cs[i].now {
        assert cs[j].now <= now;
      }
      WindowRefinesHistory(map[], cs, x, cs[i].now);
    }
  }

  /** Each event id always carries the same time. */
  ghost predicate ConsistentTimes(cs: seq<Call>) {
    forall i, j :: 0 <= i < |cs| && 0 <= j < |cs| && cs[i].id == cs[j].id ==> cs[i].now == cs[j].now
  }

  /** Redelivery and reordering are invisible: only the set of events counts. */
  lemma {:induction false} CountIgnoresRedelivery(cs: seq<Call>, ds: seq<Call>, length: real)
    requires length > 0.0 && FixedWindow(cs, length) && FixedWindow(ds, length)
    requires AtFrontier(cs) && AtFrontier(ds)
    requires ConsistentTimes(cs) && ConsistentTimes(ds)
    requires forall c :: c in cs <==> c in ds
    ensures |TouchAll(map[], cs)| == |TouchAll(map[], ds)|
  {
    FrontierSubset(cs, ds);
    FrontierSubset(ds, cs);
    var now := cs[|cs| - 1].now;
    assert RecentIds(cs, now - length, now) == RecentIds(ds, now - length, now) by {
      RecentIdsSubset(cs, ds, now - length, now);
      RecentIdsSubset(ds, cs, now - length, now);
    }
    CountIsExactAtFrontier(cs, length);
    CountIsExactAtFrontier(ds, length);
  }

  lemma FrontierSubset(cs: seq<Call>, ds: seq<Call>)
    requires AtFrontier(cs) && AtFrontier(ds) && forall c :: c in cs ==> c in ds
    ensures cs[|cs| - 1].now <= ds[|ds| - 1].now
  {
    assert cs[|cs| - 1] in ds;
  }

  lemma {:induction false} RecentIdsSubset(cs: seq<Call>, ds: seq<Call>, lo: real, hi: real)
    requires ConsistentTimes(ds) && forall c :: c in cs ==> c in ds
    ensures RecentIds(cs, lo, hi) <= RecentIds(ds, lo, hi)
  {
    forall x | x in RecentIds(cs, lo, hi) ensures x in RecentIds(ds, lo, hi) {
      var i :| 0 <= i < |cs| && cs[i].id == x && lo < cs[i].now <= hi;
      assert cs[i] in ds;
      var j :| 0 <= j < |ds| && ds[j] == cs[i];
      var k := LastIndex(ds, x);
      assert ds[k].id == ds[j].id;
    }
  }

  /** Running a prefix of the calls first and then all of them changes nothing. */
  lemma {:induction false} RerunWindow(w: Window, cs: seq<Call>, k: nat)
    requires k <= |cs|
    ensures TouchAll(w, cs[..k] + cs) == TouchAll(w, cs)
  {
    var a, b := TouchAll(w, cs[..k] + cs), TouchAll(w, cs);
    forall x | x in a ensures x in b && b[x] == a[x] {
      WindowRefinesHistory(w, cs[..k] + cs, x, a[x]);
      RerunSurvives(w, cs, k, x, a[x]);
      WindowRefinesHistory(w, cs, x, a[x]);
    }
    forall x | x in b ensures x in a && b[x] == a[x] {
      WindowRefinesHistory(w, cs[..k] + cs, x, b[x]);
      RerunSurvives(w, cs, k, x, b[x]);
      WindowRefinesHistory(w, cs, x, b[x]);
    }
  }

  lemma {:induction false} RerunLastIndex(cs: seq<Call>, k: nat, x: string)
    requires k <= |cs|
    ensures var i := LastIndex(cs, x); LastIndex(cs[..k] + cs, x) == if i >= 0 then k + i else -1
  {
    var ds := cs[..k] + cs;
    var i, i' := LastIndex(cs, x), LastIndex(ds, x);
    if i >= 0 { assert ds[k + i].id == x; }
    if i' >= 0 { assert ds[i'] in cs; }
    if i' >= k { assert ds[i'] == cs[i' - k]; }
  }

  lemma {:induction false} RerunSurvives(w: Window, cs: seq<Call>, k: nat, x: string, s: real)
    requires k <= |cs|
    ensures Survives(w, cs[..k] + cs, x, s) <==> Survives(w, cs, x, s)
  {
    var ds := cs[..k] + cs;
    var i := LastIndex(cs, x);
    RerunLastIndex(cs, k, x);
    if Survives(w, ds, x, s) {
      forall j | i < j < |cs| ensures cs[j].cutoff < s { assert ds[k + j] == cs[j]; }
    }
    if Survives(w, cs, x, s) {
      forall j | LastIndex(ds, x) < j < |ds| ensures ds[j].cutoff < s {
        assert ds[j] == if j >= k then cs[j - k] else cs[j];
      }
    }
  }

  // ---------------------------------------------------------------- key expiry

  /** A window key together with the time Redis drops it. */
  datatype Expiring = Expiring(window: Window, deadline: real)

  datatype Arrival = Arrival(id: string, at: real)

  function TouchExpiring(e: Expiring, a: Arrival, length: real, ttl: real): Expiring {
    var live := if a.at > e.deadline then map[] else e.window;
    Expiring(Touch(live, Call(a.id, a.at, a.at - length)), a.at + ttl)
  }

  function RunExpiring(arrivals: seq<Arrival>, length: real, ttl: real): Expiring {
    if arrivals == [] then Expiring(map[], 0.0)
    else TouchExpiring(RunExpiring(arrivals[..|arrivals| - 1], length, ttl), arrivals[|arrivals| - 1], length, ttl)
  }

  function RunForever(arrivals: seq<Arrival>, length: real): Window {
    if arrivals == [] then map[]
    else
      var a := arrivals[|arrivals| - 1];
      Touch(RunForever(arrivals[..|arrivals| - 1], length), Call(a.id, a.at, a.at - length))
  }

  ghost predicate InArrivalOrder(arrivals: seq<Arrival>) {
    forall i, j :: 0 <= i < j < |arrivals| ==> arrivals[i].at <= arrivals[j].at
  }

  lemma {:induction false} ExpiryDropsOnlyStale(arrivals: seq<Arrival>, length: real, ttl: real)
    requires InArrivalOrder(arrivals) && ttl >= length
    ensures RunExpiring(arrivals, length, ttl).window == RunForever(arrivals, length)
    ensures arrivals != [] ==>
              var last := arrivals[|arrivals| - 1].at;
              && RunExpiring(arrivals, length, ttl).deadline == last + ttl
              && forall x :: x in RunForever(arrivals, length) ==> RunForever(arrivals, length)[x] <= last
    decreases |arrivals|
  {
    if arrivals != [] {
      var n := |arrivals| - 1;
      ExpiryDropsOnlyStale(arrivals[..n], length, ttl);
      var a := arrivals[n];
      if n > 0 { assert arrivals[..n][n - 1].at <= a.at; }
      var before := RunExpiring(arrivals[..n], length, ttl);
      if a.at > before.deadline {
        assert Trim(before.window, a.at - length) == map[] == Trim(map[], a.at - length);
      }
    }
  }

  /** No count, in any run, can tell whether expired window keys were dropped. */
  ghost predicate ExpiryUnobservable(length: real, ttl: real) {
    forall arrivals :: InArrivalOrder(arrivals) ==>
      |RunExpiring(arrivals, length, ttl).window| == |RunForever(arrivals, length)|
  }

  /** Key expiry is invisible exactly when the key outlives the window. */
  lemma ExpiryUnobservableIff(length: real, ttl: real)
    requires length > 0.0
    ensures ExpiryUnobservable(length, ttl) <==> ttl >= length
  {
    if ttl >= length {
      forall arrivals | InArrivalOrder(arrivals)
        ensures |RunExpiring(arrivals, length, ttl).window| == |RunForever(arrivals, length)|
      {
        ExpiryDropsOnlyStale(arrivals, length, ttl);
      }
    } else {
      ShortTtlIsSeen(length, ttl);
    }
  }

  lemma ShortTtlIsSeen(length: real, ttl: real)
    requires length > 0.0 && ttl < length
    ensures !ExpiryUnobservable(length, ttl)
  {
    var lo := if ttl > 0.0 then ttl else 0.0;
    var t := (lo + length) / 2.0;
    var one, two := [Arrival("a", 0.0)], [Arrival("a", 0.0), Arrival("b", t)];
    assert two[..1] == one && one[..0] == [];
    assert RunForever(one, length) == map["a" := 0.0];
    assert RunForever(two, length) == map["a" := 0.0, "b" := t];
    assert RunExpiring(one, length, ttl) == Expiring(map["a" := 0.0], ttl);
    assert RunExpiring(two, length, ttl).window == map["b" := t];
    assert InArrivalOrder(two);
  }
}
