/** lua/auth_check.lua: the per-user and per-IP failed-login windows, kept in one call. */
module AuthCheck {
  import opened Events
  import opened SlidingWindow

  datatype Key = ByUser(userId: string) | ByIp(ip: string)

  type Windows = map<Key, Window>

  datatype Counts = Counts(user: nat, ip: nat)

  function Keys(a: Auth): seq<Key> {
    [ByUser(a.userId), ByIp(SanitizeIp(a.ip))]
  }

  function WindowAt(ws: Windows, k: Key): Window {
    if k in ws then ws[k] else map[]
  }

  function FailCall(a: Auth, length: real): Call {
    Call(a.eventId, a.timestamp, a.timestamp - length)
  }

  function TouchKey(ws: Windows, k: Key, c: Call): Windows {
    ws[k := Touch(WindowAt(ws, k), c)]
  }

  function Check(ws: Windows, a: Auth, length: real): Windows {
    TouchKey(TouchKey(ws, Keys(a)[0], FailCall(a, length)), Keys(a)[1], FailCall(a, length))
  }

  function CheckCounts(ws: Windows, a: Auth, length: real): Counts {
    var after := Check(ws, a, length);
    Counts(|after[Keys(a)[0]]|, |after[Keys(a)[1]]|)
  }

  /** The window now holds this attempt and, of the others, exactly those above the cutoff; count is its size. */
  ghost predicate Added(before: Windows, after: Windows, k: Key, a: Auth, length: real, count: nat) {
    && WindowAt(after, k).Keys ==
        (set x | x in WindowAt(before, k) && WindowAt(before, k)[x] > a.timestamp - length) + {a.eventId}
    && (forall x :: x in WindowAt(after, k) ==>
          WindowAt(after, k)[x] == if x == a.eventId then a.timestamp else WindowAt(before, k)[x])
    && count == |WindowAt(after, k)|
  }

  /** Both of the login's windows have it, and no other window has changed. */
  ghost predicate AddedToBoth(before: Windows, after: Windows, a: Auth, length: real, counts: Counts) {
    && Added(before, after, ByUser(a.userId), a, length, counts.user)
    && Added(before, after, ByIp(SanitizeIp(a.ip)), a, length, counts.ip)
    && forall k :: k != ByUser(a.userId) && k != ByIp(SanitizeIp(a.ip)) ==> WindowAt(after, k) == WindowAt(before, k)
  }

  lemma CheckAdds(ws: Windows, a: Auth, length: real)
    ensures AddedToBoth(ws, Check(ws, a, length), a, length, CheckCounts(ws, a, length))
  {
    var after := Check(ws, a, length);
    forall k
      ensures WindowAt(after, k) ==
              if k == ByUser(a.userId) || k == ByIp(SanitizeIp(a.ip)) then Touch(WindowAt(ws, k), FailCall(a, length))
              else WindowAt(ws, k)
    {
      CheckTouchesItsKeys(ws, a, k, length);
      assert Keys(a)[0] == ByUser(a.userId) && Keys(a)[1] == ByIp(SanitizeIp(a.ip));
    }
    TouchAdds(ws, after, ByUser(a.userId), a, length);
    TouchAdds(ws, after, ByIp(SanitizeIp(a.ip)), a, length);
  }

  lemma TouchAdds(before: Windows, after: Windows, k: Key, a: Auth, length: real)
    requires WindowAt(after, k) == Touch(WindowAt(before, k), FailCall(a, length))
    ensures Added(before, after, k, a, length, |WindowAt(after, k)|)
  {
  }

  /** One login touches the two windows it names and no other. */
  lemma CheckTouchesItsKeys(ws: Windows, a: Auth, k: Key, length: real)
    ensures WindowAt(Check(ws, a, length), k) ==
            if k in Keys(a) then Touch(WindowAt(ws, k), FailCall(a, length)) else WindowAt(ws, k)
  {
    assert k in Keys(a) <==> k == Keys(a)[0] || k == Keys(a)[1];
  }

  class Redis {
    var windows: Windows

    constructor (ws: Windows)
      ensures windows == ws
    {
      windows := ws;
    }

    method Run(a: Auth, length: real) returns (counts: Counts)
      modifies this
      ensures windows == Check(old(windows), a, length)
      ensures counts == CheckCounts(old(windows), a, length)
      ensures AddedToBoth(old(windows), windows, a, length, counts)
    {
      var keys := Keys(a);
      var sizes: seq<nat> := [];
      for i := 0 to 2
        invariant |sizes| == i
        invariant i == 0 ==> windows == old(windows)
        invariant i >= 1 ==> sizes[0] == |Check(old(windows), a, length)[keys[0]]|
        invariant i == 1 ==> windows == TouchKey(old(windows), keys[0], FailCall(a, length))
        invariant i == 2 ==> windows == Check(old(windows), a, length) && sizes[1] == |windows[keys[1]]|
      {
        var w := WindowAt(windows, keys[i]);
        w := Trim(w, a.timestamp - length);
        w := w[a.eventId := a.timestamp];
        windows := windows[keys[i] := w];
        sizes := sizes + [|w|];
      }
      counts := Counts(sizes[0], sizes[1]);
      CheckAdds(old(windows), a, length);
    }
  }

  // ---------------------------------------------------------------- whole runs

  function RunAll(ws: Windows, logins: seq<Auth>, length: real): Windows {
    if logins == [] then ws
    else Check(RunAll(ws, logins[..|logins| - 1], length), logins[|logins| - 1], length)
  }

  /** The calls of a run that concern one key. */
  function CallsFor(logins: seq<Auth>, k: Key, length: real): (cs: seq<Call>)
    ensures FixedWindow(cs, length)
  {
    if logins == [] then []
    else
      var a := logins[|logins| - 1];
      var before := CallsFor(logins[..|logins| - 1], k, length);
      if k in Keys(a) then before + [FailCall(a, length)] else before
  }

  /** Each window evolves as if only the logins naming its user or address had happened. */
  lemma {:induction false} RunProjects(ws: Windows, logins: seq<Auth>, k: Key, length: real)
    ensures WindowAt(RunAll(ws, logins, length), k) == TouchAll(WindowAt(ws, k), CallsFor(logins, k, length))
    decreases |logins|
  {
    if logins != [] {
      var n := |logins| - 1;
      RunProjects(ws, logins[..n], k, length);
      var a, before := logins[n], CallsFor(logins[..n], k, length);
      CheckTouchesItsKeys(RunAll(ws, logins[..n], length), a, k, length);
      assert (before + [FailCall(a, length)])[..|before|] == before;
    }
  }

  /**
   * Both counts of a login that is not older than the failed logins before it are exact:
   * distinct attempts of that user, and from that address, in (now - length, now].
   */
  lemma {:induction false} CountsAreExact(logins: seq<Auth>, a: Auth, length: real)
    requires length > 0.0
    requires forall b :: b in logins ==> b.timestamp <= a.timestamp
    ensures var counts := CheckCounts(RunAll(map[], logins, length), a, length);
            var lo, hi := a.timestamp - length, a.timestamp;
            && counts.user == |RecentIds(CallsFor(logins + [a], Keys(a)[0], length), lo, hi)|
            && counts.ip == |RecentIds(CallsFor(logins + [a], Keys(a)[1], length), lo, hi)|
  {
    CountIsExact(logins, a, Keys(a)[0], length);
    CountIsExact(logins, a, Keys(a)[1], length);
    assert (logins + [a])[..|logins|] == logins;
  }

  lemma {:induction false} CallsNotLater(logins: seq<Auth>, k: Key, length: real, now: real)
    requires forall b :: b in logins ==> b.timestamp <= now
    ensures forall i :: 0 <= i < |CallsFor(logins, k, length)| ==> CallsFor(logins, k, length)[i].now <= now
    decreases |logins|
  {
    if logins != [] {
      var n := |logins| - 1;
      assert logins[n] in logins;
      CallsNotLater(logins[..n], k, length, now);
    }
  }

  /** A login naming the key, not older than the logins before it, is the key's latest call. */
  lemma LastCall(logins: seq<Auth>, a: Auth, k: Key, length: real)
    requires k in Keys(a) && forall b :: b in logins ==> b.timestamp <= a.timestamp
    ensures var cs := CallsFor(logins + [a], k, length);
            AtFrontier(cs) && cs[|cs| - 1] == FailCall(a, length)
  {
    assert (logins + [a])[..|logins|] == logins;
    CallsNotLater(logins, k, length, a.timestamp);
  }

  lemma {:induction false} CountIsExact(logins: seq<Auth>, a: Auth, k: Key, length: real)
    requires length > 0.0 && k in Keys(a)
    requires forall b :: b in logins ==> b.timestamp <= a.timestamp
    ensures |WindowAt(RunAll(map[], logins + [a], length), k)| ==
            |RecentIds(CallsFor(logins + [a], k, length), a.timestamp - length, a.timestamp)|
  {
    LastCall(logins, a, k, length);
    CountOfRun(logins + [a], k, length);
  }

  lemma {:induction false} CountOfRun(logins: seq<Auth>, k: Key, length: real)
    requires length > 0.0 && AtFrontier(CallsFor(logins, k, length))
    ensures var cs := CallsFor(logins, k, length);
            var now := cs[|cs| - 1].now;
            |WindowAt(RunAll(map[], logins, length), k)| == |RecentIds(cs, now - length, now)|
  {
    EmptyStart(k);
    RunProjects(map[], logins, k, length);
    WindowCount(WindowAt(RunAll(map[], logins, length), k), CallsFor(logins, k, length), length);
  }

  lemma EmptyStart(k: Key)
    ensures WindowAt(map[], k) == map[]
  {
  }

  lemma WindowCount(w: Window, cs: seq<Call>, length: real)
    requires length > 0.0 && FixedWindow(cs, length) && AtFrontier(cs) && w == TouchAll(map[], cs)
    ensures var now := cs[|cs| - 1].now; |w| == |RecentIds(cs, now - length, now)|
  {
    CountIsExactAtFrontier(cs, length);
  }

  // ---------------------------------------------------------------- running logins again

  lemma {:induction false} KeysOfRun(ws: Windows, logins: seq<Auth>, k: Key, length: real)
    ensures k in RunAll(ws, logins, length) <==> k in ws || CallsFor(logins, k, length) != []
    decreases |logins|
  {
    if logins != [] { KeysOfRun(ws, logins[..|logins| - 1], k, length); }
  }

  lemma {:induction false} CallsPrefix(logins: seq<Auth>, k: Key, length: real, n: nat)
    requires n <= |logins|
    ensures var all, part := CallsFor(logins, k, length), CallsFor(logins[..n], k, length);
            |part| <= |all| && part == all[..|part|]
    decreases |logins|
  {
    if n < |logins| {
      assert logins[..|logins| - 1][..n] == logins[..n];
      CallsPrefix(logins[..|logins| - 1], k, length, n);
    } else {
      assert logins[..n] == logins;
    }
  }

  /** Running a prefix of the logins and then all of them leaves every window as one run would. */
  lemma {:induction false} RerunIsIdempotent(ws: Windows, logins: seq<Auth>, length: real, n: nat)
    requires n <= |logins|
    ensures RunAll(RunAll(ws, logins[..n], length), logins, length) == RunAll(ws, logins, length)
  {
    var mid := RunAll(ws, logins[..n], length);
    var a, b := RunAll(mid, logins, length), RunAll(ws, logins, length);
    forall k ensures (k in a <==> k in b) && WindowAt(a, k) == WindowAt(b, k) {
      KeysOfRun(ws, logins[..n], k, length);
      KeysOfRun(mid, logins, k, length);
      KeysOfRun(ws, logins, k, length);
      RunProjects(ws, logins[..n], k, length);
      RunProjects(mid, logins, k, length);
      RunProjects(ws, logins, k, length);
      CallsPrefix(logins, k, length, n);
      var cs, m := CallsFor(logins, k, length), |CallsFor(logins[..n], k, length)|;
      TouchAllConcat(WindowAt(ws, k), cs[..m], cs);
      RerunWindow(WindowAt(ws, k), cs, m);
    }
    forall k | k in a ensures k in b && a[k] == b[k] { assert WindowAt(a, k) == WindowAt(b, k); }
  }
}
