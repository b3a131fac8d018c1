/**
 * Per-subject detection cooldown: SET NX reservations that a failed delivery gives back.
 */
module Cooldown {
  import opened Wrappers
  import opened Events

  datatype Subject = IpSubject(ip: string) | UserSubject(userId: string)

  datatype Key = Key(dtype: DetectionType, subject: Subject)

  type Store = map<Key, DetectionId>

  /** The address for IP-scope detections that carry one, else the user. */
  function SubjectOf(d: Detection): Subject {
    if d.scope == IpScope && d.ip.Some? && d.ip.value != "" then IpSubject(SanitizeIp(d.ip.value))
    else UserSubject(d.userId)
  }

  function KeyOf(d: Detection): Key { Key(d.dtype, SubjectOf(d)) }

  /** Is the detection about an address? */
  ghost predicate AboutAddress(d: Detection) { d.scope == IpScope && d.ip.Some? && d.ip.value != "" }

  /** About the same address up to its separators, or both about the same user. */
  ghost predicate SameSubject(d: Detection, e: Detection) {
    || (AboutAddress(d) && AboutAddress(e) && SanitizeIp(d.ip.value) == SanitizeIp(e.ip.value))
    || (!AboutAddress(d) && !AboutAddress(e) && d.userId == e.userId)
  }

  /** No two of the detections agree in type and subject. */
  ghost predicate Apart(ds: seq<Detection>) {
    forall i, j :: 0 <= i < j < |ds| ==> ds[i].dtype != ds[j].dtype || !SameSubject(ds[i], ds[j])
  }

  ghost predicate AllFree(store: Store, ds: seq<Detection>) {
    forall i :: 0 <= i < |ds| ==> KeyOf(ds[i]) !in store
  }

  /** Two detections share a cooldown exactly when they agree in type and subject. */
  lemma SharesCooldownIff(d: Detection, e: Detection)
    ensures KeyOf(d) == KeyOf(e) <==> d.dtype == e.dtype && SameSubject(d, e)
  {
  }

  function KeysOf(ds: seq<Detection>): seq<Key> {
    seq(|ds|, i requires 0 <= i < |ds| => KeyOf(ds[i]))
  }

  /** SET key id NX. */
  function SetNx(store: Store, d: Detection): Store {
    if KeyOf(d) in store then store else store[KeyOf(d) := d.id]
  }

  /** The store after the claims of a batch, in order. */
  function ClaimAll(store: Store, ds: seq<Detection>): Store {
    if ds == [] then store else SetNx(ClaimAll(store, ds[..|ds| - 1]), ds[|ds| - 1])
  }

  /** Does the j-th claim of the batch find its key free? */
  predicate Wins(store: Store, ds: seq<Detection>, j: nat)
    requires j < |ds|
  {
    KeyOf(ds[j]) !in ClaimAll(store, ds[..j])
  }

  /** The detections whose claim succeeded, in order. */
  function Winners(store: Store, ds: seq<Detection>): seq<Detection> {
    if ds == [] then []
    else
      var n := |ds| - 1;
      var before := Winners(store, ds[..n]);
      if KeyOf(ds[n]) in ClaimAll(store, ds[..n]) then before else before + [ds[n]]
  }

  /** With a cooldown of zero or less nothing is claimed and everything passes. */
  function Filtered(store: Store, ds: seq<Detection>, seconds: int): seq<Detection> {
    if seconds <= 0 then ds else Winners(store, ds)
  }

  function Claimed(store: Store, ds: seq<Detection>, seconds: int): seq<Key> {
    if seconds <= 0 then [] else KeysOf(Winners(store, ds))
  }

  function AfterFilter(store: Store, ds: seq<Detection>, seconds: int): Store {
    if seconds <= 0 then store else ClaimAll(store, ds)
  }

  function Released(store: Store, keys: seq<Key>): Store {
    store - (set k | k in keys)
  }

  class Redis {
    var store: Store

    constructor (s: Store)
      ensures store == s
    {
      store := s;
    }

    method FilterCooledDown(ds: seq<Detection>, seconds: int) returns (allowed: seq<Detection>, claimed: seq<Key>)
      modifies this
      ensures store == AfterFilter(old(store), ds, seconds)
      ensures allowed == Filtered(old(store), ds, seconds)
      ensures claimed == Claimed(old(store), ds, seconds)
      ensures AllFree(old(store), ds) && Apart(ds) ==> allowed == ds
    {
      ApartAllWin(store, ds);
      if |ds| == 0 {
        return [], [];
      }
      if seconds <= 0 {
        return ds, [];
      }
      var acquired := Pipeline(ds);
      allowed, claimed := [], [];
      for i := 0 to |ds|
        invariant allowed == Winners(old(store), ds[..i])
        invariant claimed == KeysOf(allowed)
      {
        assert ds[..i + 1][..i] == ds[..i];
        if acquired[i] {
          assert KeysOf(allowed + [ds[i]]) == KeysOf(allowed) + [KeyOf(ds[i])];
          allowed := allowed + [ds[i]];
          claimed := claimed + [KeyOf(ds[i])];
        }
      }
      assert ds[..|ds|] == ds;
    }

    /** One round trip of SET NX per detection. */
    method Pipeline(ds: seq<Detection>) returns (acquired: seq<bool>)
      modifies this
      ensures store == ClaimAll(old(store), ds)
      ensures |acquired| == |ds|
      ensures forall j :: 0 <= j < |ds| ==> acquired[j] == Wins(old(store), ds, j)
    {
      acquired := [];
      for i := 0 to |ds|
        invariant |acquired| == i
        invariant store == ClaimAll(old(store), ds[..i])
        invariant forall j :: 0 <= j < i ==> acquired[j] == Wins(old(store), ds, j)
      {
        assert ds[..i + 1][..i] == ds[..i];
        var won := KeyOf(ds[i]) !in store;
        assert won == Wins(old(store), ds, i);
        store := SetNx(store, ds[i]);
        acquired := acquired + [won];
      }
      assert ds[..|ds|] == ds;
    }

    method ReleaseCooldown(keys: seq<Key>)
      modifies this
      ensures store == Released(old(store), keys)
      ensures forall k :: k in store <==> k in old(store) && k !in keys
      ensures forall k :: k in store ==> store[k] == old(store)[k]
    {
      if |keys| > 0 {
        store := store - (set k | k in keys);
      }
    }
  }

  // ---------------------------------------------------------------- one call

  ghost predicate Distinct(keys: seq<Key>) {
    forall i, j :: 0 <= i < j < |keys| ==> keys[i] != keys[j]
  }

  /**
   * The claimed keys of a call are distinct, were all free, are exactly what the call
   * adds to the store, and each holds the id of the detection that won it.
   */
  lemma {:induction false} ClaimsMatchWinners(store: Store, ds: seq<Detection>)
    ensures var won, after := Winners(store, ds), ClaimAll(store, ds);
            var keys := KeysOf(won);
            && Distinct(keys)
            && (forall i :: 0 <= i < |won| ==> keys[i] !in store && keys[i] in after && after[keys[i]] == won[i].id)
            && (forall k :: k in after <==> k in store || k in keys)
            && (forall k :: k in store ==> after[k] == store[k])
            && (forall d :: d in ds ==> KeyOf(d) in after)
    decreases |ds|
  {
    if ds != [] {
      var n := |ds| - 1;
      ClaimsMatchWinners(store, ds[..n]);
      var before := Winners(store, ds[..n]);
      if KeyOf(ds[n]) !in ClaimAll(store, ds[..n]) {
        assert KeysOf(before + [ds[n]]) == KeysOf(before) + [KeyOf(ds[n])];
      }
      forall d | d in ds ensures KeyOf(d) in ClaimAll(store, ds) {
        assert d in ds[..n] || d == ds[n];
      }
    }
  }

  /** A claim that is given back leaves the store exactly as it was. */
  lemma {:induction false} ReleaseUndoesClaim(store: Store, ds: seq<Detection>, seconds: int)
    ensures Released(AfterFilter(store, ds, seconds), Claimed(store, ds, seconds)) == store
  {
    ClaimsMatchWinners(store, ds);
    var keys := KeysOf(Winners(store, ds));
    assert forall k :: k in keys ==> k !in store;
  }

  /** With a cooldown, a detection gets through exactly when nothing of its type and subject came before it. */
  lemma {:induction false} WinsIff(store: Store, ds: seq<Detection>, j: nat)
    requires j < |ds|
    ensures Wins(store, ds, j) <==>
            && KeyOf(ds[j]) !in store
            && forall i :: 0 <= i < j ==> ds[i].dtype != ds[j].dtype || !SameSubject(ds[i], ds[j])
  {
    ClaimsMatchWinners(store, ds[..j]);
    forall i | 0 <= i < j ensures KeyOf(ds[i]) in ClaimAll(store, ds[..j]) {
      assert ds[..j][i] in ds[..j];
      SharesCooldownIff(ds[i], ds[j]);
    }
    forall i | 0 <= i < j ensures KeyOf(ds[i]) == KeyOf(ds[j]) <==>
        ds[i].dtype == ds[j].dtype && SameSubject(ds[i], ds[j]) {
      SharesCooldownIff(ds[i], ds[j]);
    }
    KeysComeFromClaims(store, ds[..j], KeyOf(ds[j]));
  }

  lemma {:induction false} KeysComeFromClaims(store: Store, ds: seq<Detection>, k: Key)
    ensures k in ClaimAll(store, ds) <==> k in store || exists i :: 0 <= i < |ds| && KeyOf(ds[i]) == k
    decreases |ds|
  {
    if ds != [] {
      var n := |ds| - 1;
      KeysComeFromClaims(store, ds[..n], k);
      if i :| 0 <= i < |ds| && KeyOf(ds[i]) == k {
        if i < n { assert ds[..n][i] == ds[i]; }
      }
      if i :| 0 <= i < n && KeyOf(ds[..n][i]) == k { assert KeyOf(ds[i]) == k; }
    }
  }

  /** Detections that are pairwise apart, none of whose keys is taken, all get through. */
  lemma {:induction false} ApartAllWin(store: Store, ds: seq<Detection>)
    ensures AllFree(store, ds) && Apart(ds) ==> Winners(store, ds) == ds
    decreases |ds|
  {
    if ds != [] && AllFree(store, ds) && Apart(ds) {
      var n := |ds| - 1;
      ApartAllWin(store, ds[..n]);
      WinsIff(store, ds, n);
      assert ds[..n] + [ds[n]] == ds;
    }
  }

  ghost predicate AllTaken(store: Store, ds: seq<Detection>) {
    forall d :: d in ds ==> KeyOf(d) in store
  }

  lemma {:induction false} NothingEmittedIff(store: Store, ds: seq<Detection>, seconds: int)
    requires seconds > 0
    ensures Filtered(store, ds, seconds) == [] <==> AllTaken(store, ds)
  {
    ClaimsMatchWinners(store, ds);
    if AllTaken(store, ds) { NoWinners(store, ds); }
  }

  /**
   * Claims that are neither released nor expired silence a second run of the same
   * candidates. It repeats the first emission exactly when there is no cooldown or every
   * candidate's key was taken before the first run.
   */
  lemma {:induction false} UnreleasedClaimSuppresses(store: Store, ds: seq<Detection>, seconds: int)
    ensures seconds > 0 ==> Filtered(AfterFilter(store, ds, seconds), ds, seconds) == []
    ensures Filtered(AfterFilter(store, ds, seconds), ds, seconds) == Filtered(store, ds, seconds) <==>
            seconds <= 0 || forall d :: d in ds ==> KeyOf(d) in store
  {
    if seconds > 0 {
      ClaimsMatchWinners(store, ds);
      NoWinners(ClaimAll(store, ds), ds);
      NothingEmittedIff(store, ds, seconds);
    }
  }

  /** Something with key k is emitted exactly when some candidate has it and it was free. */
  lemma {:induction false} EmittedIffFree(store: Store, ds: seq<Detection>, k: Key, seconds: int)
    requires seconds > 0
    ensures (exists e :: e in Filtered(store, ds, seconds) && KeyOf(e) == k) <==> k !in store && k in KeysOf(ds)
  {
    ClaimsMatchWinners(store, ds);
    var won, after := Winners(store, ds), ClaimAll(store, ds);
    if e :| e in won && KeyOf(e) == k {
      var i :| 0 <= i < |won| && won[i] == e;
      assert KeysOf(won)[i] == k;
      WinnersAreCandidates(store, ds, e);
      var j :| 0 <= j < |ds| && ds[j] == e;
      assert KeysOf(ds)[j] == k;
    }
    if k !in store && k in KeysOf(ds) {
      var j :| 0 <= j < |ds| && KeysOf(ds)[j] == k;
      assert ds[j] in ds && k in after;
      var i :| 0 <= i < |won| && KeysOf(won)[i] == k;
      assert won[i] in won && KeyOf(won[i]) == k;
    }
  }

  lemma {:induction false} WinnersAreCandidates(store: Store, ds: seq<Detection>, e: Detection)
    requires e in Winners(store, ds)
    ensures e in ds
    decreases |ds|
  {
    var n := |ds| - 1;
    if e in Winners(store, ds[..n]) { WinnersAreCandidates(store, ds[..n], e); }
  }

  lemma {:induction false} NoWinners(store: Store, ds: seq<Detection>)
    requires forall d :: d in ds ==> KeyOf(d) in store
    ensures Winners(store, ds) == [] && ClaimAll(store, ds) == store
    decreases |ds|
  {
    if ds != [] {
      var n := |ds| - 1;
      assert ds[n] in ds;
      NoWinners(store, ds[..n]);
    }
  }

  lemma {:induction false} ClaimAllConcat(store: Store, xs: seq<Detection>, ys: seq<Detection>)
    ensures ClaimAll(store, xs + ys) == ClaimAll(ClaimAll(store, xs), ys)
    ensures Winners(store, xs + ys) == Winners(store, xs) + Winners(ClaimAll(store, xs), ys)
    decreases |ys|
  {
    if ys == [] {
      assert xs + ys == xs;
    } else {
      assert (xs + ys)[..|xs + ys| - 1] == xs + ys[..|ys| - 1];
      ClaimAllConcat(store, xs, ys[..|ys| - 1]);
    }
  }

  /** Filtering two lists one after the other is filtering their concatenation. */
  lemma {:induction false} FilterConcat(store: Store, xs: seq<Detection>, ys: seq<Detection>, seconds: int)
    ensures var mid := AfterFilter(store, xs, seconds);
            && AfterFilter(store, xs + ys, seconds) == AfterFilter(mid, ys, seconds)
            && Filtered(store, xs + ys, seconds) == Filtered(store, xs, seconds) + Filtered(mid, ys, seconds)
            && Claimed(store, xs + ys, seconds) == Claimed(store, xs, seconds) + Claimed(mid, ys, seconds)
  {
    if seconds > 0 {
      ClaimAllConcat(store, xs, ys);
      KeysConcat(Winners(store, xs), Winners(ClaimAll(store, xs), ys));
    }
  }

  lemma KeysConcat(xs: seq<Detection>, ys: seq<Detection>)
    ensures KeysOf(xs + ys) == KeysOf(xs) + KeysOf(ys)
  {
  }

  // ---------------------------------------------------------------- many processes

  /** Which process holds which undelivered claims; owner records who set each live key. */
  datatype State = State(store: Store, owner: map<Key, nat>, held: map<nat, set<Key>>)

  datatype Step =
    | Claim(process: nat, ds: seq<Detection>)
    | Release(process: nat)
    | Deliver(process: nat)
    | Crash(process: nat)
    | Expire(key: Key)

  function Held(s: State, p: nat): set<Key> {
    if p in s.held then s.held[p] else {}
  }

  function Next(s: State, step: Step): State {
    match step
    case Claim(p, ds) =>
      var keys := set k | k in KeysOf(Winners(s.store, ds));
      State(ClaimAll(s.store, ds), s.owner + (map k | k in keys :: p), s.held[p := Held(s, p) + keys])
    case Release(p) =>
      State(s.store - Held(s, p), s.owner - Held(s, p), s.held[p := {}])
    case Deliver(p) =>
      s.(held := s.held[p := {}])
    case Crash(p) =>
      s.(held := s.held[p := {}])
    case Expire(k) =>
      s.(store := s.store - {k}, owner := s.owner - {k})
  }

  function Run(s: State, steps: seq<Step>): State {
    if steps == [] then s else Next(Run(s, steps[..|steps| - 1]), steps[|steps| - 1])
  }

  const START := State(map[], map[], map[])

  /** p wins k, or gives up, delivers or forgets what it holds: an older lapse is settled. */
  predicate Settles(s: State, step: Step, p: nat, k: Key) {
    match step
    case Claim(q, ds) => q == p && k in KeysOf(Winners(s.store, ds))
    case Release(q) => q == p
    case Deliver(q) => q == p
    case Crash(q) => q == p
    case Expire(_) => false
  }

  /** k leaves the store while p holds it. */
  predicate Leaves(s: State, step: Step, p: nat, k: Key) {
    k in Held(s, p) && k in s.store && k !in Next(s, step).store
  }

  /**
   * k left the store while p held it, and p has since neither won it again, released,
   * delivered nor died: p still believes in a claim it no longer has.
   */
  predicate Lapsed(steps: seq<Step>, p: nat, k: Key) {
    steps != [] &&
    var n := |steps| - 1;
    var s := Run(START, steps[..n]);
    !Settles(s, steps[n], p, k) && (Leaves(s, steps[n], p, k) || Lapsed(steps[..n], p, k))
  }

  /** What a process holds is live and its own, except exactly for what has lapsed. */
  ghost predicate Owned(s: State, p: nat, k: Key, lapsed: bool) {
    && (k in s.store <==> k in s.owner)
    && (lapsed ==> k in Held(s, p))
    && (k in Held(s, p) ==> (lapsed <==> Lookup(s.owner, k) != Some(p)))
  }

  lemma {:induction false} ClaimedKeyWasFree(store: Store, ds: seq<Detection>, k: Key)
    ensures k in ClaimAll(store, ds) <==> k in store || k in KeysOf(Winners(store, ds))
    ensures k in KeysOf(Winners(store, ds)) ==> k !in store
  {
    ClaimsMatchWinners(store, ds);
  }

  lemma NextKeepsOwnership(s: State, step: Step, p: nat, k: Key, lapsed: bool)
    requires Owned(s, p, k, lapsed)
    ensures Owned(Next(s, step), p, k, !Settles(s, step, p, k) && (Leaves(s, step, p, k) || lapsed))
  {
    var after := Next(s, step);
    match step
    case Claim(q, ds) =>
      ClaimedKeyWasFree(s.store, ds, k);
      if q != p { assert Held(after, p) == Held(s, p); }
    case Release(q) =>
      if q != p { assert Held(after, p) == Held(s, p); }
    case Deliver(q) =>
      if q != p { assert Held(after, p) == Held(s, p); }
    case Crash(q) =>
      if q != p { assert Held(after, p) == Held(s, p); }
    case Expire(_) =>
      assert Held(after, p) == Held(s, p);
  }

  /** In every interleaving, expiry included. */
  lemma {:induction false} OwnershipHolds(steps: seq<Step>, p: nat, k: Key)
    ensures Owned(Run(START, steps), p, k, Lapsed(steps, p, k))
    decreases |steps|
  {
    if steps != [] {
      var n := |steps| - 1;
      OwnershipHolds(steps[..n], p, k);
      NextKeepsOwnership(Run(START, steps[..n]), steps[n], p, k, Lapsed(steps[..n], p, k));
    }
  }

  /** Two processes hold the same key only if one of the claims has lapsed. */
  lemma {:induction false} AtMostOneOwner(steps: seq<Step>, k: Key, p: nat, q: nat)
    requires k in Held(Run(START, steps), p) && k in Held(Run(START, steps), q) && p != q
    ensures Lapsed(steps, p, k) || Lapsed(steps, q, k)
  {
    OwnershipHolds(steps, p, k);
    OwnershipHolds(steps, q, k);
  }

  /**
   * Which keys a release takes away, for every run: its own live claims always, and
   * another owner's claim exactly when the releasing process's claim on that key has
   * lapsed and it has not noticed.
   */
  lemma {:induction false} ReleaseTakesForeignClaimIff(steps: seq<Step>, k: Key, p: nat)
    ensures var s := Run(START, steps);
            var after := Next(s, Release(p));
            && (k in s.store && Lookup(s.owner, k) != Some(p) && k !in after.store <==>
                k in s.store && Lapsed(steps, p, k))
            && (k in s.store && k !in after.store <==> k in s.store && k in Held(s, p))
            && (k in after.store ==> k in s.store && after.store[k] == s.store[k])
  {
    OwnershipHolds(steps, p, k);
  }

  /** Without expiry of the key nothing lapses: the first loss of a live claim is an expiry. */
  lemma {:induction false} LapseNeedsExpiry(steps: seq<Step>, p: nat, k: Key)
    requires Lapsed(steps, p, k)
    ensures Expire(k) in steps
    decreases |steps|
  {
    var n := |steps| - 1;
    var s := Run(START, steps[..n]);
    if Lapsed(steps[..n], p, k) {
      LapseNeedsExpiry(steps[..n], p, k);
    } else if steps[n].Release? {
      var q := steps[n].process;
      OwnershipHolds(steps[..n], p, k);
      OwnershipHolds(steps[..n], q, k);
      LapseNeedsExpiry(steps[..n], q, k);
    } else if steps[n].Claim? {
      ClaimedKeyWasFree(s.store, steps[n].ds, k);
    } else {
      assert steps[n] == Expire(k);
    }
  }

  /** Hence without expiry a release removes exactly the releasing process's own claims. */
  lemma {:induction false} ReleaseTakesOwnClaimsOnly(steps: seq<Step>, k: Key, p: nat)
    requires Expire(k) !in steps
    ensures var s := Run(START, steps);
            var after := Next(s, Release(p));
            && (k in s.store && k in s.owner && s.owner[k] != p ==> k in after.store && after.store[k] == s.store[k])
            && (k in s.store && k !in after.store <==> k in Held(s, p))
  {
    OwnershipHolds(steps, p, k);
    if Lapsed(steps, p, k) { LapseNeedsExpiry(steps, p, k); }
  }

  /** A lapse with a victim: after an expiry and a second claim, the first claimant's release deletes the second's. */
  lemma LateReleaseAfterExpiry(d: Detection, e: Detection)
    requires KeyOf(d) == KeyOf(e)
    ensures var k := KeyOf(d);
            var steps := [Claim(1, [d]), Expire(k), Claim(2, [e])];
            var s := Run(START, steps);
            && Lapsed(steps, 1, k) && k in Held(s, 2) && Lookup(s.owner, k) == Some(2)
            && k !in Next(s, Release(1)).store
  {
    var k := KeyOf(d);
    var steps := [Claim(1, [d]), Expire(k), Claim(2, [e])];
    WinsAlone(d);
    WinsAlone(e);
    assert steps[..2] == [Claim(1, [d]), Expire(k)];
    assert steps[..2][..1] == [Claim(1, [d])] && [Claim(1, [d])][..0] == [];
    var s1 := Run(START, steps[..2][..1]);
    assert s1 == Next(Run(START, []), Claim(1, [d]));
    var s2 := Run(START, steps[..2]);
    assert s2 == Next(s1, Expire(k)) && s2.store == map[];
    assert Run(START, steps) == Next(s2, Claim(2, [e]));
    OwnershipHolds(steps, 1, k);
  }

  // ---------------------------------------------------------------- what a taken key stands for

  /** What has become of the latest claim on a key. */
  datatype Fate = Free | HeldBy(process: nat) | DeliveredBy(process: nat) | OrphanOf(process: nat)

  function FateAfter(s: State, step: Step, k: Key, before: Fate): Fate {
    match step
    case Claim(p, ds) => if k in KeysOf(Winners(s.store, ds)) then HeldBy(p) else before
    case Release(p) => if k in Held(s, p) then Free else before
    case Deliver(p) => if before == HeldBy(p) then DeliveredBy(p) else before
    case Crash(p) => if before == HeldBy(p) then OrphanOf(p) else before
    case Expire(key) => if key == k then Free else before
  }

  function FateOf(steps: seq<Step>, k: Key): Fate {
    if steps == [] then Free
    else FateAfter(Run(START, steps[..|steps| - 1]), steps[|steps| - 1], k, FateOf(steps[..|steps| - 1], k))
  }

  /** A key is taken exactly when its claim has a fate, and being held means being held by its owner. */
  ghost predicate Fated(s: State, k: Key, fate: Fate) {
    && (k in s.store <==> k in s.owner)
    && (k in s.store <==> fate != Free)
    && (k in s.store ==> s.owner[k] == fate.process)
    && (fate.HeldBy? ==> k in Held(s, fate.process))
    && forall p :: k in s.store && s.owner[k] == p && k in Held(s, p) ==> fate == HeldBy(p)
  }

  lemma NextKeepsFate(s: State, step: Step, k: Key, fate: Fate)
    requires Fated(s, k, fate)
    ensures Fated(Next(s, step), k, FateAfter(s, step, k, fate))
  {
    var after := Next(s, step);
    if step.Claim? {
      ClaimedKeyWasFree(s.store, step.ds, k);
    }
    forall p | step.Expire? || p != step.process ensures Held(after, p) == Held(s, p) {}
  }

  lemma {:induction false} FateHolds(steps: seq<Step>, k: Key)
    ensures Fated(Run(START, steps), k, FateOf(steps, k))
    decreases |steps|
  {
    if steps != [] {
      var n := |steps| - 1;
      FateHolds(steps[..n], k);
      NextKeepsFate(Run(START, steps[..n]), steps[n], k, FateOf(steps[..n], k));
    }
  }

  lemma {:induction false} OrphanNeedsCrash(steps: seq<Step>, k: Key)
    requires FateOf(steps, k).OrphanOf?
    ensures Crash(FateOf(steps, k).process) in steps
    decreases |steps|
  {
    var n := |steps| - 1;
    if FateOf(steps[..n], k).OrphanOf? { OrphanNeedsCrash(steps[..n], k); }
  }

  /**
   * In every interleaving of processes, why a candidate is suppressed: with a cooldown,
   * nothing of its key is emitted exactly when a detection of that type for that subject
   * has been delivered, is in the hands of a running process, which will deliver it or
   * give the key back, or was in the hands of a process that died.
   */
  lemma {:induction false} SuppressedBecause(steps: seq<Step>, ds: seq<Detection>, d: Detection, seconds: int)
    requires seconds > 0 && d in ds
    ensures var s, fate := Run(START, steps), FateOf(steps, KeyOf(d));
            && ((forall e :: e in Filtered(s.store, ds, seconds) ==> KeyOf(e) != KeyOf(d)) <==> fate != Free)
            && (fate.HeldBy? ==> KeyOf(d) in Held(s, fate.process))
            && (fate.OrphanOf? ==> Crash(fate.process) in steps)
  {
    var s, k := Run(START, steps), KeyOf(d);
    FateHolds(steps, k);
    EmittedIffFree(s.store, ds, k, seconds);
    var i :| 0 <= i < |ds| && ds[i] == d;
    assert KeysOf(ds)[i] == k;
    if FateOf(steps, k).OrphanOf? { OrphanNeedsCrash(steps, k); }
  }

  lemma WinsAlone(d: Detection)
    ensures Winners(map[], [d]) == [d] && ClaimAll(map[], [d]) == map[KeyOf(d) := d.id]
    ensures KeyOf(d) in KeysOf([d]) && forall k :: k in KeysOf([d]) ==> k == KeyOf(d)
  {
    assert [d][..0] == [];
    assert KeysOf([d])[0] == KeyOf(d);
  }
}
