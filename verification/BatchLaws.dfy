/** Phased batching preserves meaning: any split of a batch, down to single records, agrees. */
module BatchLaws {
  import opened Pipeline
  import Cooldown

  /** Two outcomes in sequence; the second batch's indices are shifted past the first. */
  function Then(a: Outcome, size: nat, b: Outcome): Outcome {
    Outcome(b.stores, a.emitted + b.emitted, a.claimed + b.claimed,
            a.failures + (set i | i in b.failures :: i + size), a.refused + b.refused)
  }

  function OneAtATime(cfg: Config, env: Env, st: Stores, rs: seq<Record>): Outcome {
    if rs == [] then Outcome(st, [], [], {}, [])
    else
      var before := OneAtATime(cfg, env, st, rs[..|rs| - 1]);
      Then(before, |rs| - 1, HandleBatch(cfg, env, before.stores, [rs[|rs| - 1]]))
  }

  lemma {:induction false} ItemsConcat(cfg: Config, env: Env, xs: seq<Record>, ys: seq<Record>)
    ensures ItemsOf(cfg, xs + ys) == ItemsOf(cfg, xs) + ItemsOf(cfg, ys)
    decreases |ys|
  {
    if ys == [] {
      assert xs + ys == xs;
    } else {
      assert (xs + ys)[..|xs + ys| - 1] == xs + ys[..|ys| - 1];
      ItemsConcat(cfg, env, xs, ys[..|ys| - 1]);
    }
  }

  lemma {:induction false} BlockedConcat(env: Env, xs: seq<Item>, ys: seq<Item>)
    ensures BlockedOf(env, xs + ys) == BlockedOf(env, xs) + BlockedOf(env, ys)
    decreases |ys|
  {
    if ys == [] {
      assert xs + ys == xs;
    } else {
      assert (xs + ys)[..|xs + ys| - 1] == xs + ys[..|ys| - 1];
      BlockedConcat(env, xs, ys[..|ys| - 1]);
    }
  }

  lemma FailuresConcat(cfg: Config, xs: seq<Record>, ys: seq<Record>)
    ensures FailuresOf(cfg, xs + ys) == FailuresOf(cfg, xs) + set i | i in FailuresOf(cfg, ys) :: i + |xs|
  {
    var f, shifted := FailuresOf(cfg, xs + ys), set j | j in FailuresOf(cfg, ys) :: j + |xs|;
    forall i: nat | i in f ensures i in FailuresOf(cfg, xs) + shifted {
      if i >= |xs| {
        assert (xs + ys)[i] == ys[i - |xs|];
        assert i - |xs| in FailuresOf(cfg, ys) && i == (i - |xs|) + |xs|;
      }
    }
    forall i: nat | i in FailuresOf(cfg, xs) + shifted ensures i in f {
      if i in shifted {
        var j :| j in FailuresOf(cfg, ys) && i == j + |xs|;
        assert (xs + ys)[i] == ys[j];
      }
    }
  }

  lemma {:induction false} ChecksConcat(cfg: Config, env: Env, st: Stores, xs: seq<Item>, ys: seq<Item>)
    ensures CheckAll(cfg, env, st, xs + ys) == CheckAll(cfg, env, CheckAll(cfg, env, st, xs), ys)
    ensures CheckedAll(cfg, env, st, xs + ys) ==
              CheckedAll(cfg, env, st, xs) + CheckedAll(cfg, env, CheckAll(cfg, env, st, xs), ys)
    decreases |ys|
  {
    if ys == [] {
      assert xs + ys == xs;
    } else {
      assert (xs + ys)[..|xs + ys| - 1] == xs + ys[..|ys| - 1];
      ChecksConcat(cfg, env, st, xs, ys[..|ys| - 1]);
    }
  }

  /** The scripts neither read nor write cooldown keys. */
  lemma {:induction false} ChecksIgnoreCooldown(cfg: Config, env: Env, st: Stores, its: seq<Item>, c: Cooldown.Store)
    ensures CheckAll(cfg, env, st.(cooldown := c), its) == CheckAll(cfg, env, st, its).(cooldown := c)
    ensures CheckAll(cfg, env, st, its).cooldown == st.cooldown
    ensures CheckedAll(cfg, env, st.(cooldown := c), its) == CheckedAll(cfg, env, st, its)
    decreases |its|
  {
    if its != [] {
      ChecksIgnoreCooldown(cfg, env, st, its[..|its| - 1], c);
    }
  }

  lemma {:induction false} FlattenConcat<T>(xs: seq<seq<T>>, ys: seq<seq<T>>)
    ensures Flatten(xs + ys) == Flatten(xs) + Flatten(ys)
    decreases |ys|
  {
    if ys == [] {
      assert xs + ys == xs;
    } else {
      var last := ys[|ys| - 1];
      assert (xs + ys)[..|xs + ys| - 1] == xs + ys[..|ys| - 1];
      FlattenConcat(xs, ys[..|ys| - 1]);
      assert Flatten(xs + ys) == Flatten(xs) + Flatten(ys[..|ys| - 1]) + last;
    }
  }

  lemma CandidatesConcat(cfg: Config, env: Env, xs: seq<Item>, rs: seq<Checked>, ys: seq<Item>, qs: seq<Checked>)
    requires |xs| == |rs| && |ys| == |qs|
    ensures CandidateLists(cfg, env, xs + ys, rs + qs) ==
              CandidateLists(cfg, env, xs, rs) + CandidateLists(cfg, env, ys, qs)
  {
  }

  /** Handling xs + ys is handling xs and then ys: stores, emissions, claims, failures and refusals. */
  lemma {:induction false} BatchSplits(cfg: Config, env: Env, st: Stores, xs: seq<Record>, ys: seq<Record>)
    ensures var a := HandleBatch(cfg, env, st, xs);
            HandleBatch(cfg, env, st, xs + ys) == Then(a, |xs|, HandleBatch(cfg, env, a.stores, ys))
  {
    var a := HandleBatch(cfg, env, st, xs);
    var ix, iy := ItemsOf(cfg, xs), ItemsOf(cfg, ys);
    var mid := CheckAll(cfg, env, st, ix);
    ItemsConcat(cfg, env, xs, ys);
    BlockedConcat(env, ix, iy);
    FailuresConcat(cfg, xs, ys);
    ChecksConcat(cfg, env, st, ix, iy);
    var rx, ry := CheckedAll(cfg, env, st, ix), CheckedAll(cfg, env, mid, iy);
    CandidatesConcat(cfg, env, ix, rx, iy, ry);
    FlattenConcat(CandidateLists(cfg, env, ix, rx), CandidateLists(cfg, env, iy, ry));
    assert a.stores == mid.(cooldown := a.stores.cooldown);
    ChecksIgnoreCooldown(cfg, env, mid, iy, a.stores.cooldown);
    ChecksIgnoreCooldown(cfg, env, st, ix, a.stores.cooldown);
    Cooldown.FilterConcat(st.cooldown, Candidates(cfg, env, st, ix), Candidates(cfg, env, mid, iy),
        cfg.cooldownSeconds);
  }

  /** Hence a batch is exactly its records handled one at a time. */
  lemma {:induction false} BatchIsSequential(cfg: Config, env: Env, st: Stores, rs: seq<Record>)
    ensures HandleBatch(cfg, env, st, rs) == OneAtATime(cfg, env, st, rs)
    decreases |rs|
  {
    if rs == [] {
      assert FailuresOf(cfg, rs) == {};
    } else {
      var n := |rs| - 1;
      var before := HandleBatch(cfg, env, st, rs[..n]);
      BatchIsSequential(cfg, env, st, rs[..n]);
      BatchSplits(cfg, env, st, rs[..n], [rs[n]]);
      assert rs[..n] + [rs[n]] == rs;
      assert HandleBatch(cfg, env, st, rs) == Then(before, n, HandleBatch(cfg, env, before.stores, [rs[n]]));
    }
  }

  /** The candidates of a single item. */
  lemma CandidatesOfOne(cfg: Config, env: Env, st: Stores, it: Item)
    ensures Candidates(cfg, env, st, [it]) == CandidatesOf(cfg, env, it, CheckedItem(cfg, env, st, it))
    ensures CheckAll(cfg, env, st, [it]) == CheckItem(cfg, env, st, it)
  {
    assert [it][..0] == [];
    var rs := CheckedAll(cfg, env, st, [it]);
    assert rs == [CheckedItem(cfg, env, st, it)];
    var ls := CandidateLists(cfg, env, [it], rs);
    assert ls == [CandidatesOf(cfg, env, it, rs[0])] && ls[..0] == [];
    assert Flatten(ls) == Flatten(ls[..0]) + ls[0] == ls[0];
  }
}
