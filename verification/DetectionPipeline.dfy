/** The pipeline as it runs: phase after phase over shared Redis state. */
module DetectionPipeline {
  import opened Wrappers
  import opened Events
  import opened Pipeline
  import Tx = TxCheck
  import AuthWindows = AuthCheck
  import Cooldown

  class Engine {
    const cfg: Config
    const transactions: Tx.Redis
    const logins: AuthWindows.Redis
    const cooldown: Cooldown.Redis
    /** Detections handed to the producer, and refused events reported to the audit log. */
    var emitted: seq<Detection>
    var refused: seq<Item>

    constructor (cfg: Config, transactions: Tx.Redis, logins: AuthWindows.Redis, cooldown: Cooldown.Redis)
      ensures this.cfg == cfg && this.transactions == transactions
      ensures this.logins == logins && this.cooldown == cooldown
      ensures emitted == [] && refused == []
    {
      this.cfg, this.transactions, this.logins, this.cooldown := cfg, transactions, logins, cooldown;
      emitted, refused := [], [];
    }

    ghost function State(): Stores
      reads this, transactions, logins, cooldown
    {
      Stores(transactions.Contents(), logins.windows, cooldown.store)
    }

    method Handle(env: Env, rs: seq<Record>)
      returns (delivered: seq<Detection>, failures: set<nat>, claimed: seq<Cooldown.Key>)
      modifies this, transactions, logins, cooldown
      ensures var out := HandleBatch(cfg, env, old(State()), rs);
              && State() == out.stores
              && delivered == out.emitted && failures == out.failures && claimed == out.claimed
              && emitted == old(emitted) + delivered
              && refused == old(refused) + out.refused
    {
      var items, failed := ValidateAll(rs);
      failures := failed;
      delivered, claimed := Run(env, items);
    }

    /** The same cut short: Redis fails after k of the batch's items have been through phase B. */
    method HandleCut(env: Env, rs: seq<Record>, k: nat)
      requires k <= |ItemsOf(cfg, rs)|
      modifies this, transactions, logins
      ensures State() == CheckAll(cfg, env, old(State()), ItemsOf(cfg, rs)[..k])
      ensures emitted == old(emitted) && refused == old(refused) + BlockedOf(env, ItemsOf(cfg, rs))
    {
      var items, _ := ValidateAll(rs);
      var blocked := Enforce(env, items);
      var _ := RunChecks(env, items[..k], blocked[..k]);
    }

    method ValidateAll(rs: seq<Record>) returns (items: seq<Item>, failures: set<nat>)
      ensures items == ItemsOf(cfg, rs) && failures == FailuresOf(cfg, rs)
    {
      items, failures := [], {};
      for i := 0 to |rs|
        invariant items == ItemsOf(cfg, rs[..i])
        invariant failures == set j: nat | j < i && Validate(cfg, rs[j]).None?
      {
        assert rs[..i + 1][..i] == rs[..i];
        var v := Validate(cfg, rs[i]);
        if v.Some? {
          items := items + [v.value];
        } else {
          failures := failures + {i};
        }
      }
      assert rs[..|rs|] == rs;
    }

    method Run(env: Env, items: seq<Item>) returns (delivered: seq<Detection>, claimed: seq<Cooldown.Key>)
      modifies this, transactions, logins, cooldown
      ensures var ds := Candidates(cfg, env, old(State()), items);
              && State() == CheckAll(cfg, env, old(State()), items).(cooldown :=
                  Cooldown.AfterFilter(old(cooldown.store), ds, cfg.cooldownSeconds))
              && delivered == Cooldown.Filtered(old(cooldown.store), ds, cfg.cooldownSeconds)
              && claimed == Cooldown.Claimed(old(cooldown.store), ds, cfg.cooldownSeconds)
      ensures emitted == old(emitted) + delivered
      ensures refused == old(refused) + BlockedOf(env, items)
    {
      if |items| == 0 {
        return [], [];
      }
      var blocked := Enforce(env, items);
      var results := RunChecks(env, items, blocked);
      var findings, prescored := Interpret(env, items, results);
      findings := FetchDecisions(env, items, results, findings, prescored);
      var candidates := AssignIds(env, items, results, findings);
      delivered, claimed := cooldown.FilterCooledDown(candidates, cfg.cooldownSeconds);
      emitted := emitted + delivered;
    }

    /** Phase A. */
    method Enforce(env: Env, items: seq<Item>) returns (blocked: seq<bool>)
      modifies this`refused
      ensures |blocked| == |items| && forall j :: 0 <= j < |items| ==> blocked[j] == Blocked(env, items[j])
      ensures refused == old(refused) + BlockedOf(env, items)
    {
      blocked := [];
      for i := 0 to |items|
        invariant |blocked| == i && forall j :: 0 <= j < i ==> blocked[j] == Blocked(env, items[j])
        invariant refused == old(refused) + BlockedOf(env, items[..i])
      {
        assert items[..i + 1][..i] == items[..i];
        var flag := match items[i].event
                    case Transaction(tx) => tx.userId in env.quarantined
                    case Login(a) => SanitizeIp(a.ip) in env.blockedIps;
        if flag {
          refused := refused + [items[i]];
        }
        blocked := blocked + [flag];
      }
      assert items[..|items|] == items;
    }

    /** Phase B: only unblocked transactions and unblocked failed logins reach a script. */
    method RunChecks(env: Env, items: seq<Item>, blocked: seq<bool>) returns (results: seq<Checked>)
      requires |blocked| == |items| && forall j :: 0 <= j < |items| ==> blocked[j] == Blocked(env, items[j])
      modifies transactions, logins
      ensures State() == CheckAll(cfg, env, old(State()), items)
      ensures results == CheckedAll(cfg, env, old(State()), items)
    {
      results := [];
      for i := 0 to |items|
        invariant State() == CheckAll(cfg, env, old(State()), items[..i])
        invariant results == CheckedAll(cfg, env, old(State()), items[..i])
      {
        assert items[..i + 1][..i] == items[..i];
        var result := CheckOne(env, items[i], blocked[i]);
        results := results + [result];
      }
      assert items[..|items|] == items;
    }

    method CheckOne(env: Env, it: Item, blocked: bool) returns (result: Checked)
      requires blocked == Blocked(env, it)
      modifies transactions, logins
      ensures State() == CheckItem(cfg, env, old(State()), it) && result == CheckedItem(cfg, env, old(State()), it)
    {
      result := NotChecked;
      if !blocked {
        match it.event
        case Transaction(tx) =>
          var r := transactions.Run(cfg.check, tx, it.ref);
          result := TxChecked(r);
        case Login(a) =>
          if !a.success {
            var c := logins.Run(a, cfg.authWindow);
            result := LoginChecked(c);
          }
      }
    }

    /** Detector thresholds; pre-scored items wait for their stored decision. */
    method Interpret(env: Env, items: seq<Item>, results: seq<Checked>) returns (findings: seq<seq<Finding>>,
                     prescored: seq<nat>)
      requires |results| == |items|
      ensures |findings| == |items|
      ensures forall j :: 0 <= j < |items| ==> !Pending(items[j], results[j]) ==>
                findings[j] == FindingsOf(cfg, env, items[j], results[j])
      ensures forall j :: 0 <= j < |items| ==> Pending(items[j], results[j]) ==> findings[j] == [] && j in prescored
      ensures forall k :: k in prescored ==> k < |items| && Pending(items[k], results[k])
    {
      findings, prescored := [], [];
      for i := 0 to |items|
        invariant |findings| == i
        invariant forall j :: 0 <= j < i ==> !Pending(items[j], results[j]) ==>
                  findings[j] == FindingsOf(cfg, env, items[j], results[j])
        invariant forall j :: 0 <= j < i ==> Pending(items[j], results[j]) ==> findings[j] == [] && j in prescored
        invariant forall k :: k in prescored ==> k < i && Pending(items[k], results[k])
      {
        var found: seq<Finding> := [];
        match (items[i].event, results[i]) {
          case (Transaction(tx), TxChecked(r)) =>
            if r.status == Tx.Prescored {
              prescored := prescored + [i];
            } else {
              found := InterpretTx(cfg, tx, r);
            }
          case (Login(a), LoginChecked(c)) =>
            found := InterpretLogin(cfg, a, c);
          case _ =>
        }
        findings := findings + [found];
      }
    }

    /** Phase C. */
    method FetchDecisions(env: Env, items: seq<Item>, results: seq<Checked>, found: seq<seq<Finding>>,
                          prescored: seq<nat>)
      returns (findings: seq<seq<Finding>>)
      requires |results| == |items| == |found|
      requires forall j :: 0 <= j < |items| ==> !Pending(items[j], results[j]) ==>
               found[j] == FindingsOf(cfg, env, items[j], results[j])
      requires forall j :: 0 <= j < |items| ==> Pending(items[j], results[j]) ==> found[j] == [] && j in prescored
      requires forall k :: k in prescored ==> k < |items| && Pending(items[k], results[k])
      ensures |findings| == |items|
      ensures forall j :: 0 <= j < |items| ==> findings[j] == FindingsOf(cfg, env, items[j], results[j])
    {
      findings := found;
      for n := 0 to |prescored|
        invariant |findings| == |items|
        invariant forall j :: 0 <= j < |items| ==>
                    findings[j] == if Pending(items[j], results[j]) && j !in prescored[..n] then []
                        else FindingsOf(cfg, env, items[j], results[j])
      {
        var k := prescored[n];
        assert k in prescored;
        assert prescored[..n + 1] == prescored[..n] + [k];
        findings := findings[k := FromDecision(Lookup(env.decisions, items[k].event.tx.eventId))];
      }
      assert prescored[..|prescored|] == prescored;
    }

    /** Ids come from the delivery, so a redelivered record gets the same ones. */
    method AssignIds(env: Env, items: seq<Item>, results: seq<Checked>,
                     findings: seq<seq<Finding>>) returns (candidates: seq<Detection>)
      requires |results| == |items| == |findings|
      requires forall j :: 0 <= j < |items| ==> findings[j] == FindingsOf(cfg, env, items[j], results[j])
      ensures candidates == Flatten(CandidateLists(cfg, env, items, results))
    {
      candidates := [];
      ghost var lists := CandidateLists(cfg, env, items, results);
      for i := 0 to |items|
        invariant candidates == Flatten(lists[..i])
      {
        assert lists[..i + 1][..i] == lists[..i];
        candidates := candidates + Identify(items[i], findings[i]);
      }
      assert lists[..|items|] == lists;
    }
  }

  /** A transaction whose findings come from the decision service. */
  predicate Pending(it: Item, r: Checked) {
    it.event.Transaction? && IsPrescored(r)
  }
}
