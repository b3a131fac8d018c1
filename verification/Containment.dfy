/** containment_actions.py: the policy, and what one atomic application would do. */
module Containment {
  import opened Wrappers
  import opened Events

  datatype Action = QuarantineUser | BlockIp | StepUpAuth

  datatype Key = Receipt(id: DetectionId) | StepUp(userId: string) | Quarantine(userId: string) | IpBlock(ip: string)

  datatype Setter = ByDetection(id: DetectionId) | ByApi

  /** What a key holds, with the TTL it was written with. */
  datatype Entry = Applied(actions: seq<Action>, ttl: nat) | Rule(setBy: Setter, ttl: nat)

  type Db = map<Key, Entry>

  datatype Ttls = Ttls(quarantine: nat, ipBlock: nat, stepUp: nat, receipt: nat)

  datatype Write = Write(key: Key, ttl: nat)

  datatype Plan = Plan(actions: seq<Action>, writes: seq<Write>)

  predicate Known(d: Detection) { !d.dtype.UnknownType? }

  predicate IsGeo(d: Detection) { d.dtype == GeoVelocityAnomaly }

  function Guard(d: Detection): Key { StepUp(d.userId) }

  /** The policy table; the only thing it reads is whether a step-up is pending. */
  function PlanFor(d: Detection, pending: bool, ttls: Ttls): Plan {
    var quarantine := Write(Quarantine(d.userId), ttls.quarantine);
    match d.dtype
    case ReplayAttack => Plan([QuarantineUser], [quarantine])
    case FraudBurst => Plan([QuarantineUser], [quarantine])
    case CredentialStuffing =>
      if d.scope == IpScope && d.ip.Some? && d.ip.value != ""
      then Plan([QuarantineUser, BlockIp], [quarantine, Write(IpBlock(SanitizeIp(d.ip.value)), ttls.ipBlock)])
      else Plan([QuarantineUser], [quarantine])
    case GeoVelocityAnomaly =>
      var stepUp := Write(StepUp(d.userId), ttls.stepUp);
      if pending then Plan([StepUpAuth, QuarantineUser], [stepUp, quarantine]) else Plan([StepUpAuth], [stepUp])
    case UnknownType(_) => Plan([], [])
  }

  function PutRules(db: Db, writes: seq<Write>, id: DetectionId): Db {
    if writes == [] then db
    else
      var w := writes[|writes| - 1];
      PutRules(db, writes[..|writes| - 1], id)[w.key := Rule(ByDetection(id), w.ttl)]
  }

  /** The queued commands of MULTI: the receipt, then every rule. */
  function Execute(db: Db, d: Detection, plan: Plan, ttls: Ttls): Db {
    PutRules(db[Receipt(d.id) := Applied(plan.actions, ttls.receipt)], plan.writes, d.id)
  }

  predicate HasReceipt(db: Db, id: DetectionId) { Receipt(id) in db }

  /** Actions recorded under a receipt; a receipt only ever holds actions. */
  function ReceiptActions(db: Db, id: DetectionId): seq<Action>
    requires HasReceipt(db, id)
  {
    if db[Receipt(id)].Applied? then db[Receipt(id)].actions else []
  }

  /** The sequential specification: applying a detection with nobody else around. */
  function ApplyAtomic(db: Db, d: Detection, ttls: Ttls): Db {
    if HasReceipt(db, d.id) || !Known(d) then db else Execute(db, d, PlanFor(d, Guard(d) in db, ttls), ttls)
  }

  function AtomicActions(db: Db, d: Detection, ttls: Ttls): seq<Action> {
    if HasReceipt(db, d.id) then ReceiptActions(db, d.id) else PlanFor(d, Guard(d) in db, ttls).actions
  }

  /** Keys a commit writes. */
  predicate Writes(d: Detection, plan: Plan, k: Key) {
    k == Receipt(d.id) || exists i :: 0 <= i < |plan.writes| && plan.writes[i].key == k
  }

  lemma {:induction false} PutRulesFrame(db: Db, writes: seq<Write>, id: DetectionId, k: Key)
    ensures (forall i :: 0 <= i < |writes| ==> writes[i].key != k) ==>
              Lookup(PutRules(db, writes, id), k) == Lookup(db, k)
    ensures (exists i :: 0 <= i < |writes| && writes[i].key == k) ==>
              k in PutRules(db, writes, id) && PutRules(db, writes, id)[k].Rule?
                  && PutRules(db, writes, id)[k].setBy == ByDetection(id)
    decreases |writes|
  {
    if writes != [] {
      PutRulesFrame(db, writes[..|writes| - 1], id, k);
    }
  }

  /** A commit changes the keys it writes and no others. */
  lemma ExecuteFrame(db: Db, d: Detection, pending: bool, ttls: Ttls, k: Key)
    ensures var plan := PlanFor(d, pending, ttls);
            var after := Execute(db, d, plan, ttls);
            && (!Writes(d, plan, k) ==> Lookup(after, k) == Lookup(db, k))
            && (Writes(d, plan, k) ==> k in after)
            && Lookup(after, Receipt(d.id)) == Some(Applied(plan.actions, ttls.receipt))
  {
    var plan := PlanFor(d, pending, ttls);
    var db1 := db[Receipt(d.id) := Applied(plan.actions, ttls.receipt)];
    PutRulesFrame(db1, plan.writes, d.id, k);
    PutRulesFrame(db1, plan.writes, d.id, Receipt(d.id));
  }

  /**
   * The policy, read off the rules a first application leaves behind and the actions it
   * reports: who is quarantined, which address is blocked and who owes a step-up.
   */
  lemma PolicyTable(db: Db, d: Detection, ttls: Ttls, k: Key)
    requires !HasReceipt(db, d.id) && Known(d)
    ensures var acts := AtomicActions(db, d, ttls);
            && (QuarantineUser in acts <==> !IsGeo(d) || Guard(d) in db)
            && (StepUpAuth in acts <==> IsGeo(d))
            && (BlockIp in acts <==>
                  d.dtype == CredentialStuffing && d.scope == IpScope && d.ip.Some? && d.ip.value != "")
    ensures var after := ApplyAtomic(db, d, ttls);
            && (k.Quarantine? && Lookup(after, k) != Lookup(db, k) ==>
                k.userId == d.userId && (!IsGeo(d) || Guard(d) in db))
            && (!IsGeo(d) || Guard(d) in db ==>
                Lookup(after, Quarantine(d.userId)) == Some(Rule(ByDetection(d.id), ttls.quarantine)))
            && (IsGeo(d) ==> Lookup(after, StepUp(d.userId)) == Some(Rule(ByDetection(d.id), ttls.stepUp)))
            && (k.StepUp? && Lookup(after, k) != Lookup(db, k) ==> k.userId == d.userId && IsGeo(d))
            && (k.IpBlock? && Lookup(after, k) != Lookup(db, k) ==>
                d.ip.Some? && k.ip == SanitizeIp(d.ip.value) && BlockIp in AtomicActions(db, d, ttls))
            && (k.Receipt? && Lookup(after, k) != Lookup(db, k) ==> k.id == d.id)
            && (d.dtype == CredentialStuffing && d.scope == IpScope && d.ip.Some? && d.ip.value != "" ==>
                  Lookup(after, IpBlock(SanitizeIp(d.ip.value))) == Some(Rule(ByDetection(d.id), ttls.ipBlock)))
  {
    var plan := PlanFor(d, Guard(d) in db, ttls);
    ExecuteFrame(db, d, Guard(d) in db, ttls, k);
    var db1 := db[Receipt(d.id) := Applied(plan.actions, ttls.receipt)];
    var first := plan.writes[..1];
    assert first[..0] == [] && first == [plan.writes[0]];
    assert PutRules(db1, first, d.id) == db1[plan.writes[0].key := Rule(ByDetection(d.id), plan.writes[0].ttl)];
    if |plan.writes| == 1 {
      assert plan.writes == first;
    }
  }

  /** The order in which actions are reported. */
  function Rank(a: Action): nat {
    match a
    case StepUpAuth => 0
    case QuarantineUser => 1
    case BlockIp => 2
  }

  /** The enforcement key behind an action. */
  function KeyOf(a: Action, d: Detection): Key {
    match a
    case StepUpAuth => StepUp(d.userId)
    case QuarantineUser => Quarantine(d.userId)
    case BlockIp => IpBlock(SanitizeIp(if d.ip.Some? then d.ip.value else ""))
  }

  /**
   * The actions a first application reports, exactly: each once, in the order of the
   * policy, one for every enforcement key that is written and one key written for every
   * action. The receipt records the same list, and nothing else changes.
   */
  lemma ReportedActions(db: Db, d: Detection, ttls: Ttls, k: Key)
    requires !HasReceipt(db, d.id) && Known(d)
    ensures var acts, after := AtomicActions(db, d, ttls), ApplyAtomic(db, d, ttls);
            && (forall i, j :: 0 <= i < j < |acts| ==> Rank(acts[i]) < Rank(acts[j]))
            && (forall a :: a in acts ==>
                  KeyOf(a, d) in after && after[KeyOf(a, d)].Rule? && after[KeyOf(a, d)].setBy == ByDetection(d.id))
            && (!k.Receipt? && (forall a :: a in acts ==> KeyOf(a, d) != k) ==> Lookup(after, k) == Lookup(db, k))
            && Lookup(after, Receipt(d.id)) == Some(Applied(acts, ttls.receipt))
            && (k.Receipt? && k.id != d.id ==> Lookup(after, k) == Lookup(db, k))
  {
    var plan := PlanFor(d, Guard(d) in db, ttls);
    ExecuteFrame(db, d, Guard(d) in db, ttls, k);
    ExecuteFrame(db, d, Guard(d) in db, ttls, Receipt(d.id));
    WritesAreActions(db, d, ttls);
    forall a | a in plan.actions
      ensures var after := Execute(db, d, plan, ttls);
              KeyOf(a, d) in after && after[KeyOf(a, d)].Rule? && after[KeyOf(a, d)].setBy == ByDetection(d.id)
    {
      var i :| 0 <= i < |plan.actions| && plan.actions[i] == a;
      assert plan.writes[i].key == KeyOf(a, d);
      PutRulesFrame(db[Receipt(d.id) := Applied(plan.actions, ttls.receipt)], plan.writes, d.id, KeyOf(a, d));
    }
    assert Writes(d, plan, k) && k != Receipt(d.id) ==> exists a :: a in plan.actions && KeyOf(a, d) == k by {
      if i :| 0 <= i < |plan.writes| && plan.writes[i].key == k { assert plan.actions[i] in plan.actions; }
    }
  }

  lemma WritesAreActions(db: Db, d: Detection, ttls: Ttls)
    ensures var plan := PlanFor(d, Guard(d) in db, ttls);
            && |plan.actions| == |plan.writes|
            && (forall i :: 0 <= i < |plan.actions| ==> plan.writes[i].key == KeyOf(plan.actions[i], d))
            && forall i, j :: 0 <= i < j < |plan.actions| ==> Rank(plan.actions[i]) < Rank(plan.actions[j])
  {
  }

  /** An unknown type is answered with no action and leaves no trace, not even a receipt. */
  lemma UnknownDoesNothing(db: Db, d: Detection, ttls: Ttls)
    requires !HasReceipt(db, d.id) && !Known(d)
    ensures AtomicActions(db, d, ttls) == [] && ApplyAtomic(db, d, ttls) == db
  {
  }

  /** The list for each type, spelled out. */
  lemma ActionsByType(db: Db, d: Detection, ttls: Ttls)
    requires !HasReceipt(db, d.id)
    ensures var acts := AtomicActions(db, d, ttls);
            && (d.dtype in {ReplayAttack, FraudBurst} ==> acts == [QuarantineUser])
            && (d.dtype == GeoVelocityAnomaly ==>
                  acts == if StepUp(d.userId) in db then [StepUpAuth, QuarantineUser] else [StepUpAuth])
            && (d.dtype == CredentialStuffing ==>
                  acts == if d.scope == IpScope && d.ip.Some? && d.ip.value != "" then [QuarantineUser, BlockIp]
                      else [QuarantineUser])
            && (d.dtype.UnknownType? ==> acts == [])
  {
  }

  /** Applying a detection again changes nothing and repeats the original actions. */
  lemma ApplyTwice(db: Db, d: Detection, ttls: Ttls)
    ensures var after := ApplyAtomic(db, d, ttls);
            ApplyAtomic(after, d, ttls) == after && AtomicActions(after, d, ttls) == AtomicActions(db, d, ttls)
  {
    if Known(d) && !HasReceipt(db, d.id) {
      ExecuteFrame(db, d, Guard(d) in db, ttls, Receipt(d.id));
    }
  }
}
