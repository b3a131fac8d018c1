/**
 * The text behind delivery references and detection ids: the separators lose nothing, so
 * treating both as tuples elsewhere is justified.
 */
module Identity {
  import opened Events

  const DIGITS := "0123456789"

  function Decimal(n: nat): (s: string)
    ensures ':' !in s && s != ""
  {
    if n < 10 then [DIGITS[n]] else Decimal(n / 10) + [DIGITS[n % 10]]
  }

  /** The number a decimal numeral denotes. */
  function Numeral(s: string): int {
    if s == "" then 0 else 10 * Numeral(s[..|s| - 1]) + (s[|s| - 1] as int - '0' as int)
  }

  lemma {:induction false} DecimalDenotes(n: nat)
    ensures Numeral(Decimal(n)) == n
    decreases n
  {
    if n >= 10 {
      DecimalDenotes(n / 10);
      assert Decimal(n)[..|Decimal(n)| - 1] == Decimal(n / 10);
    } else {
      assert Decimal(n)[..0] == "";
    }
  }

  lemma {:induction false} DecimalInjective(m: nat, n: nat)
    ensures Decimal(m) == Decimal(n) <==> m == n
    decreases m
  {
    if Decimal(m) == Decimal(n) {
      var s := Decimal(m);
      assert s[|s| - 1] == DIGITS[m % 10] == DIGITS[n % 10];
      if m >= 10 && n >= 10 {
        assert s[..|s| - 1] == Decimal(m / 10) == Decimal(n / 10);
        DecimalInjective(m / 10, n / 10);
      }
    }
  }

  /** What stands after the last colon is determined by the text. */
  lemma SplitsAtLastColon(a: string, b: string, c: string, d: string)
    requires ':' !in b && ':' !in d
    ensures a + ":" + b == c + ":" + d <==> a == c && b == d
  {
    var s, t := a + ":" + b, c + ":" + d;
    assert s[|a|] == ':' && forall i :: |a| < i < |s| ==> s[i] != ':';
    assert t[|c|] == ':' && forall i :: |c| < i < |t| ==> t[i] != ':';
    if s == t {
      assert |a| == |c|;
      assert s[..|a|] == a && t[..|c|] == c;
      assert s[|a| + 1..] == b && t[|c| + 1..] == d;
    }
  }

  lemma SplitsAtFirstColon(a: string, b: string, c: string, d: string)
    requires ':' !in a && ':' !in c
    ensures a + ":" + b == c + ":" + d <==> a == c && b == d
  {
    var s, t := a + ":" + b, c + ":" + d;
    assert s[|a|] == ':' && forall i :: 0 <= i < |a| ==> s[i] != ':';
    assert t[|c|] == ':' && forall i :: 0 <= i < |c| ==> t[i] != ':';
    if s == t {
      assert |a| == |c|;
      assert s[..|a|] == a && t[..|c|] == c;
      assert s[|a| + 1..] == b && t[|c| + 1..] == d;
    }
  }

  // ---------------------------------------------------------------- delivery references

  /** record_ref for Kafka records, the decision prefix for synchronous requests. */
  function RefText(r: Ref): string {
    match r
    case Kafka(topic, partition, offset) => topic + ":" + Decimal(partition) + ":" + Decimal(offset)
    case Decision(eventId) => "decision:" + eventId
  }

  /** Two references read the same exactly when they are the same, or a topic poses as the decision service. */
  lemma {:induction false} RefTextIdentifies(r: Ref, r': Ref)
    ensures RefText(r) == RefText(r') <==> r == r' || PosesAs(r, r') || PosesAs(r', r)
  {
    match (r, r')
    case (Kafka(t, p, o), Kafka(t', p', o')) =>
      SplitsAtLastColon(t + ":" + Decimal(p), Decimal(o), t' + ":" + Decimal(p'), Decimal(o'));
      SplitsAtLastColon(t, Decimal(p), t', Decimal(p'));
      DecimalInjective(p, p');
      DecimalInjective(o, o');
    case (Decision(e), Decision(e')) =>
      assert RefText(r)[9..] == e && RefText(r')[9..] == e';
    case _ =>
  }

  /** A record of a topic whose name starts like the decision prefix. */
  predicate PosesAs(k: Ref, d: Ref) {
    k.Kafka? && d.Decision? && RefText(k) == RefText(d)
  }

  /** Kafka forbids colons in topic names; then only a topic called "decision" can pose. */
  lemma {:induction false} OnlyTopicDecisionPoses(k: Ref, d: Ref)
    requires k.Kafka? && d.Decision? && ':' !in k.topic
    ensures PosesAs(k, d) <==> k.topic == "decision" && d.eventId == Decimal(k.partition) + ":" + Decimal(k.offset)
  {
    var tail := Decimal(k.partition) + ":" + Decimal(k.offset);
    assert RefText(k) == k.topic + ":" + tail;
    assert RefText(d) == "decision" + ":" + d.eventId;
    SplitsAtFirstColon(k.topic, tail, "decision", d.eventId);
  }

  // ---------------------------------------------------------------- detection ids

  function TypeText(t: DetectionType): string {
    match t
    case ReplayAttack => "replay_attack"
    case GeoVelocityAnomaly => "geo_velocity_anomaly"
    case FraudBurst => "fraud_burst"
    case CredentialStuffing => "credential_stuffing"
    case UnknownType(name) => name
  }

  function ScopeText(s: Scope): string {
    match s
    case NoScope => ""
    case UserScope => "user"
    case IpScope => "ip"
  }

  /** The identity that is hashed into a detection id. */
  function IdText(id: DetectionId): string {
    RefText(id.ref) + ":" + TypeText(id.dtype) + ":" + ScopeText(id.scope)
  }

  lemma NamesAreApart(t: DetectionType, t': DetectionType, s: Scope, s': Scope)
    requires !t.UnknownType? && !t'.UnknownType?
    ensures TypeText(t) == TypeText(t') <==> t == t'
    ensures ScopeText(s) == ScopeText(s') <==> s == s'
    ensures ':' !in TypeText(t) && ':' !in ScopeText(s)
  {
    assert t != t' ==> |TypeText(t)| != |TypeText(t')|;
    assert s != s' ==> |ScopeText(s)| != |ScopeText(s')|;
  }

  /** Ids of the four detectors over Kafka deliveries are the same text exactly when they are the same id. */
  lemma {:induction false} IdTextIdentifies(id: DetectionId, id': DetectionId)
    requires id.ref.Kafka? && id'.ref.Kafka? && !id.dtype.UnknownType? && !id'.dtype.UnknownType?
    ensures IdText(id) == IdText(id') <==> id == id'
  {
    NamesAreApart(id.dtype, id'.dtype, id.scope, id'.scope);
    NamesAreApart(id'.dtype, id.dtype, id'.scope, id.scope);
    SplitsAtLastColon(RefText(id.ref) + ":" + TypeText(id.dtype), ScopeText(id.scope),
                      RefText(id'.ref) + ":" + TypeText(id'.dtype), ScopeText(id'.scope));
    SplitsAtLastColon(RefText(id.ref), TypeText(id.dtype), RefText(id'.ref), TypeText(id'.dtype));
    RefTextIdentifies(id.ref, id'.ref);
  }
}
