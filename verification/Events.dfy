/** Events, delivery references and detections shared by every service. */
module Events {
  import opened Wrappers

  datatype Position = Position(lat: real, lon: real)

  /** A validated transaction; amounts are held at the two decimals the replay hash keeps. */
  datatype Tx = Tx(eventId: string, userId: string, amountCents: int, merchant: string,
                   timestamp: real, location: string, position: Position)

  datatype Auth = Auth(eventId: string, userId: string, ip: string, success: bool, timestamp: real)

  /** SHA-256 of the hashed fields, taken as injective: the hash is those fields. */
  datatype ReplayHash = ReplayHash(userId: string, amountCents: int, merchant: string,
                                   timestamp: real, location: string)

  function HashOf(tx: Tx): ReplayHash {
    ReplayHash(tx.userId, tx.amountCents, tx.merchant, tx.timestamp, tx.location)
  }

  /** Two requests are the same to replay detection exactly when all five hashed fields agree. */
  lemma SameHashIff(a: Tx, b: Tx)
    ensures HashOf(a) == HashOf(b) <==>
            && a.userId == b.userId && a.amountCents == b.amountCents && a.merchant == b.merchant
            && a.timestamp == b.timestamp && a.location == b.location
  {
  }

  /** Identity of one delivery: a Kafka record, or a synchronous decision request. */
  datatype Ref = Kafka(topic: string, partition: nat, offset: nat) | Decision(eventId: string)

  datatype DetectionType =
    | ReplayAttack
    | GeoVelocityAnomaly
    | FraudBurst
    | CredentialStuffing
    | UnknownType(name: string)

  datatype Scope = NoScope | UserScope | IpScope

  /**
   * UUIDv5 (section 5.5 of RFC 9562) of "ref:type:scope" behind a readable prefix,
   * taken as injective: the id is the identity it hashes.
   */
  datatype DetectionId = DetectionId(ref: Ref, dtype: DetectionType, scope: Scope)

  /** Detector-specific evidence. */
  datatype Evidence =
    | FirstSeen(stored: Ref)
    | InWindow(count: nat)
    | Travel(distance: real, elapsed: real, velocity: real, from: Option<Position>, to: Position)
    | NoDetails

  datatype Source = AsyncDetector | DecisionService(verdict: Verdict)

  datatype Verdict = Allow | Challenge | Deny

  datatype Detection = Detection(id: DetectionId, dtype: DetectionType, userId: string,
                                 transactionId: string, ip: Option<string>, scope: Scope,
                                 evidence: Evidence, source: Source)

  /** Why the decision service answered as it did. */
  datatype ReasonType = Detector(dtype: DetectionType) | UserQuarantined | IpBlocked | StepUpPending

  datatype Reason = Reason(kind: ReasonType, score: int, evidence: Evidence)

  /** A verdict as kept under decision:result:{event_id} and as returned to the caller. */
  datatype Answer = Answer(decisionId: string, verdict: Verdict, score: int, reasons: seq<Reason>, cached: bool)

  /** IPv6 colons become dashes in every key that embeds an address. */
  function SanitizeIp(ip: string): (r: string)
    ensures |r| == |ip| && ':' !in r
    ensures forall i :: 0 <= i < |ip| ==> r[i] == if ip[i] == ':' then '-' else ip[i]
  {
    if ip == "" then "" else [if ip[0] == ':' then '-' else ip[0]] + SanitizeIp(ip[1..])
  }
}
