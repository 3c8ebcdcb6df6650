/**
 The Pearl signer boundary: packages/pearl-escrow/src/signer-boundary.ts and the signer request of broadcast.ts.

 `RunKeepsLedger`: over every run of calls, signer failures and interruptions, a request's audit trail is one
 `requested`, then its failures, then at most one `signed`, and its record says the same.  `SignedIsFinal`:
 a signed record never changes again.  Calls follow each other here; `SignerOverlap` lets them overlap.
 */
module SignerBoundary {
  import opened Wrappers
  import opened Amounts

  datatype Action = Release | Refund
  datatype Role = BuyerRole | RefundRole | OtherRole
  datatype TxOutput = TxOutput(role: Role, address: string)
  datatype Escrow = Escrow(tradeId: string, releaseOutputs: seq<TxOutput>, refundOutputs: seq<TxOutput>)

  /** Fees and caps as integers; a negative one is text that is not a non-negative integer. */
  datatype UnsignedTx = UnsignedTx(
    kind: Action, txHex: string, inputOutpoint: string, inputAmount: string, outputAmount: string, fee: int, lockTime: int)
  datatype Policy = Policy(policyVersion: string, releaseFeeCap: int, refundFeeCap: int, signerKeyId: string, allowed: seq<string>, paused: bool)
  datatype Input = Input(
    escrow: Escrow, action: Action, decisionEventId: string, tx: UnsignedTx, destination: string, observedStateHash: string,
    expected: Option<UnsignedTx>)

  /** The idempotency key; its template hash is the transaction with its hex in normal form. */
  datatype Key = Key(tradeId: string, action: Action, fundingOutpoint: string, template: UnsignedTx)

  datatype Request = Request(
    key: Key, policyVersion: string, decisionEventId: string, signerKeyId: string, destination: string, fee: int, feeCap: int,
    outputAmount: string, observedStateHash: string)
  datatype Response = Response(
    tradeId: string, action: Action, key: Key, signedTxHex: string, signedTxid: string, signerKeyId: string, signedAtIsDate: bool)

  datatype Status = Requested | Signed | Failed
  datatype Record = Record(request: Request, status: Status, attempts: nat, response: Option<Response>, error: Option<string>)
  datatype Audit = Audit(key: Key, status: Status, signedTxid: Option<string>, error: Option<string>)

  datatype Ledger = Ledger(records: map<Key, Record>, audits: seq<Audit>)

  // ---- The request ----

  predicate HexChar(c: char) {
    '0' <= c <= '9' || 'a' <= c <= 'f' || 'A' <= c <= 'F'
  }

  function Bare(s: string): string {
    if |s| >= 2 && s[..2] == "0x" then s[2..] else s
  }

  predicate EvenHex(s: string) {
    |Bare(s)| % 2 == 0 && forall i :: 0 <= i < |Bare(s)| ==> HexChar(Bare(s)[i])
  }

  /** `createPearlEscrowTxTemplateHash`. */
  function TemplateOf(tx: UnsignedTx): Result<UnsignedTx> {
    if EvenHex(tx.txHex) then Ok(tx.(txHex := Lower(Bare(tx.txHex)))) else Thrown
  }

  function FeeCap(policy: Policy, action: Action): int {
    if action.Release? then policy.releaseFeeCap else policy.refundFeeCap
  }

  /** `assertPolicyCanSign` passes. */
  predicate PolicyCanSign(policy: Policy) {
    && !policy.paused && Trim(policy.policyVersion) != "" && Trim(policy.signerKeyId) != ""
    && 0 <= policy.releaseFeeCap && 0 <= policy.refundFeeCap && policy.signerKeyId in policy.allowed
  }

  /** `assertOutputPolicy` and `assertDestination` pass. */
  predicate PaysDestination(escrow: Escrow, action: Action, destination: string) {
    var outputs := if action.Release? then escrow.releaseOutputs else escrow.refundOutputs;
    |outputs| == 1 && outputs[0].role == (if action.Release? then BuyerRole else RefundRole) && outputs[0].address == destination
  }

  /** The request the checks let through. */
  function CreateRequest(policy: Policy, input: Input): Result<Request> {
    match TemplateOf(input.tx)
    case Thrown => Thrown
    case Ok(template) =>
      var cap := FeeCap(policy, input.action);
      if !PolicyCanSign(policy) || (input.expected.Some? && input.expected.value != template)
         || !PaysDestination(input.escrow, input.action, input.destination)
         || input.tx.kind != input.action || input.tx.fee < 0 || input.tx.fee > cap then Thrown
      else
        Ok(Request(
             Key(input.escrow.tradeId, input.action, input.tx.inputOutpoint, template), policy.policyVersion, input.decisionEventId,
             policy.signerKeyId, input.destination, input.tx.fee, cap, input.tx.outputAmount, input.observedStateHash))
  }

  /** `assertSignerResponseMatchesRequest` passes. */
  predicate ResponseMatches(response: Response, request: Request) {
    && response.tradeId == request.key.tradeId && response.action == request.key.action && response.key == request.key
    && (request.signerKeyId != "" ==> response.signerKeyId == request.signerKeyId)
    && EvenHex(response.signedTxHex) && Bare(response.signedTxHex) != ""
    && EvenHex(response.signedTxid) && |Bare(response.signedTxid)| == 64
    && response.signedAtIsDate
  }

  // ---- One call ----

  /** What the signer does with a request; `Silence` interrupts the call before an answer. */
  datatype Answer = Answered(response: Response) | Refused(error: string) | Silence

  datatype Outcome = Rejected | AlreadySigned | NowSigned | NowFailed | Interrupted

  function AuditOf(r: Record, status: Status): Audit {
    Audit(r.request.key, status, if r.response.Some? && r.response.value.signedTxid != "" then Some(r.response.value.signedTxid) else None,
          if r.error.GetOr("") != "" then r.error else None)
  }

  /** `saveRequest` and the audit of a new record. */
  function Save(l: Ledger, request: Request): Ledger {
    if request.key in l.records then l
    else
      var r := Record(request, Requested, 0, None, None);
      Ledger(l.records[request.key := r], l.audits + [AuditOf(r, Requested)])
  }

  function Update(l: Ledger, r: Record): Ledger {
    Ledger(l.records[r.request.key := r], l.audits + [AuditOf(r, r.status)])
  }

  const MISMATCH := "signer response does not match request"

  /** `requestSignature` with the signer `sign`. */
  function SignStep(l: Ledger, policy: Policy, input: Input, sign: Request -> Answer): (Ledger, Outcome) {
    match CreateRequest(policy, input)
    case Thrown => (l, Rejected)
    case Ok(request) =>
      var l1 := Save(l, request);
      var r := l1.records[request.key];
      if r.status.Signed? then (l1, AlreadySigned)
      else
        match sign(r.request)
        case Silence => (l1, Interrupted)
        case Refused(error) => (Update(l1, r.(status := Failed, attempts := r.attempts + 1, error := Some(error))), NowFailed)
        case Answered(response) =>
          if ResponseMatches(response, r.request) then
            (Update(l1, r.(status := Signed, attempts := r.attempts + 1, response := Some(response), error := None)), NowSigned)
          else
            (Update(l1, r.(status := Failed, attempts := r.attempts + 1, error := Some(MISMATCH))), NowFailed)
  }

  // ---- The objects ----

  class InMemoryPearlSignerRequestRepository {
    var records: map<Key, Record>

    constructor () ensures records == map[] {
      records := map[];
    }

    method SaveRequest(record: Record) returns (saved: Record, created: bool)
      modifies this
      ensures created <==> record.request.key !in old(records)
      ensures records == if created then old(records)[record.request.key := record] else old(records)
      ensures record.request.key in records && saved == records[record.request.key]
    {
      created := record.request.key !in records;
      if created {
        records := records[record.request.key := record];
      }
      saved := records[record.request.key];
    }

    method UpdateRequest(record: Record)
      modifies this
      ensures records == old(records)[record.request.key := record]
    {
      records := records[record.request.key := record];
    }
  }

  class InMemoryPearlSignerAuditRepository {
    var records: seq<Audit>

    constructor () ensures records == [] {
      records := [];
    }

    method AppendAudit(record: Audit)
      modifies this
      ensures records == old(records) + [record]
    {
      records := records + [record];
    }
  }

  class PearlSignerBoundary {
    const policy: Policy
    const requests: InMemoryPearlSignerRequestRepository
    const audits: InMemoryPearlSignerAuditRepository

    constructor (policy: Policy, requests: InMemoryPearlSignerRequestRepository, audits: InMemoryPearlSignerAuditRepository)
      ensures this.policy == policy && this.requests == requests && this.audits == audits
    {
      this.policy, this.requests, this.audits := policy, requests, audits;
    }

    ghost function Contents(): Ledger reads requests, audits {
      Ledger(requests.records, audits.records)
    }

    method RequestSignature(input: Input, sign: Request -> Answer) returns (outcome: Outcome)
      requires SameKeys(requests.records)
      modifies requests, audits
      ensures (Contents(), outcome) == SignStep(old(Contents()), policy, input, sign)
    {
      hide CreateRequest, ResponseMatches, AuditOf;
      var request := CreateRequest(policy, input);
      if request.Thrown? {
        return Rejected;
      }
      var saved, created := requests.SaveRequest(Record(request.value, Requested, 0, None, None));
      if created {
        audits.AppendAudit(AuditOf(saved, Requested));
      }
      if saved.status.Signed? {
        return AlreadySigned;
      }
      var answer := sign(saved.request);
      match answer {
        case Silence =>
          return Interrupted;
        case Refused(error) =>
          Fail(saved, error);
          return NowFailed;
        case Answered(response) =>
          if !ResponseMatches(response, saved.request) {
            Fail(saved, MISMATCH);
            return NowFailed;
          }
          var signed := saved.(status := Signed, attempts := saved.attempts + 1, response := Some(response), error := None);
          requests.UpdateRequest(signed);
          audits.AppendAudit(AuditOf(signed, Signed));
          return NowSigned;
      }
    }

    method Fail(saved: Record, error: string)
      modifies requests, audits
      ensures Contents() == Update(old(Contents()), saved.(status := Failed, attempts := saved.attempts + 1, error := Some(error)))
    {
      var failed := saved.(status := Failed, attempts := saved.attempts + 1, error := Some(error));
      requests.UpdateRequest(failed);
      audits.AppendAudit(AuditOf(failed, Failed));
    }
  }

  /** Records are filed under their own request's key. */
  ghost predicate SameKeys(records: map<Key, Record>) {
    forall k :: k in records ==> records[k].request.key == k
  }

  // ---- Runs ----

  datatype Call = Call(policy: Policy, input: Input, sign: Request -> Answer)

  function Run(calls: seq<Call>): Ledger {
    if calls == [] then Ledger(map[], [])
    else
      var c := calls[|calls| - 1];
      SignStep(Run(calls[..|calls| - 1]), c.policy, c.input, c.sign).0
  }

  /** The statuses audited for a key, in order. */
  function Trail(audits: seq<Audit>, key: Key): seq<Status> {
    if audits == [] then []
    else
      var last := audits[|audits| - 1];
      Trail(audits[..|audits| - 1], key) + if last.key == key then [last.status] else []
  }

  function Failures(n: nat): seq<Status> {
    seq(n, _ => Failed)
  }

  /** The trail a record has left: requested once, then each failed attempt, then the signature if there is one. */
  function TrailOf(r: Record): seq<Status> {
    match r.status
    case Requested => [Requested]
    case Failed => [Requested] + Failures(r.attempts)
    case Signed => [Requested] + Failures(if r.attempts == 0 then 0 else r.attempts - 1) + [Signed]
  }

  predicate RecordOk(r: Record) {
    && 0 <= r.request.fee <= r.request.feeCap
    && (r.status.Requested? <==> r.attempts == 0)
    && (r.status.Signed? <==> r.response.Some?)
    && (r.status.Signed? ==> ResponseMatches(r.response.value, r.request))
  }

  ghost predicate LedgerOk(l: Ledger) {
    && SameKeys(l.records)
    && (forall k :: k in l.records ==> RecordOk(l.records[k]) && Trail(l.audits, k) == TrailOf(l.records[k]))
    && (forall k :: k !in l.records ==> Trail(l.audits, k) == [])
  }

  lemma TrailAppends(audits: seq<Audit>, a: Audit, key: Key)
    ensures Trail(audits + [a], key) == Trail(audits, key) + if a.key == key then [a.status] else []
  {
    assert (audits + [a])[..|audits|] == audits;
  }

  lemma SaveKeepsLedger(l: Ledger, request: Request)
    requires LedgerOk(l) && 0 <= request.fee <= request.feeCap
    ensures LedgerOk(Save(l, request)) && request.key in Save(l, request).records
  {
    hide ResponseMatches;
    if request.key !in l.records {
      var a := AuditOf(Record(request, Requested, 0, None, None), Requested);
      forall k
        ensures Trail(l.audits + [a], k) == Trail(l.audits, k) + if a.key == k then [a.status] else []
      {
        TrailAppends(l.audits, a, k);
      }
    }
  }

  /** One more attempt on a record that is not signed. */
  lemma UpdateKeepsLedger(l: Ledger, key: Key, r: Record)
    requires LedgerOk(l) && key in l.records && !l.records[key].status.Signed?
    requires r.request == l.records[key].request && r.attempts == l.records[key].attempts + 1 && !r.status.Requested?
    requires RecordOk(r)
    ensures LedgerOk(Update(l, r))
  {
    hide ResponseMatches, RecordOk, TrailOf, Trail, AuditOf;
    var a := AuditOf(r, r.status);
    AuditIs(r, r.status);
    forall k
      ensures Trail(l.audits + [a], k) == Trail(l.audits, k) + if a.key == k then [a.status] else []
    {
      TrailAppends(l.audits, a, k);
    }
    NextTrail(l.records[key], r);
  }

  lemma AuditIs(r: Record, status: Status)
    ensures AuditOf(r, status).key == r.request.key && AuditOf(r, status).status == status
  {
  }

  lemma NextTrail(before: Record, after: Record)
    requires RecordOk(before) && !before.status.Signed? && after.attempts == before.attempts + 1 && !after.status.Requested?
    ensures TrailOf(after) == TrailOf(before) + [after.status]
  {
    var n := before.attempts;
    assert Failures(n + 1) == Failures(n) + [Failed];
    assert Failures(0) == [];
  }

  lemma CallKeepsLedger(l: Ledger, c: Call)
    requires LedgerOk(l)
    ensures LedgerOk(SignStep(l, c.policy, c.input, c.sign).0)
  {
    hide LedgerOk, ResponseMatches, PolicyCanSign, PaysDestination, Update, Save, TemplateOf;
    var request := CreateRequest(c.policy, c.input);
    if request.Ok? {
      SaveKeepsLedger(l, request.value);
      var l1 := Save(l, request.value);
      var r := l1.records[request.value.key];
      Filed(l1, request.value.key);
      if !r.status.Signed? {
        match c.sign(r.request) {
          case Silence =>
          case Refused(error) =>
            UpdateKeepsLedger(l1, r.request.key, r.(status := Failed, attempts := r.attempts + 1, error := Some(error)));
          case Answered(response) =>
            if ResponseMatches(response, r.request) {
              UpdateKeepsLedger(l1, r.request.key, r.(status := Signed, attempts := r.attempts + 1, response := Some(response), error := None));
            } else {
              UpdateKeepsLedger(l1, r.request.key, r.(status := Failed, attempts := r.attempts + 1, error := Some(MISMATCH)));
            }
        }
      }
    }
  }

  lemma Filed(l: Ledger, key: Key)
    requires LedgerOk(l) && key in l.records
    ensures l.records[key].request.key == key && RecordOk(l.records[key])
  {
  }

  /** Over every run, each record's audit trail is exactly the one its status and attempts describe, and its fee is within its cap. */
  lemma {:induction false} RunKeepsLedger(calls: seq<Call>)
    ensures LedgerOk(Run(calls))
  {
    if calls != [] {
      hide LedgerOk, SignStep;
      RunKeepsLedger(calls[..|calls| - 1]);
      CallKeepsLedger(Run(calls[..|calls| - 1]), calls[|calls| - 1]);
    }
  }

  /** What the trail says in counts. */
  function Count(trail: seq<Status>, s: Status): nat {
    multiset(trail)[s]
  }

  lemma {:induction false} FailuresCount(n: nat)
    ensures multiset(Failures(n)) == multiset{}[Failed := n]
  {
    if n > 0 {
      FailuresCount(n - 1);
      assert Failures(n) == Failures(n - 1) + [Failed];
    }
  }

  /** Each key has one `requested` audit, its signed and failed audits make up its attempts, and it is signed
      exactly when it has a signed audit, of which there is one. */
  lemma AuditsAgree(calls: seq<Call>, key: Key)
    requires key in Run(calls).records
    ensures var r, trail := Run(calls).records[key], Trail(Run(calls).audits, key);
      && Count(trail, Requested) == 1
      && Count(trail, Signed) + Count(trail, Failed) == r.attempts
      && Count(trail, Signed) == (if r.status.Signed? then 1 else 0)
      && 0 <= r.request.fee <= r.request.feeCap
  {
    hide Run, RecordOk, TrailOf, Trail, Count;
    RunKeepsLedger(calls);
    Filed(Run(calls), key);
    TrailCounts(Run(calls).records[key]);
  }

  lemma TrailCounts(r: Record)
    requires RecordOk(r)
    ensures Count(TrailOf(r), Requested) == 1 && Count(TrailOf(r), Signed) + Count(TrailOf(r), Failed) == r.attempts
    ensures Count(TrailOf(r), Signed) == if r.status.Signed? then 1 else 0
    ensures 0 <= r.request.fee <= r.request.feeCap
  {
    hide ResponseMatches;
    FailuresCount(if r.status.Signed? then r.attempts - 1 else r.attempts);
    assert Failures(0) == [];
  }

  lemma CallKeepsSigned(l: Ledger, c: Call, key: Key)
    requires LedgerOk(l) && key in l.records && l.records[key].status.Signed?
    ensures var l' := SignStep(l, c.policy, c.input, c.sign).0;
      key in l'.records && l'.records[key] == l.records[key] && Trail(l'.audits, key) == Trail(l.audits, key)
  {
    hide ResponseMatches, CreateRequest, RecordOk, TrailOf, Trail;
    var request := CreateRequest(c.policy, c.input);
    if request.Ok? {
      var l1 := Save(l, request.value);
      var r := l1.records[request.value.key];
      if request.value.key !in l.records {
        TrailAppends(l.audits, AuditOf(Record(request.value, Requested, 0, None, None), Requested), key);
      }
      if l1 != SignStep(l, c.policy, c.input, c.sign).0 {
        var l' := SignStep(l, c.policy, c.input, c.sign).0;
        TrailAppends(l1.audits, l'.audits[|l1.audits|], key);
        assert l'.audits == l1.audits + [l'.audits[|l1.audits|]];
      }
    }
  }

  /** Once signed, a record and its audit trail stay as they are, whatever is called later. */
  lemma {:induction false} SignedIsFinal(calls: seq<Call>, more: seq<Call>, key: Key)
    requires key in Run(calls).records && Run(calls).records[key].status.Signed?
    ensures key in Run(calls + more).records && Run(calls + more).records[key] == Run(calls).records[key]
    ensures Trail(Run(calls + more).audits, key) == Trail(Run(calls).audits, key)
  {
    if more == [] {
      assert calls + more == calls;
    } else {
      hide LedgerOk, SignStep, Trail;
      var n := |more| - 1;
      SignedIsFinal(calls, more[..n], key);
      assert (calls + more)[..|calls + more| - 1] == calls + more[..n];
      RunKeepsLedger(calls + more[..n]);
      CallKeepsSigned(Run(calls + more[..n]), more[n], key);
    }
  }
}
