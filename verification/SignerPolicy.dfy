/**
 What the signer boundary lets through: packages/pearl-escrow/src/signer-boundary.ts with the request checks of broadcast.ts,
 in terms of the policy, the escrow and the transaction a call is made with.

 `RejectedIff` and `CallEnds` say how a call ends; `RecordFrom` and `OverlappingRecordFrom` that every record of a run stems
 from a call its policy allowed, with the fee under that policy's own cap.
 */
module SignerPolicy {
  import opened Wrappers
  import opened Amounts
  import opened SignerBoundary
  import SignerOverlap

  // ---- What a call must meet ----

  function Unprefixed(s: string): string {
    if |s| >= 2 && s[0] == '0' && s[1] == 'x' then s[2..] else s
  }

  /** Whole bytes in hexadecimal, with or without `0x`. */
  predicate Bytes(s: string) {
    && |s| % 2 == 0
    && forall i :: 0 <= i < |Unprefixed(s)| ==>
         var c := Unprefixed(s)[i]; '0' <= c <= '9' || 'a' <= c <= 'f' || 'A' <= c <= 'F'
  }

  function Template(tx: UnsignedTx): UnsignedTx {
    tx.(txHex := Lower(Unprefixed(tx.txHex)))
  }

  /** The action's cap, not the other's. */
  function Cap(policy: Policy, action: Action): int {
    match action
    case Release => policy.releaseFeeCap
    case Refund => policy.refundFeeCap
  }

  predicate Operable(policy: Policy) {
    && !policy.paused && Trim(policy.policyVersion) != "" && Trim(policy.signerKeyId) != ""
    && policy.signerKeyId in policy.allowed && policy.releaseFeeCap >= 0 && policy.refundFeeCap >= 0
  }

  /** The escrow's only output for the action goes to the buyer or to the refund, at the destination. */
  predicate PaysThere(escrow: Escrow, action: Action, destination: string) {
    match action
    case Release => exists o :: escrow.releaseOutputs == [o] && o == TxOutput(BuyerRole, destination)
    case Refund => exists o :: escrow.refundOutputs == [o] && o == TxOutput(RefundRole, destination)
  }

  /** The policy allows the call. */
  predicate MaySign(policy: Policy, input: Input) {
    && Operable(policy) && Bytes(input.tx.txHex)
    && (input.expected.None? || input.expected.value == Template(input.tx))
    && PaysThere(input.escrow, input.action, input.destination)
    && input.tx.kind == input.action && 0 <= input.tx.fee <= Cap(policy, input.action)
  }

  function KeyOf(input: Input): Key {
    Key(input.escrow.tradeId, input.action, input.tx.inputOutpoint, Template(input.tx))
  }

  function Asked(policy: Policy, input: Input): Request {
    Request(KeyOf(input), policy.policyVersion, input.decisionEventId, policy.signerKeyId, input.destination, input.tx.fee,
            Cap(policy, input.action), input.tx.outputAmount, input.observedStateHash)
  }

  lemma BareIs(s: string)
    ensures Bare(s) == Unprefixed(s) && (EvenHex(s) <==> Bytes(s))
  {
    if |s| >= 2 {
      assert s[..2] == [s[0], s[1]];
    }
  }

  lemma OneOutput(outputs: seq<TxOutput>, role: Role, address: string)
    ensures (exists o :: outputs == [o] && o == TxOutput(role, address)) <==>
      |outputs| == 1 && outputs[0].role == role && outputs[0].address == address
  {
    if |outputs| == 1 {
      assert outputs == [outputs[0]];
    }
  }

  lemma RequestIs(policy: Policy, input: Input)
    ensures CreateRequest(policy, input) == if MaySign(policy, input) then Ok(Asked(policy, input)) else Thrown
  {
    hide Bytes, EvenHex, Unprefixed, Bare, Trim;
    BareIs(input.tx.txHex);
    OneOutput(input.escrow.releaseOutputs, BuyerRole, input.destination);
    OneOutput(input.escrow.refundOutputs, RefundRole, input.destination);
  }

  // ---- How a call ends ----

  /** The response is for this request, by its key, and carries a signed transaction and a transaction id. */
  predicate Fits(response: Response, request: Request) {
    && response.tradeId == request.key.tradeId && response.action == request.key.action && response.key == request.key
    && (request.signerKeyId == "" || response.signerKeyId == request.signerKeyId)
    && Bytes(response.signedTxHex) && Unprefixed(response.signedTxHex) != ""
    && Bytes(response.signedTxid) && |Unprefixed(response.signedTxid)| == 64
    && response.signedAtIsDate
  }

  lemma MatchesIs(response: Response, request: Request)
    ensures ResponseMatches(response, request) <==> Fits(response, request)
  {
    hide Bytes, EvenHex, Unprefixed, Bare;
    BareIs(response.signedTxHex);
    BareIs(response.signedTxid);
  }

  /** A call is rejected exactly where its policy does not allow it, and then leaves nothing. */
  lemma RejectedIff(l: Ledger, c: Call)
    ensures var (l', outcome) := SignStep(l, c.policy, c.input, c.sign);
      (outcome == Rejected <==> !MaySign(c.policy, c.input)) && (outcome == Rejected ==> l' == l)
  {
    hide MaySign, ResponseMatches, CreateRequest;
    RequestIs(c.policy, c.input);
  }

  /** The record a call finds or makes. */
  function Found(l: Ledger, c: Call): Record {
    if KeyOf(c.input) in l.records then l.records[KeyOf(c.input)] else Record(Asked(c.policy, c.input), Requested, 0, None, None)
  }

  /** An allowed call signs exactly on a fitting answer to a record that is not signed yet, and fails on every other answer;
      the record keeps its request and counts the attempt. */
  lemma CallEnds(l: Ledger, c: Call)
    requires SameKeys(l.records) && MaySign(c.policy, c.input)
    ensures var (l', outcome) := SignStep(l, c.policy, c.input, c.sign);
      var key, r, answer := KeyOf(c.input), Found(l, c), c.sign(Found(l, c).request);
      && key in l'.records && l'.records == l.records[key := l'.records[key]]
      && (outcome == AlreadySigned <==> r.status == Signed)
      && (outcome == Interrupted <==> r.status != Signed && answer.Silence?)
      && (outcome == NowSigned <==> r.status != Signed && answer.Answered? && Fits(answer.response, r.request))
      && (outcome == NowFailed <==>
            r.status != Signed && (answer.Refused? || (answer.Answered? && !Fits(answer.response, r.request))))
      && (outcome == NowSigned ==> l'.records[key] == Record(r.request, Signed, r.attempts + 1, Some(answer.response), None))
      && (outcome == NowFailed ==>
            && l'.records[key].request == r.request && l'.records[key].status == Failed && l'.records[key].attempts == r.attempts + 1
            && l'.records[key].response == r.response && l'.records[key].error.Some?
            && (answer.Refused? ==> l'.records[key].error.value == answer.error)
            && (answer.Answered? ==> l'.records[key].error.value != ""))
      && (outcome == AlreadySigned || outcome == Interrupted ==> l'.records[key] == r)
  {
    hide MaySign, ResponseMatches, CreateRequest, Fits, Template, AuditOf;
    RequestIs(c.policy, c.input);
    var answer := c.sign(Found(l, c).request);
    if answer.Answered? { MatchesIs(answer.response, Found(l, c).request); }
  }

  // ---- Runs ----

  /** The record's request is the one an allowed call asked for. */
  predicate From(r: Record, policy: Policy, input: Input) {
    MaySign(policy, input) && r.request == Asked(policy, input)
  }

  lemma StepFrom(l: Ledger, c: Call, key: Key)
    requires SameKeys(l.records) && key in SignStep(l, c.policy, c.input, c.sign).0.records
    ensures var r := SignStep(l, c.policy, c.input, c.sign).0.records[key];
      if key in l.records then r.request == l.records[key].request else From(r, c.policy, c.input)
  {
    hide MaySign, Asked, Fits, SignStep;
    RejectedIff(l, c);
    if MaySign(c.policy, c.input) { CallEnds(l, c); }
  }

  /** Over every run, a record stems from a call whose policy was in force and allowed its key, paid the escrow's only output
      for that action, and had the fee within that policy's cap for that action. */
  lemma {:induction false} RecordFrom(calls: seq<Call>, key: Key)
    requires key in Run(calls).records
    ensures exists n :: 0 <= n < |calls| && From(Run(calls).records[key], calls[n].policy, calls[n].input)
  {
    hide SignStep, MaySign, Asked;
    var last := |calls| - 1;
    var l := Run(calls[..last]);
    RunKeepsLedger(calls[..last]);
    RecordsFiled(l);
    StepFrom(l, calls[last], key);
    if key in l.records {
      RecordFrom(calls[..last], key);
      var n :| 0 <= n < last && From(l.records[key], calls[..last][n].policy, calls[..last][n].input);
      assert From(Run(calls).records[key], calls[n].policy, calls[n].input);
    }
  }

  lemma RecordsFiled(l: Ledger)
    requires LedgerOk(l)
    ensures SameKeys(l.records)
  {
  }

  ghost predicate Begun(steps: seq<SignerOverlap.Step>, n: nat, r: Record)
    requires n < |steps|
  {
    steps[n].Begin? && From(r, steps[n].policy, steps[n].input)
  }

  lemma OverlapStepFrom(b: SignerOverlap.Boundary, s: SignerOverlap.Step, key: Key)
    requires SignerOverlap.Inv(b) && key in SignerOverlap.Take(b, s).ledger.records
    ensures var r := SignerOverlap.Take(b, s).ledger.records[key];
      if key in b.ledger.records then
        r.request == b.ledger.records[key].request || (s.End? && s.call in b.running && r.request == b.running[s.call].read.request
                                                       && b.running[s.call].read.request.key == key)
      else s.Begin? && From(r, s.policy, s.input)
  {
    hide MaySign, ResponseMatches, CreateRequest, AuditOf, TrailOf, Trail;
    if s.Begin? {
      RequestIs(s.policy, s.input);
    } else if s.call in b.running {
      assert SignerOverlap.Remembered(b.ledger, b.running[s.call]);
    }
  }

  /** What a running call read has a request of the run. */
  ghost predicate ReadsFrom(b: SignerOverlap.Boundary, steps: seq<SignerOverlap.Step>) {
    && (forall key :: key in b.ledger.records ==> exists n :: 0 <= n < |steps| && Begun(steps, n, b.ledger.records[key]))
    && (forall call :: call in b.running ==> exists n :: 0 <= n < |steps| && Begun(steps, n, b.running[call].read))
  }

  lemma RunningFrom(b: SignerOverlap.Boundary, s: SignerOverlap.Step, call: nat)
    requires call in SignerOverlap.Take(b, s).running
    ensures var running := SignerOverlap.Take(b, s).running[call];
      || (call in b.running && running == b.running[call])
      || exists key :: key in SignerOverlap.Take(b, s).ledger.records && running.read == SignerOverlap.Take(b, s).ledger.records[key]
  {
    hide CreateRequest, Trail, ResponseMatches;
  }

  lemma {:induction false} OverlapReadsFrom(steps: seq<SignerOverlap.Step>)
    ensures ReadsFrom(SignerOverlap.Run(steps), steps)
  {
    hide SignerOverlap.Take, SignerOverlap.Inv, From;
    if steps != [] {
      var last := |steps| - 1;
      var b, b' := SignerOverlap.Run(steps[..last]), SignerOverlap.Run(steps);
      OverlapReadsFrom(steps[..last]);
      SignerOverlap.RunKeepsInv(steps[..last]);
      forall key | key in b'.ledger.records
        ensures exists n :: 0 <= n < |steps| && Begun(steps, n, b'.ledger.records[key])
      {
        OverlapStepFrom(b, steps[last], key);
        if key in b.ledger.records {
          var read := if b'.ledger.records[key].request == b.ledger.records[key].request then b.ledger.records[key]
          else b.running[steps[last].call].read;
          var n :| 0 <= n < last && Begun(steps[..last], n, read);
          SameRequest(steps, last, n, read, b'.ledger.records[key]);
        } else {
          assert Begun(steps, last, b'.ledger.records[key]);
        }
      }
      forall call | call in b'.running
        ensures exists n :: 0 <= n < |steps| && Begun(steps, n, b'.running[call].read)
      {
        RunningFrom(b, steps[last], call);
        if call in b.running && b'.running[call] == b.running[call] {
          var n :| 0 <= n < last && Begun(steps[..last], n, b.running[call].read);
          SameRequest(steps, last, n, b.running[call].read, b'.running[call].read);
        }
      }
    }
  }

  lemma SameRequest(steps: seq<SignerOverlap.Step>, last: nat, n: nat, r: Record, r': Record)
    requires n < last <= |steps| && Begun(steps[..last], n, r) && r'.request == r.request
    ensures Begun(steps, n, r')
  {
  }

  /** The same over every run of calls that overlap. */
  lemma OverlappingRecordFrom(steps: seq<SignerOverlap.Step>, key: Key)
    requires key in SignerOverlap.Run(steps).ledger.records
    ensures exists n :: 0 <= n < |steps| && Begun(steps, n, SignerOverlap.Run(steps).ledger.records[key])
  {
    hide From, SignerOverlap.Run;
    OverlapReadsFrom(steps);
    var n :| 0 <= n < |steps| && Begun(steps, n, SignerOverlap.Run(steps).ledger.records[key]);
  }

  // ---- What the audits say ----

  function LastAudit(audits: seq<Audit>, key: Key): Option<Audit> {
    if audits == [] then None
    else
      var last := audits[|audits| - 1];
      if last.key == key then Some(last) else LastAudit(audits[..|audits| - 1], key)
  }

  lemma LastAuditAppends(audits: seq<Audit>, a: Audit, key: Key)
    ensures LastAudit(audits + [a], key) == if a.key == key then Some(a) else LastAudit(audits, key)
  {
    assert (audits + [a])[..|audits|] == audits;
  }

  /** The record's status, with the transaction id of a signed one and the error of a failed one. */
  function Told(r: Record): Audit {
    match r.status
    case Requested => Audit(r.request.key, Requested, None, None)
    case Signed => Audit(r.request.key, Signed, if r.response.Some? then Some(r.response.value.signedTxid) else None, None)
    case Failed => Audit(r.request.key, Failed, None, if r.error == Some("") then None else r.error)
  }

  lemma AuditTells(r: Record)
    requires RecordOk(r) && (r.status == Signed || r.status == Requested ==> r.error.None?)
    ensures AuditOf(r, r.status) == Told(r)
  {
  }

  ghost predicate ErrorsOk(l: Ledger) {
    forall k :: k in l.records && l.records[k].status != Failed ==> l.records[k].error.None?
  }

  ghost predicate AuditsTell(l: Ledger) {
    ErrorsOk(l) && forall k :: k in l.records ==> LastAudit(l.audits, k) == Some(Told(l.records[k]))
  }

  lemma UpdateTells(l: Ledger, r: Record)
    requires AuditsTell(l) && RecordOk(r) && (r.status == Signed || r.status == Requested ==> r.error.None?)
    ensures AuditsTell(Update(l, r))
  {
    hide RecordOk, LastAudit;
    AuditTells(r);
    forall k
      ensures LastAudit(Update(l, r).audits, k) == if r.request.key == k then Some(Told(r)) else LastAudit(l.audits, k)
    {
      LastAuditAppends(l.audits, AuditOf(r, r.status), k);
    }
  }

  lemma SaveTells(l: Ledger, request: Request)
    requires AuditsTell(l)
    ensures AuditsTell(Save(l, request))
  {
    hide LastAudit;
    var r := Record(request, Requested, 0, None, None);
    forall k
      ensures LastAudit(l.audits + [AuditOf(r, Requested)], k) == if request.key == k then Some(Told(r)) else LastAudit(l.audits, k)
    {
      LastAuditAppends(l.audits, AuditOf(r, Requested), k);
    }
  }

  lemma CallTells(l: Ledger, c: Call)
    requires LedgerOk(l) && AuditsTell(l)
    ensures AuditsTell(SignStep(l, c.policy, c.input, c.sign).0)
  {
    hide LedgerOk, AuditsTell, ResponseMatches, PolicyCanSign, PaysDestination, Update, Save, TemplateOf;
    var request := CreateRequest(c.policy, c.input);
    if request.Ok? {
      SaveKeepsLedger(l, request.value);
      SaveTells(l, request.value);
      var l1 := Save(l, request.value);
      var r := l1.records[request.value.key];
      Filed(l1, request.value.key);
      if !r.status.Signed? {
        match c.sign(r.request) {
          case Silence =>
          case Refused(error) =>
            UpdateTells(l1, r.(status := Failed, attempts := r.attempts + 1, error := Some(error)));
          case Answered(response) =>
            if ResponseMatches(response, r.request) {
              UpdateTells(l1, r.(status := Signed, attempts := r.attempts + 1, response := Some(response), error := None));
            } else {
              UpdateTells(l1, r.(status := Failed, attempts := r.attempts + 1, error := Some(MISMATCH)));
            }
        }
      }
    }
  }

  /** Over every run the last audit of a key tells its record's status, the transaction id it was signed with, or its error. */
  lemma {:induction false} LastAuditTells(calls: seq<Call>, key: Key)
    requires key in Run(calls).records
    ensures LastAudit(Run(calls).audits, key) == Some(Told(Run(calls).records[key]))
  {
    hide LastAudit, Told, Run;
    RunTells(calls);
  }

  lemma {:induction false} RunTells(calls: seq<Call>)
    ensures AuditsTell(Run(calls))
  {
    hide AuditsTell, SignStep, LedgerOk;
    if calls != [] {
      RunTells(calls[..|calls| - 1]);
      RunKeepsLedger(calls[..|calls| - 1]);
      CallTells(Run(calls[..|calls| - 1]), calls[|calls| - 1]);
    } else {
      NothingTold();
    }
  }

  lemma NothingTold()
    ensures AuditsTell(Ledger(map[], []))
  {
  }
}
