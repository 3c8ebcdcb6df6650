/**
 Signer calls that overlap: a call of packages/pearl-escrow/src/signer-boundary.ts reads the record before it waits
 for the signer and writes it back afterwards, so another call of the same key can be answered in between.

 `AgreesIff`: over every run of started and answered calls, a record and its audit trail agree exactly when no call of
 the key was overtaken.  `SignedStays` and `OvertakenOverwrites` say what that means for a signature.
 */
module SignerOverlap {
  import opened Wrappers
  import opened SignerBoundary

  /** A started call: the record it read, and how many audits its key had then. */
  datatype Running = Running(read: Record, seen: nat)

  datatype Boundary = Boundary(ledger: Ledger, running: map<nat, Running>)

  datatype Step = Begin(call: nat, policy: Policy, input: Input) | End(call: nat, answer: Answer)

  /** The record a call writes back over whatever is there: the one it read, signed or failed. */
  function Written(read: Record, answer: Answer): Record
    requires !answer.Silence?
  {
    var attempts := read.attempts + 1;
    match answer
    case Refused(error) => read.(status := Failed, attempts := attempts, error := Some(error))
    case Answered(response) =>
      if ResponseMatches(response, read.request) then
        read.(status := Signed, attempts := attempts, response := Some(response), error := None)
      else
        read.(status := Failed, attempts := attempts, error := Some(MISMATCH))
  }

  function Answers(l: Ledger, read: Record, answer: Answer): Ledger {
    if answer.Silence? then l else Update(l, Written(read, answer))
  }

  /** A call up to the signer, or a call from its answer on. */
  function Take(b: Boundary, s: Step): Boundary {
    match s
    case Begin(call, policy, input) =>
      if call in b.running then b
      else
        var request := CreateRequest(policy, input);
        if request.Thrown? then b
        else
          var l, key := Save(b.ledger, request.value), request.value.key;
          var r := l.records[key];
          Boundary(l, if r.status.Signed? then b.running else b.running[call := Running(r, |Trail(l.audits, key)|)])
    case End(call, answer) =>
      if call !in b.running then b
      else Boundary(Answers(b.ledger, b.running[call].read, answer), b.running - {call})
  }

  function Run(steps: seq<Step>): Boundary {
    if steps == [] then Boundary(Ledger(map[], []), map[])
    else Take(Run(steps[..|steps| - 1]), steps[|steps| - 1])
  }

  /** A call that no other overlaps is one step of the boundary. */
  lemma AloneIsSignStep(l: Ledger, policy: Policy, input: Input, sign: Request -> Answer)
    ensures var b := Take(Boundary(l, map[]), Begin(0, policy, input));
      SignStep(l, policy, input, sign).0 ==
        if 0 in b.running then Take(b, End(0, sign(b.running[0].read.request))).ledger else b.ledger
  {
    hide CreateRequest, ResponseMatches, AuditOf;
  }

  /** The call is answered after another call of its key was, since it began. */
  predicate Overtaken(b: Boundary, s: Step, key: Key) {
    && s.End? && !s.answer.Silence? && s.call in b.running
    && b.running[s.call].read.request.key == key && b.running[s.call].seen != |Trail(b.ledger.audits, key)|
  }

  predicate Agrees(l: Ledger, key: Key)
    requires key in l.records
  {
    Trail(l.audits, key) == TrailOf(l.records[key])
  }

  /** A record never counts more attempts than its trail, and tells its trail if it counts as many. */
  ghost predicate Counted(l: Ledger, key: Key) {
    if key in l.records then
      && l.records[key].request.key == key && RecordOk(l.records[key])
      && l.records[key].attempts + 1 <= |Trail(l.audits, key)|
      && (l.records[key].attempts + 1 == |Trail(l.audits, key)| ==> Agrees(l, key))
    else Trail(l.audits, key) == []
  }

  /** What a running call read: unsigned, no newer than the trail it saw, and still the record if no call was answered since. */
  ghost predicate Remembered(l: Ledger, r: Running) {
    var key := r.read.request.key;
    && key in l.records && RecordOk(r.read) && !r.read.status.Signed?
    && r.read.attempts + 1 <= r.seen <= |Trail(l.audits, key)|
    && (r.seen == |Trail(l.audits, key)| ==> l.records[key] == r.read)
  }

  ghost predicate Inv(b: Boundary) {
    && (forall k :: Counted(b.ledger, k))
    && (forall call :: call in b.running ==> Remembered(b.ledger, b.running[call]))
  }

  lemma TrailLength(r: Record)
    requires RecordOk(r)
    ensures |TrailOf(r)| == r.attempts + 1
  {
    hide ResponseMatches;
  }

  // ---- Starting a call ----

  lemma SaveCounts(l: Ledger, request: Request, key: Key)
    requires Counted(l, key) && 0 <= request.fee <= request.feeCap
    ensures Counted(Save(l, request), key)
    ensures key in l.records ==>
      key in Save(l, request).records && Save(l, request).records[key] == l.records[key]
      && (request.key != key || request.key in l.records ==> Trail(Save(l, request).audits, key) == Trail(l.audits, key))
    ensures key == request.key && key !in l.records ==> Agrees(Save(l, request), key)
  {
    hide ResponseMatches, Trail;
    if request.key !in l.records {
      var a := AuditOf(Record(request, Requested, 0, None, None), Requested);
      TrailAppends(l.audits, a, key);
    }
  }

  lemma SaveRemembers(l: Ledger, request: Request, r: Running)
    requires Remembered(l, r)
    ensures Remembered(Save(l, request), r)
  {
    hide RecordOk, Trail;
    if request.key !in l.records {
      TrailAppends(l.audits, AuditOf(Record(request, Requested, 0, None, None), Requested), r.read.request.key);
    }
  }

  lemma FeeOk(policy: Policy, input: Input)
    requires CreateRequest(policy, input).Ok?
    ensures 0 <= CreateRequest(policy, input).value.fee <= CreateRequest(policy, input).value.feeCap
  {
    hide TemplateOf, PolicyCanSign, PaysDestination;
  }

  lemma BeginKeepsInv(b: Boundary, s: Step, key: Key)
    requires Inv(b) && s.Begin?
    ensures Inv(Take(b, s))
    ensures var l, l' := b.ledger, Take(b, s).ledger;
      key in l'.records ==> (Agrees(l', key) <==> (key in l.records ==> Agrees(l, key)))
  {
    hide CreateRequest, Save, Counted, Remembered, Agrees, Trail;
    var request := CreateRequest(s.policy, s.input);
    if s.call !in b.running && request.Ok? {
      FeeOk(s.policy, s.input);
      var l := Save(b.ledger, request.value);
      forall k
        ensures Counted(l, k)
      {
        SaveCounts(b.ledger, request.value, k);
      }
      forall call | call in b.running
        ensures Remembered(l, b.running[call])
      {
        SaveRemembers(b.ledger, request.value, b.running[call]);
      }
      BeginRemembers(b.ledger, request.value);
      BeginAgrees(b.ledger, request.value, key);
    }
  }

  lemma BeginRemembers(l: Ledger, request: Request)
    requires Counted(Save(l, request), request.key)
    ensures var l' := Save(l, request);
      && request.key in l'.records
      && (!l'.records[request.key].status.Signed? ==>
            Remembered(l', Running(l'.records[request.key], |Trail(l'.audits, request.key)|)))
  {
    hide RecordOk, Trail;
  }

  lemma BeginAgrees(l: Ledger, request: Request, key: Key)
    requires Counted(l, key) && 0 <= request.fee <= request.feeCap
    ensures var l' := Save(l, request);
      key in l'.records ==> (Agrees(l', key) <==> (key in l.records ==> Agrees(l, key)))
  {
    hide RecordOk, Trail, TrailOf, Counted;
    SaveCounts(l, request, key);
  }

  // ---- Answering a call ----

  lemma WrittenIs(read: Record, answer: Answer)
    requires !answer.Silence? && RecordOk(read) && !read.status.Signed?
    ensures var w := Written(read, answer);
      RecordOk(w) && w.request == read.request && w.attempts == read.attempts + 1 && !w.status.Requested?
  {
    hide ResponseMatches;
  }

  lemma UpdatedTrail(l: Ledger, r: Record, key: Key)
    ensures Trail(Update(l, r).audits, key) == Trail(l.audits, key) + if r.request.key == key then [r.status] else []
    ensures Update(l, r).records == l.records[r.request.key := r]
  {
    TrailAppends(l.audits, AuditOf(r, r.status), key);
  }

  /** An answer keeps the count: exactly, if the call was not overtaken, and else the record falls behind for good. */
  lemma UpdateCounts(l: Ledger, r: Running, w: Record, key: Key)
    requires Counted(l, key) && Remembered(l, r)
    requires RecordOk(w) && w.request == r.read.request && w.attempts == r.read.attempts + 1 && !w.status.Requested?
    ensures Counted(Update(l, w), key)
    ensures key in l.records ==> key in Update(l, w).records
    ensures key in l.records && r.read.request.key == key ==>
      (Agrees(Update(l, w), key) <==> Agrees(l, key) && r.seen == |Trail(l.audits, key)|)
    ensures key in l.records && r.read.request.key != key ==> (Agrees(Update(l, w), key) <==> Agrees(l, key))
    ensures key !in l.records ==> key !in Update(l, w).records
  {
    hide RecordOk, TrailOf, Trail, Update;
    UpdatedTrail(l, w, key);
    if key in l.records && r.read.request.key == key {
      TrailLength(l.records[key]);
      TrailLength(w);
      if r.seen == |Trail(l.audits, key)| { NextTrail(r.read, w); }
    }
  }

  lemma UpdateRemembers(l: Ledger, w: Record, r: Running)
    requires Remembered(l, r)
    ensures Remembered(Update(l, w), r)
  {
    hide RecordOk, Trail, Update;
    UpdatedTrail(l, w, r.read.request.key);
  }

  lemma EndKeepsInv(b: Boundary, s: Step, key: Key)
    requires Inv(b) && s.End?
    ensures Inv(Take(b, s))
    ensures var l, l' := b.ledger, Take(b, s).ledger;
      key in l'.records ==> key in l.records && (Agrees(l', key) <==> Agrees(l, key) && !Overtaken(b, s, key))
  {
    hide Counted, Remembered, Agrees, Trail, Update, Written;
    if s.call in b.running {
      var r := b.running[s.call];
      if !s.answer.Silence? {
        Reads(b.ledger, r);
        WrittenIs(r.read, s.answer);
        var w := Written(r.read, s.answer);
        forall k
          ensures Counted(Update(b.ledger, w), k)
        {
          UpdateCounts(b.ledger, r, w, k);
        }
        forall call | call in b.running
          ensures Remembered(Update(b.ledger, w), b.running[call])
        {
          UpdateRemembers(b.ledger, w, b.running[call]);
        }
        UpdateCounts(b.ledger, r, w, key);
      }
    }
  }

  lemma Reads(l: Ledger, r: Running)
    requires Remembered(l, r)
    ensures RecordOk(r.read) && !r.read.status.Signed?
  {
  }

  // ---- Runs ----

  lemma StepKeepsInv(b: Boundary, s: Step, key: Key)
    requires Inv(b)
    ensures Inv(Take(b, s))
    ensures var l, l' := b.ledger, Take(b, s).ledger;
      key in l'.records ==> (Agrees(l', key) <==> (key in l.records ==> Agrees(l, key)) && !Overtaken(b, s, key))
    ensures key !in b.ledger.records ==> !Overtaken(b, s, key)
  {
    hide Take, Agrees, Counted, Trail;
    if s.Begin? {
      BeginKeepsInv(b, s, key);
    } else {
      EndKeepsInv(b, s, key);
    }
  }

  lemma {:induction false} RunKeepsInv(steps: seq<Step>)
    ensures Inv(Run(steps))
  {
    hide Take, Counted, Remembered;
    if steps != [] {
      var n := |steps| - 1;
      RunKeepsInv(steps[..n]);
      AnyKey(Run(steps[..n]), steps[n]);
    } else {
      NothingStarted();
    }
  }

  lemma NothingStarted()
    ensures Inv(Boundary(Ledger(map[], []), map[]))
  {
  }

  lemma AnyKey(b: Boundary, s: Step)
    requires Inv(b)
    ensures Inv(Take(b, s))
  {
    hide Inv, Take;
    StepKeepsInv(b, s, Key("", Release, "", UnsignedTx(Release, "", "", "", "", 0, 0)));
  }

  /** No answered call of the key was overtaken. */
  predicate NoneOvertaken(steps: seq<Step>, key: Key) {
    forall n :: 0 <= n < |steps| ==> !Overtaken(Run(steps[..n]), steps[n], key)
  }

  /** Over every run of started and answered calls, a record and its audit trail agree exactly when no answered call of
      the key was overtaken by another. */
  lemma {:induction false} AgreesIff(steps: seq<Step>, key: Key)
    requires key in Run(steps).ledger.records
    ensures Agrees(Run(steps).ledger, key) <==> NoneOvertaken(steps, key)
  {
    hide Take, Agrees, Overtaken, Inv;
    var n := |steps| - 1;
    RunKeepsInv(steps[..n]);
    StepKeepsInv(Run(steps[..n]), steps[n], key);
    assert forall k :: 0 <= k < n ==> steps[..n][..k] == steps[..k];
    if key in Run(steps[..n]).ledger.records {
      AgreesIff(steps[..n], key);
    } else {
      UnknownIsNotOvertaken(steps[..n], key);
    }
  }

  lemma RecordsStay(b: Boundary, s: Step, key: Key)
    requires key in b.ledger.records
    ensures key in Take(b, s).ledger.records
  {
    hide CreateRequest, Written, AuditOf;
  }

  /** Records are never removed, so no call of an unknown key was answered. */
  lemma {:induction false} UnknownIsNotOvertaken(steps: seq<Step>, key: Key)
    requires key !in Run(steps).ledger.records
    ensures NoneOvertaken(steps, key)
  {
    hide Overtaken, Inv, Take;
    if steps != [] {
      var n := |steps| - 1;
      var b := Run(steps[..n]);
      if key in b.ledger.records { RecordsStay(b, steps[n], key); }
      RunKeepsInv(steps[..n]);
      StepKeepsInv(b, steps[n], key);
      UnknownIsNotOvertaken(steps[..n], key);
      assert forall k :: 0 <= k < n ==> steps[..n][..k] == steps[..k];
    }
  }

  // ---- Signatures ----

  /** A signed record stays as it is under every step that is not an overtaken answer. */
  lemma SignedStays(b: Boundary, s: Step, key: Key)
    requires Inv(b) && key in b.ledger.records && b.ledger.records[key].status.Signed? && !Overtaken(b, s, key)
    ensures key in Take(b, s).ledger.records && Take(b, s).ledger.records[key] == b.ledger.records[key]
  {
    hide CreateRequest, ResponseMatches, RecordOk, TrailOf, Trail, Counted;
    if s.End? && s.call in b.running {
      assert Remembered(b.ledger, b.running[s.call]);
    }
  }

  lemma RunThen(steps: seq<Step>, s: Step)
    ensures Run(steps + [s]) == Take(Run(steps), s)
  {
    assert (steps + [s])[..|steps|] == steps;
  }

  /** Two calls of one new request have begun. */
  lemma BothBegun(policy: Policy, input: Input)
    requires CreateRequest(policy, input).Ok?
    ensures var request := CreateRequest(policy, input).value;
      var r := Record(request, Requested, 0, None, None);
      Run([] + [Begin(0, policy, input)] + [Begin(1, policy, input)]) ==
        Boundary(Ledger(map[request.key := r], [AuditOf(r, Requested)]), map[0 := Running(r, 1), 1 := Running(r, 1)])
  {
    hide CreateRequest;
    RunThen([], Begin(0, policy, input));
    RunThen([] + [Begin(0, policy, input)], Begin(1, policy, input));
    var r := Record(CreateRequest(policy, input).value, Requested, 0, None, None);
    TrailAppends([], AuditOf(r, Requested), r.request.key);
    assert [] + [AuditOf(r, Requested)] == [AuditOf(r, Requested)];
  }

  /** And overtaken answers do occur: a call that began before the signature and is refused after it takes the signature away. */
  lemma OvertakenOverwrites(policy: Policy, input: Input, response: Response, error: string) returns (steps: seq<Step>)
    requires CreateRequest(policy, input).Ok? && ResponseMatches(response, CreateRequest(policy, input).value)
    ensures |steps| == 4
    ensures var key := CreateRequest(policy, input).value.key;
      var before, after := Run(steps[..3]).ledger, Run(steps).ledger;
      && key in before.records && before.records[key].status.Signed? && before.records[key].response == Some(response)
      && key in after.records && after.records[key].status.Failed? && after.records[key].response.None?
      && Trail(after.audits, key) == [Requested, Signed, Failed]
  {
    hide CreateRequest, ResponseMatches, Trail;
    var request := CreateRequest(policy, input).value;
    var r := Record(request, Requested, 0, None, None);
    var two := [] + [Begin(0, policy, input)] + [Begin(1, policy, input)];
    var e0, e1 := End(0, Answered(response)), End(1, Refused(error));
    BothBegun(policy, input);
    RunThen(two, e0);
    RunThen(two + [e0], e1);
    steps := two + [e0] + [e1];
    assert steps[..3] == two + [e0];
    TrailAppends([], AuditOf(r, Requested), request.key);
    assert [] + [AuditOf(r, Requested)] == [AuditOf(r, Requested)] && Trail([], request.key) == [] by { EmptyTrail(request.key); }
    UpdatedTrail(Run(two).ledger, Written(r, e0.answer), request.key);
    UpdatedTrail(Run(two + [e0]).ledger, Written(r, e1.answer), request.key);
  }

  lemma EmptyTrail(key: Key)
    ensures Trail([], key) == []
  {
  }
}
