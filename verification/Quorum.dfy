/**
 Relayer quorum over a bridge event: services/bridge-service/src/attestations.ts.

 `Evaluate` says what the evaluation returns as a function of which attestations were received, not of
 their order; `EvaluateBridgeAttestationQuorum` is the loop.  `StatusMeans` says exactly when a quorum
 approves, and `QuorumsIntersect` with `DisjointQuorums` says exactly when two approvals must share a relayer.
 */
module Quorum {
  import opened Wrappers

  datatype Event = Event(eventId: string, eventHash: string, requiredConfirmations: int, observedConfirmations: int)
  datatype Attestation = Attestation(relayerId: string, eventId: string, eventHash: string)

  /** `requiredAttestations` is a JavaScript number and need not be whole. */
  datatype Policy = Policy(relayerIds: seq<string>, requiredAttestations: real)

  datatype Blocker =
    | RelayerSetRequired
    | RelayerSetHasDuplicates
    | RequiredAttestationsInvalid
    | QuorumExceedsRelayerSet
    | FinalityNotReached
    | UnknownRelayer(relayerId: string)
    | EventIdMismatch(relayerId: string)
    | EventHashMismatch(relayerId: string)
    | DuplicateAttestation(relayerId: string)

  datatype Status = Approved | Wait | ManualReview

  /** The two lists of the result, without their sorting. */
  datatype Verdict = Verdict(status: Status, relayerIds: set<string>, blockers: set<Blocker>)

  function Members(relayerIds: seq<string>): set<string> {
    set r | r in relayerIds
  }

  predicate WholeNumber(x: real) {
    x == x.Floor as real
  }

  function PolicyBlockers(policy: Policy): set<Blocker> {
    var unique := |Members(policy.relayerIds)|;
    (if |policy.relayerIds| == 0 then {RelayerSetRequired} else {})
    + (if unique != |policy.relayerIds| then {RelayerSetHasDuplicates} else {})
    + (if !WholeNumber(policy.requiredAttestations) || policy.requiredAttestations <= 0.0 then {RequiredAttestationsInvalid} else {})
    + (if policy.requiredAttestations > unique as real then {QuorumExceedsRelayerSet} else {})
  }

  function FinalityBlockers(event: Event): set<Blocker> {
    if event.observedConfirmations < event.requiredConfirmations then {FinalityNotReached} else {}
  }

  function Rejection(a: Attestation, event: Event, policy: Policy): Option<Blocker> {
    if a.relayerId !in policy.relayerIds then Some(UnknownRelayer(a.relayerId))
    else if a.eventId != event.eventId then Some(EventIdMismatch(a.relayerId))
    else if a.eventHash != event.eventHash then Some(EventHashMismatch(a.relayerId))
    else None
  }

  predicate Valid(a: Attestation, event: Event, policy: Policy) {
    Rejection(a, event, policy).None?
  }

  function Votes(attestations: seq<Attestation>, event: Event, policy: Policy, r: string): nat {
    if attestations == [] then 0
    else
      var last := attestations[|attestations| - 1];
      Votes(attestations[..|attestations| - 1], event, policy, r)
      + if Valid(last, event, policy) && last.relayerId == r then 1 else 0
  }

  function Voters(attestations: seq<Attestation>, event: Event, policy: Policy): set<string> {
    set a | a in attestations && Valid(a, event, policy) :: a.relayerId
  }

  function Rejections(attestations: seq<Attestation>, event: Event, policy: Policy): set<Blocker> {
    set a | a in attestations && !Valid(a, event, policy) :: Rejection(a, event, policy).value
  }

  function Duplicates(attestations: seq<Attestation>, event: Event, policy: Policy): set<Blocker> {
    set r | r in policy.relayerIds && Votes(attestations, event, policy, r) >= 2 :: DuplicateAttestation(r)
  }

  predicate NeedsReview(blockers: set<Blocker>) {
    exists b :: b in blockers && b != FinalityNotReached
  }

  function StatusOf(blockers: set<Blocker>, voters: set<string>, policy: Policy): Status {
    if NeedsReview(blockers) then ManualReview
    else if blockers != {} || |voters| as real < policy.requiredAttestations then Wait
    else Approved
  }

  function Evaluate(event: Event, attestations: seq<Attestation>, policy: Policy): Verdict {
    var voters := Voters(attestations, event, policy);
    var blockers := PolicyBlockers(policy) + FinalityBlockers(event)
      + Rejections(attestations, event, policy) + Duplicates(attestations, event, policy);
    Verdict(StatusOf(blockers, voters, policy), voters, blockers)
  }

  // ---- The loop ----

  lemma {:induction false} VotedIff(attestations: seq<Attestation>, event: Event, policy: Policy, r: string)
    ensures r in Voters(attestations, event, policy) <==> Votes(attestations, event, policy, r) > 0
  {
    if attestations != [] {
      var n := |attestations| - 1;
      assert attestations == attestations[..n] + [attestations[n]];
      VotedIff(attestations[..n], event, policy, r);
      if r in Voters(attestations[..n], event, policy) {
        var a :| a in attestations[..n] && Valid(a, event, policy) && a.relayerId == r;
        assert a in attestations;
      }
    }
  }

  lemma StepSets(attestations: seq<Attestation>, a: Attestation, event: Event, policy: Policy)
    ensures Voters(attestations + [a], event, policy) ==
      Voters(attestations, event, policy) + if Valid(a, event, policy) then {a.relayerId} else {}
    ensures Rejections(attestations + [a], event, policy) ==
      Rejections(attestations, event, policy) + if Valid(a, event, policy) then {} else {Rejection(a, event, policy).value}
  {
    assert forall x :: x in attestations + [a] <==> x in attestations || x == a;
  }

  lemma StepDuplicates(attestations: seq<Attestation>, a: Attestation, event: Event, policy: Policy)
    ensures Duplicates(attestations + [a], event, policy) ==
      Duplicates(attestations, event, policy)
      + if Valid(a, event, policy) && a.relayerId in Voters(attestations, event, policy) then {DuplicateAttestation(a.relayerId)} else {}
  {
    hide Voters, Valid;
    assert (attestations + [a])[..|attestations|] == attestations;
    assert forall r :: (Votes(attestations + [a], event, policy, r) ==
        Votes(attestations, event, policy, r) + if Valid(a, event, policy) && a.relayerId == r then 1 else 0);
    VotedIff(attestations, event, policy, a.relayerId);
    ValidIsAuthorised(a, event, policy);
  }

  lemma ValidIsAuthorised(a: Attestation, event: Event, policy: Policy)
    ensures Valid(a, event, policy) ==> a.relayerId in policy.relayerIds
  {
  }

  method EvaluateBridgeAttestationQuorum(event: Event, attestations: seq<Attestation>, policy: Policy) returns (q: Verdict)
    ensures q == Evaluate(event, attestations, policy)
  {
    hide PolicyBlockers, Votes, Voters, Rejections, Duplicates, NeedsReview;
    var validByRelayer: map<string, Attestation> := map[];
    ghost var base := PolicyBlockers(policy) + FinalityBlockers(event);
    var blockers := PolicyBlockers(policy);
    if event.observedConfirmations < event.requiredConfirmations {
      blockers := blockers + {FinalityNotReached};
    }
    NoAttestations(event, policy);
    for n := 0 to |attestations|
      invariant validByRelayer.Keys == Voters(attestations[..n], event, policy)
      invariant blockers == base + Rejections(attestations[..n], event, policy) + Duplicates(attestations[..n], event, policy)
    {
      var a := attestations[n];
      StepSets(attestations[..n], a, event, policy);
      StepDuplicates(attestations[..n], a, event, policy);
      assert attestations[..n + 1] == attestations[..n] + [a];
      if a.relayerId !in policy.relayerIds {
        blockers := blockers + {UnknownRelayer(a.relayerId)};
      } else if a.eventId != event.eventId {
        blockers := blockers + {EventIdMismatch(a.relayerId)};
      } else if a.eventHash != event.eventHash {
        blockers := blockers + {EventHashMismatch(a.relayerId)};
      } else if a.relayerId in validByRelayer {
        blockers := blockers + {DuplicateAttestation(a.relayerId)};
      } else {
        validByRelayer := validByRelayer[a.relayerId := a];
      }
    }
    assert attestations[..|attestations|] == attestations;
    q := Verdict(StatusOf(blockers, validByRelayer.Keys, policy), validByRelayer.Keys, blockers);
  }

  lemma NoAttestations(event: Event, policy: Policy)
    ensures Voters([], event, policy) == {} && Rejections([], event, policy) == {} && Duplicates([], event, policy) == {}
  {
  }

  // ---- What a verdict means ----

  predicate PolicyOk(policy: Policy) {
    && |Members(policy.relayerIds)| == |policy.relayerIds|
    && WholeNumber(policy.requiredAttestations)
    && 0.0 < policy.requiredAttestations <= |policy.relayerIds| as real
  }

  /** Every attestation is by an authorised relayer, names this id and hash, and no relayer attests twice. */
  predicate Clean(attestations: seq<Attestation>, event: Event, policy: Policy) {
    && (forall i :: 0 <= i < |attestations| ==>
          attestations[i].relayerId in policy.relayerIds
          && attestations[i].eventId == event.eventId && attestations[i].eventHash == event.eventHash)
    && (forall i, j :: 0 <= i < j < |attestations| ==> attestations[i].relayerId != attestations[j].relayerId)
  }

  lemma {:induction false} CleanVoters(attestations: seq<Attestation>, event: Event, policy: Policy)
    requires Clean(attestations, event, policy)
    ensures |Voters(attestations, event, policy)| == |attestations|
    ensures forall r :: Votes(attestations, event, policy, r) <= 1
  {
    if attestations != [] {
      var n := |attestations| - 1;
      var rest, last := attestations[..n], attestations[n];
      assert attestations == rest + [last];
      CleanVoters(rest, event, policy);
      StepSets(rest, last, event, policy);
      forall r
        ensures Votes(attestations, event, policy, r) <= 1
      {
        VotedIff(rest, event, policy, r);
      }
    }
  }

  lemma {:induction false} TwoVotes(attestations: seq<Attestation>, event: Event, policy: Policy, i: nat, j: nat)
    requires i < j < |attestations| && attestations[i].relayerId == attestations[j].relayerId
    requires Valid(attestations[i], event, policy) && Valid(attestations[j], event, policy)
    ensures Votes(attestations, event, policy, attestations[i].relayerId) >= 2
  {
    var n := |attestations| - 1;
    var rest := attestations[..n];
    if j < n {
      TwoVotes(rest, event, policy, i, j);
    } else {
      assert rest[i] in rest;
      VotedIff(rest, event, policy, attestations[i].relayerId);
    }
  }

  lemma UncleanBlocks(event: Event, attestations: seq<Attestation>, policy: Policy)
    requires !Clean(attestations, event, policy)
    ensures exists b :: b in Rejections(attestations, event, policy) + Duplicates(attestations, event, policy) && b != FinalityNotReached
  {
    if i :| 0 <= i < |attestations| && !Valid(attestations[i], event, policy) {
      var b := Rejection(attestations[i], event, policy).value;
      assert attestations[i] in attestations;
      assert b in Rejections(attestations, event, policy) + Duplicates(attestations, event, policy) && b != FinalityNotReached;
    } else {
      var i, j :| 0 <= i < j < |attestations| && attestations[i].relayerId == attestations[j].relayerId;
      assert Valid(attestations[i], event, policy) && Valid(attestations[j], event, policy);
      TwoVotes(attestations, event, policy, i, j);
      var b := DuplicateAttestation(attestations[i].relayerId);
      assert b in Rejections(attestations, event, policy) + Duplicates(attestations, event, policy) && b != FinalityNotReached;
    }
  }

  lemma CleanBlocksNothing(event: Event, attestations: seq<Attestation>, policy: Policy)
    requires Clean(attestations, event, policy)
    ensures Rejections(attestations, event, policy) == {} && Duplicates(attestations, event, policy) == {}
  {
    CleanVoters(attestations, event, policy);
  }

  lemma {:induction false} AtLeastOne(relayerIds: seq<string>)
    ensures |Members(relayerIds)| <= |relayerIds|
  {
    if relayerIds != [] {
      AtLeastOne(relayerIds[1..]);
      assert Members(relayerIds) == Members(relayerIds[1..]) + {relayerIds[0]};
    }
  }

  lemma PolicyOkIff(policy: Policy)
    ensures PolicyOk(policy) <==> PolicyBlockers(policy) == {}
    ensures FinalityNotReached !in PolicyBlockers(policy)
  {
    AtLeastOne(policy.relayerIds);
  }

  predicate Attested(attestations: seq<Attestation>, r: string, eventId: string, eventHash: string) {
    Attestation(r, eventId, eventHash) in attestations
  }

  lemma VotersAttested(event: Event, attestations: seq<Attestation>, policy: Policy, r: string)
    ensures r in Voters(attestations, event, policy) <==>
      r in policy.relayerIds && Attested(attestations, r, event.eventId, event.eventHash)
  {
    assert Valid(Attestation(r, event.eventId, event.eventHash), event, policy) <==> r in policy.relayerIds;
    if r in Voters(attestations, event, policy) {
      var a :| a in attestations && Valid(a, event, policy) && a.relayerId == r;
      assert a == Attestation(r, event.eventId, event.eventHash);
    }
  }

  /** When each status is given, who is named, and how many relayers an approval names. */
  lemma StatusMeans(event: Event, attestations: seq<Attestation>, policy: Policy)
    ensures var q := Evaluate(event, attestations, policy);
      && (q.status.ManualReview? <==> !PolicyOk(policy) || !Clean(attestations, event, policy))
      && (q.status.Approved? <==>
            && PolicyOk(policy) && Clean(attestations, event, policy)
            && event.requiredConfirmations <= event.observedConfirmations
            && policy.requiredAttestations <= |attestations| as real)
      && (q.status.Approved? ==> |q.relayerIds| == |attestations|)
      && (forall r :: r in q.relayerIds <==>
            r in policy.relayerIds && Attested(attestations, r, event.eventId, event.eventHash))
  {
    hide PolicyOk, PolicyBlockers, Clean, Rejections, Duplicates, Votes, Voters, Attested;
    PolicyOkIff(policy);
    forall r {
      VotersAttested(event, attestations, policy, r);
    }
    if Clean(attestations, event, policy) {
      CleanBlocksNothing(event, attestations, policy);
      CleanVoters(attestations, event, policy);
    } else {
      UncleanBlocks(event, attestations, policy);
    }
    if PolicyBlockers(policy) != {} {
      var b :| b in PolicyBlockers(policy);
      assert b in Evaluate(event, attestations, policy).blockers;
    }
  }

  // ---- What each blocker means ----

  /** The attestation names the event's id and hash. */
  predicate Names(a: Attestation, event: Event) {
    a.eventId == event.eventId && a.eventHash == event.eventHash
  }

  predicate AttestsTwice(attestations: seq<Attestation>, event: Event, r: string) {
    exists i, j :: 0 <= i < j < |attestations| && attestations[i].relayerId == attestations[j].relayerId == r
      && Names(attestations[i], event) && Names(attestations[j], event)
  }

  predicate ListedTwice(relayerIds: seq<string>) {
    exists i, j :: 0 <= i < j < |relayerIds| && relayerIds[i] == relayerIds[j]
  }

  /** When the evaluation names the blocker. */
  predicate Blocks(b: Blocker, event: Event, attestations: seq<Attestation>, policy: Policy) {
    match b
    case RelayerSetRequired => policy.relayerIds == []
    case RelayerSetHasDuplicates => ListedTwice(policy.relayerIds)
    case RequiredAttestationsInvalid => policy.requiredAttestations <= 0.0 || policy.requiredAttestations != policy.requiredAttestations.Floor as real
    case QuorumExceedsRelayerSet => policy.requiredAttestations > |Members(policy.relayerIds)| as real
    case FinalityNotReached => event.observedConfirmations < event.requiredConfirmations
    case UnknownRelayer(r) => r !in policy.relayerIds && exists a :: a in attestations && a.relayerId == r
    case EventIdMismatch(r) => r in policy.relayerIds && exists a :: a in attestations && a.relayerId == r && a.eventId != event.eventId
    case EventHashMismatch(r) =>
      r in policy.relayerIds && exists a :: a in attestations && a.relayerId == r && a.eventId == event.eventId && a.eventHash != event.eventHash
    case DuplicateAttestation(r) => r in policy.relayerIds && AttestsTwice(attestations, event, r)
  }

  lemma {:induction false} AllDistinct(relayerIds: seq<string>)
    requires !ListedTwice(relayerIds)
    ensures |Members(relayerIds)| == |relayerIds|
  {
    if relayerIds != [] {
      var rest := relayerIds[1..];
      assert forall i :: 0 <= i < |rest| ==> rest[i] == relayerIds[i + 1];
      AllDistinct(rest);
      assert Members(relayerIds) == Members(rest) + {relayerIds[0]};
    }
  }

  lemma DuplicatesListed(relayerIds: seq<string>)
    ensures |Members(relayerIds)| != |relayerIds| <==> ListedTwice(relayerIds)
  {
    if !ListedTwice(relayerIds) {
      AllDistinct(relayerIds);
    } else if |Members(relayerIds)| == |relayerIds| {
      var i, j :| 0 <= i < j < |relayerIds| && relayerIds[i] == relayerIds[j];
      NoRepeats(relayerIds, i, j);
    }
  }

  predicate OfPolicy(b: Blocker) {
    b.RelayerSetRequired? || b.RelayerSetHasDuplicates? || b.RequiredAttestationsInvalid? || b.QuorumExceedsRelayerSet?
  }

  lemma FourBlockers(b: Blocker, required: bool, twice: bool, invalid: bool, exceeds: bool)
    ensures b in (if required then {RelayerSetRequired} else {}) + (if twice then {RelayerSetHasDuplicates} else {})
                 + (if invalid then {RequiredAttestationsInvalid} else {}) + (if exceeds then {QuorumExceedsRelayerSet} else {}) <==>
      (b == RelayerSetRequired && required) || (b == RelayerSetHasDuplicates && twice)
      || (b == RequiredAttestationsInvalid && invalid) || (b == QuorumExceedsRelayerSet && exceeds)
  {
  }

  lemma PolicyBlockersAre(event: Event, attestations: seq<Attestation>, policy: Policy, b: Blocker)
    ensures b in PolicyBlockers(policy) <==> OfPolicy(b) && Blocks(b, event, attestations, policy)
  {
    hide AttestsTwice, ListedTwice, Members, WholeNumber;
    var unique := |Members(policy.relayerIds)|;
    DuplicatesListed(policy.relayerIds);
    FourBlockers(b, |policy.relayerIds| == 0, unique != |policy.relayerIds|,
      !WholeNumber(policy.requiredAttestations) || policy.requiredAttestations <= 0.0, policy.requiredAttestations > unique as real);
    WholeNumberIs(policy.requiredAttestations);
  }

  lemma WholeNumberIs(x: real)
    ensures WholeNumber(x) <==> x == x.Floor as real
  {
  }

  lemma RejectionsAre(event: Event, attestations: seq<Attestation>, policy: Policy, b: Blocker)
    ensures b in Rejections(attestations, event, policy) <==>
      (b.UnknownRelayer? || b.EventIdMismatch? || b.EventHashMismatch?) && Blocks(b, event, attestations, policy)
  {
    hide AttestsTwice, ListedTwice;
    if b in Rejections(attestations, event, policy) {
      var a :| a in attestations && !Valid(a, event, policy) && Rejection(a, event, policy).value == b;
    }
    if b.UnknownRelayer? && Blocks(b, event, attestations, policy) {
      var a :| a in attestations && a.relayerId == b.relayerId;
      assert Rejection(a, event, policy) == Some(b);
    }
    if b.EventIdMismatch? && Blocks(b, event, attestations, policy) {
      var a :| a in attestations && a.relayerId == b.relayerId && a.eventId != event.eventId;
      assert Rejection(a, event, policy) == Some(b);
    }
    if b.EventHashMismatch? && Blocks(b, event, attestations, policy) {
      var a :| a in attestations && a.relayerId == b.relayerId && a.eventId == event.eventId && a.eventHash != event.eventHash;
      assert Rejection(a, event, policy) == Some(b);
    }
  }

  lemma TwiceStays(attestations: seq<Attestation>, n: nat, event: Event, r: string)
    requires n <= |attestations| && AttestsTwice(attestations[..n], event, r)
    ensures AttestsTwice(attestations, event, r)
  {
    var i, j :| 0 <= i < j < n && attestations[..n][i].relayerId == attestations[..n][j].relayerId == r
      && Names(attestations[..n][i], event) && Names(attestations[..n][j], event);
    assert Names(attestations[i], event) && Names(attestations[j], event);
  }

  lemma TwiceNow(attestations: seq<Attestation>, event: Event, policy: Policy, r: string)
    requires attestations != [] && attestations[|attestations| - 1].relayerId == r && Valid(attestations[|attestations| - 1], event, policy)
    requires r in Voters(attestations[..|attestations| - 1], event, policy)
    ensures AttestsTwice(attestations, event, r)
  {
    var n := |attestations| - 1;
    var a :| a in attestations[..n] && Valid(a, event, policy) && a.relayerId == r;
    var i :| 0 <= i < n && attestations[i] == a;
    assert Names(attestations[i], event) && Names(attestations[n], event);
  }

  lemma {:induction false} VotedTwice(attestations: seq<Attestation>, event: Event, policy: Policy, r: string)
    requires Votes(attestations, event, policy, r) >= 2
    ensures AttestsTwice(attestations, event, r)
  {
    hide AttestsTwice, Valid, Voters;
    var n := |attestations| - 1;
    if Votes(attestations[..n], event, policy, r) >= 2 {
      VotedTwice(attestations[..n], event, policy, r);
      TwiceStays(attestations, n, event, r);
    } else {
      VotedIff(attestations[..n], event, policy, r);
      TwiceNow(attestations, event, policy, r);
    }
  }

  lemma VotesTwice(attestations: seq<Attestation>, event: Event, policy: Policy, r: string)
    requires r in policy.relayerIds
    ensures Votes(attestations, event, policy, r) >= 2 <==> AttestsTwice(attestations, event, r)
  {
    hide Votes;
    if Votes(attestations, event, policy, r) >= 2 {
      VotedTwice(attestations, event, policy, r);
    }
    if AttestsTwice(attestations, event, r) {
      var i, j :| 0 <= i < j < |attestations| && attestations[i].relayerId == attestations[j].relayerId == r
        && Names(attestations[i], event) && Names(attestations[j], event);
      TwoVotes(attestations, event, policy, i, j);
    }
  }

  lemma DuplicatesAre(event: Event, attestations: seq<Attestation>, policy: Policy, b: Blocker)
    ensures b in Duplicates(attestations, event, policy) <==> Blocks(b, event, attestations, policy) && b.DuplicateAttestation?
  {
    hide AttestsTwice, ListedTwice, Votes;
    if b.DuplicateAttestation? && b.relayerId in policy.relayerIds {
      VotesTwice(attestations, event, policy, b.relayerId);
    }
  }

  /** A verdict names each blocker exactly when the policy, the event or an attestation calls for it. */
  lemma BlockersAre(event: Event, attestations: seq<Attestation>, policy: Policy, b: Blocker)
    ensures b in Evaluate(event, attestations, policy).blockers <==> Blocks(b, event, attestations, policy)
  {
    hide PolicyBlockers, Rejections, Duplicates, Voters, AttestsTwice, ListedTwice, Members;
    PolicyBlockersAre(event, attestations, policy, b);
    RejectionsAre(event, attestations, policy, b);
    DuplicatesAre(event, attestations, policy, b);
  }

  // ---- The order of arrival ----

  lemma {:induction false} VotesWithout(attestations: seq<Attestation>, event: Event, policy: Policy, r: string, i: nat)
    requires i < |attestations|
    ensures Votes(attestations, event, policy, r) ==
      Votes(attestations[..i] + attestations[i + 1..], event, policy, r)
      + if Valid(attestations[i], event, policy) && attestations[i].relayerId == r then 1 else 0
  {
    hide Valid;
    var n := |attestations| - 1;
    if i == n {
      assert attestations[..i] + attestations[i + 1..] == attestations[..n];
    } else {
      var without := attestations[..i] + attestations[i + 1..];
      VotesWithout(attestations[..n], event, policy, r, i);
      assert without[..n - 1] == attestations[..n][..i] + attestations[..n][i + 1..];
      assert without[n - 1] == attestations[n];
    }
  }

  lemma {:induction false} VotesPermuted(a1: seq<Attestation>, a2: seq<Attestation>, event: Event, policy: Policy, r: string)
    requires multiset(a1) == multiset(a2)
    ensures Votes(a1, event, policy, r) == Votes(a2, event, policy, r)
  {
    if a1 == [] {
      assert |multiset(a2)| == 0;
    } else {
      var n := |a1| - 1;
      var x := a1[n];
      assert a1 == a1[..n] + [x];
      assert x in multiset(a2);
      var i :| 0 <= i < |a2| && a2[i] == x;
      var without := a2[..i] + a2[i + 1..];
      assert a2 == a2[..i] + [x] + a2[i + 1..];
      assert multiset(without) == multiset(a2) - multiset{x};
      VotesPermuted(a1[..n], without, event, policy, r);
      VotesWithout(a2, event, policy, r, i);
    }
  }

  /** The whole verdict is unchanged by permuting the attestations. */
  lemma PermutationKeepsVerdict(event: Event, a1: seq<Attestation>, a2: seq<Attestation>, policy: Policy)
    requires multiset(a1) == multiset(a2)
    ensures Evaluate(event, a1, policy) == Evaluate(event, a2, policy)
  {
    forall x
      ensures x in a1 <==> x in a2
    {
      assert x in a1 <==> x in multiset(a1);
      assert x in a2 <==> x in multiset(a2);
    }
    forall r
      ensures Votes(a1, event, policy, r) == Votes(a2, event, policy, r)
    {
      VotesPermuted(a1, a2, event, policy, r);
    }
    assert Voters(a1, event, policy) == Voters(a2, event, policy);
    assert Rejections(a1, event, policy) == Rejections(a2, event, policy);
    assert Duplicates(a1, event, policy) == Duplicates(a2, event, policy);
  }

  // ---- Two quorums ----

  lemma Pigeonhole(s1: set<string>, s2: set<string>, all: set<string>)
    requires s1 <= all && s2 <= all && |s1| + |s2| > |all|
    ensures s1 * s2 != {}
  {
    assert |s1 + s2| == |s1| + |s2| - |s1 * s2|;
    Subset(s1 + s2, all);
  }

  lemma Subset(small: set<string>, large: set<string>)
    requires small <= large
    ensures |small| <= |large|
  {
    assert large == small + (large - small);
  }

  /** Two approvals of one event id with different hashes share a relayer who attested both. */
  lemma QuorumsIntersect(e1: Event, e2: Event, a1: seq<Attestation>, a2: seq<Attestation>, policy: Policy)
    requires e1.eventId == e2.eventId && e1.eventHash != e2.eventHash
    requires Evaluate(e1, a1, policy).status.Approved? && Evaluate(e2, a2, policy).status.Approved?
    requires 2.0 * policy.requiredAttestations > |policy.relayerIds| as real
    ensures exists r :: r in policy.relayerIds && Attested(a1, r, e1.eventId, e1.eventHash) && Attested(a2, r, e2.eventId, e2.eventHash)
  {
    hide Evaluate, Clean, Attested;
    StatusMeans(e1, a1, policy);
    StatusMeans(e2, a2, policy);
    VerdictVoters(e1, a1, policy);
    VerdictVoters(e2, a2, policy);
    var v1, v2 := Voters(a1, e1, policy), Voters(a2, e2, policy);
    AtLeastOne(policy.relayerIds);
    Pigeonhole(v1, v2, Members(policy.relayerIds));
    var r :| r in v1 * v2;
  }

  lemma VerdictVoters(event: Event, attestations: seq<Attestation>, policy: Policy)
    ensures Evaluate(event, attestations, policy).relayerIds == Voters(attestations, event, policy)
  {
  }

  function AllAttest(relayerIds: seq<string>, event: Event): seq<Attestation> {
    seq(|relayerIds|, i requires 0 <= i < |relayerIds| => Attestation(relayerIds[i], event.eventId, event.eventHash))
  }

  lemma {:induction false} NoRepeats(relayerIds: seq<string>, i: nat, j: nat)
    requires |Members(relayerIds)| == |relayerIds| && i < j < |relayerIds|
    ensures relayerIds[i] != relayerIds[j]
  {
    if relayerIds[i] == relayerIds[j] {
      var rest := relayerIds[..j] + relayerIds[j + 1..];
      assert relayerIds[i] == rest[i];
      forall r | r in relayerIds
        ensures r in rest
      {
        var k :| 0 <= k < |relayerIds| && relayerIds[k] == r;
        assert rest[if k < j then k else if k == j then i else k - 1] == r;
      }
      assert Members(rest) == Members(relayerIds);
      AtLeastOne(rest);
    }
  }

  /** The bound is tight: a policy with twice its requirement within the relayer set has disjoint quorums. */
  lemma DisjointQuorums(e1: Event, e2: Event, policy: Policy) returns (a1: seq<Attestation>, a2: seq<Attestation>)
    requires PolicyOk(policy) && 2.0 * policy.requiredAttestations <= |policy.relayerIds| as real
    requires e1.requiredConfirmations <= e1.observedConfirmations && e2.requiredConfirmations <= e2.observedConfirmations
    ensures Evaluate(e1, a1, policy).status.Approved? && Evaluate(e2, a2, policy).status.Approved?
    ensures Evaluate(e1, a1, policy).relayerIds !! Evaluate(e2, a2, policy).relayerIds
  {
    hide Evaluate;
    var k := policy.requiredAttestations.Floor;
    var ids := policy.relayerIds;
    forall i, j | 0 <= i < j < |ids|
      ensures ids[i] != ids[j]
    {
      NoRepeats(ids, i, j);
    }
    a1, a2 := AllAttest(ids[..k], e1), AllAttest(ids[k..2 * k], e2);
    StatusMeans(e1, a1, policy);
    StatusMeans(e2, a2, policy);
    VerdictVoters(e1, a1, policy);
    VerdictVoters(e2, a2, policy);
  }
}
