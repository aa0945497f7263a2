/**
 The life cycle of a token request (token/request.go): actions and metadata grow in parallel,
 signatures are collected. What drivers, wallets and options answer is part of each call.
 */
module Requests {
  import opened Prelude
  import opened Sequences
  import opened Der
  import opened Metadata
  import opened Structure
  import opened Signers
  import opened SigningOrder

  datatype ActionSignature = ActionSignature(actionId: nat, signature: Bytes)

  datatype AuditorSignature = AuditorSignature(identity: Identity, signature: Bytes)

  datatype RequestSignature = RequestSignature(action: Option<ActionSignature>, auditor: Option<AuditorSignature>)

  /** A signature is for an action or by an auditor, not both. */
  predicate OneKind(signature: RequestSignature) {
    signature.action.Some? <==> signature.auditor.None?
  }

  /** The contents of a request. */
  datatype State = State(actions: seq<TypedAction>, entries: seq<Entry>, signatures: seq<RequestSignature>)

  const EMPTY := State([], [], [])

  // ---------------------------------------------------------------------------------------
  // Calls

  datatype IssueCall = IssueCall(hasWallet: bool, typ: string, q: nat, maxTokenValue: nat, receiver: Identity,
                                 issuer: Result<Identity>, options: bool, made: Result<IssueMetadata>,
                                 raw: Result<Bytes>)

  datatype UpgradeCall = UpgradeCall(hasWallet: bool, tokens: nat, options: bool, made: Result<IssueMetadata>,
                                     raw: Result<Bytes>)

  /** `prepared` is the outcome of `prepareTransfer`; a proof is verified only under debug logging. */
  datatype TransferCall = TransferCall(values: seq<nat>, options: bool, prepared: bool, made: Result<TransferMetadata>,
                                       debug: bool, verified: bool, raw: Result<Bytes>)

  predicate IssueAccepted(c: IssueCall) {
    && c.hasWallet && c.typ != "" && 0 < c.q <= c.maxTokenValue && c.receiver != []
    && c.issuer.Ok? && c.options && c.made.Ok? && c.raw.Ok?
  }

  predicate UpgradeAccepted(c: UpgradeCall) {
    c.hasWallet && c.tokens > 0 && c.options && c.made.Ok? && c.raw.Ok?
  }

  /** A redeem goes through without the test for zero values. */
  predicate TransferAccepted(c: TransferCall, redeem: bool) {
    && (redeem || 0 !in c.values) && c.options && c.prepared && c.made.Ok?
    && (c.debug ==> c.verified) && c.raw.Ok?
  }

  datatype Step =
    | DoIssue(issue: IssueCall)
    | DoUpgrade(upgrade: UpgradeCall)
    | DoTransfer(transfer: TransferCall)
    | DoRedeem(redeem: TransferCall)
    | DoAddAuditorSignature(identity: Identity, sigma: Bytes)
    | DoAppendSignatures(sigmas: map<string, Bytes>)

  function WithIssue(s: State, raw: Bytes, metadata: IssueMetadata): State {
    s.(actions := s.actions + [TypedAction(ISSUE, raw)],
       entries := s.entries + [Entry(|s.actions| % TWO32, Some(metadata), None)])
  }

  function WithTransfer(s: State, raw: Bytes, metadata: TransferMetadata): State {
    s.(actions := s.actions + [TypedAction(TRANSFER, raw)],
       entries := s.entries + [Entry(|s.actions| % TWO32, None, Some(metadata))])
  }

  /** The signature a signer provides, if any, in the form it is attached. */
  function SignatureFor(signer: Signer, sigmas: map<string, Bytes>, uniqueId: Identity -> string): RequestSignature {
    var id := uniqueId(signer.identity);
    RequestSignature(Some(ActionSignature(signer.actionId, if id in sigmas then sigmas[id] else [])), None)
  }

  function SignaturesFor(signers: seq<Signer>, sigmas: map<string, Bytes>, uniqueId: Identity -> string)
    : seq<RequestSignature>
  {
    seq(|signers|, i requires 0 <= i < |signers| => SignatureFor(signers[i], sigmas, uniqueId))
  }

  /** A signature for the action of a signer: the one given for its identity, or an empty one. */
  ghost predicate Attaches(signature: RequestSignature, signer: Signer, sigmas: map<string, Bytes>,
                           uniqueId: Identity -> string) {
    && signature.auditor == None && signature.action.Some?
    && signature.action.value.actionId == signer.actionId
    && (if uniqueId(signer.identity) in sigmas
        then signature.action.value.signature == sigmas[uniqueId(signer.identity)]
        else signature.action.value.signature == [])
  }

  /** Every required signer has a signature exactly if everyone who must sign has one. */
  lemma {:induction false} AllSigned(entries: seq<Entry>, sigmas: map<string, Bytes>, uniqueId: Identity -> string)
    requires ListableAll(entries)
    ensures (forall k :: 0 <= k < |RequiredSigners(entries)| ==>
               uniqueId(RequiredSigners(entries)[k].identity) in sigmas)
            <==> forall i, identity :: 0 <= i < |entries| && MustSign(entries[i], identity) ==>
                   uniqueId(identity) in sigmas
  {
    forall k | 0 <= k < |RequiredSigners(entries)|
      ensures exists i :: 0 <= i < |entries| && MustSign(entries[i], RequiredSigners(entries)[k].identity)
    {
      RequiredSignersMeaning(entries, RequiredSigners(entries)[k]);
    }
    forall i, identity | 0 <= i < |entries| && MustSign(entries[i], identity)
      ensures Signer(identity, entries[i].actionId) in RequiredSigners(entries)
    {
      RequiredSignersMeaning(entries, Signer(identity, entries[i].actionId));
    }
  }

  /**
   The contents after a call; a call that fails changes nothing. Listing the signers follows pointers
   of the metadata without a test, and panics before anything is added if one of them is nil.
   */
  function After(s: State, step: Step, uniqueId: Identity -> string): State {
    match step
    case DoIssue(c) => if IssueAccepted(c) then WithIssue(s, c.raw.value, c.made.value) else s
    case DoUpgrade(c) => if UpgradeAccepted(c) then WithIssue(s, c.raw.value, c.made.value) else s
    case DoTransfer(c) => if TransferAccepted(c, false) then WithTransfer(s, c.raw.value, c.made.value) else s
    case DoRedeem(c) => if TransferAccepted(c, true) then WithTransfer(s, c.raw.value, c.made.value) else s
    case DoAddAuditorSignature(identity, sigma) =>
      s.(signatures := s.signatures + [RequestSignature(None, Some(AuditorSignature(identity, sigma)))])
    case DoAppendSignatures(sigmas) =>
      if ListableAll(s.entries)
      then s.(signatures := s.signatures + SignaturesFor(RequiredSigners(s.entries), sigmas, uniqueId))
      else s
  }

  // ---------------------------------------------------------------------------------------
  // The request

  class Request {
    var actions: seq<TypedAction>
    var entries: seq<Entry>
    var signatures: seq<RequestSignature>

    function Contents(): State
      reads this
    {
      State(actions, entries, signatures)
    }

    constructor ()
      ensures Contents() == EMPTY
    {
      actions, entries, signatures := [], [], [];
    }

    method Issue(c: IssueCall, ghost uniqueId: Identity -> string) returns (ok: bool)
      modifies this
      ensures Contents() == After(old(Contents()), DoIssue(c), uniqueId)
      ensures ok <==> IssueAccepted(c)
      ensures ok ==> c.raw.Ok? && actions == old(actions) + [TypedAction(ISSUE, c.raw.value)]
      ensures ok ==> c.made.Ok? && entries == old(entries) + [Entry(|old(actions)| % TWO32, Some(c.made.value), None)]
      ensures !ok ==> actions == old(actions) && entries == old(entries)
      ensures signatures == old(signatures)
    {
      if !c.hasWallet || c.typ == "" || c.q == 0 || c.q > c.maxTokenValue || c.receiver == [] {
        return false;
      }
      if c.issuer.Err? || !c.options || c.made.Err? || c.raw.Err? {
        return false;
      }
      var actionId := |actions| % TWO32;
      actions := actions + [TypedAction(ISSUE, c.raw.value)];
      entries := entries + [Entry(actionId, Some(c.made.value), None)];
      return true;
    }

    method Upgrade(c: UpgradeCall, ghost uniqueId: Identity -> string) returns (ok: bool)
      modifies this
      ensures Contents() == After(old(Contents()), DoUpgrade(c), uniqueId)
      ensures ok <==> UpgradeAccepted(c)
      ensures ok ==> c.raw.Ok? && actions == old(actions) + [TypedAction(ISSUE, c.raw.value)]
      ensures ok ==> c.made.Ok? && entries == old(entries) + [Entry(|old(actions)| % TWO32, Some(c.made.value), None)]
      ensures !ok ==> actions == old(actions) && entries == old(entries)
      ensures signatures == old(signatures)
    {
      if !c.hasWallet || c.tokens == 0 || !c.options || c.made.Err? || c.raw.Err? {
        return false;
      }
      var actionId := |actions| % TWO32;
      actions := actions + [TypedAction(ISSUE, c.raw.value)];
      entries := entries + [Entry(actionId, Some(c.made.value), None)];
      return true;
    }

    method Transfer(c: TransferCall, ghost uniqueId: Identity -> string) returns (ok: bool)
      modifies this
      ensures Contents() == After(old(Contents()), DoTransfer(c), uniqueId)
      ensures ok <==> TransferAccepted(c, false)
      ensures 0 in c.values ==> !ok
      ensures ok ==> c.raw.Ok? && actions == old(actions) + [TypedAction(TRANSFER, c.raw.value)]
      ensures ok ==> c.made.Ok? && entries == old(entries) + [Entry(|old(actions)| % TWO32, None, Some(c.made.value))]
      ensures !ok ==> actions == old(actions) && entries == old(entries)
      ensures signatures == old(signatures)
    {
      if 0 in c.values || !c.options || !c.prepared || c.made.Err? {
        return false;
      }
      if c.debug && !c.verified {
        return false;
      }
      if c.raw.Err? {
        return false;
      }
      var actionId := |actions| % TWO32;
      actions := actions + [TypedAction(TRANSFER, c.raw.value)];
      entries := entries + [Entry(actionId, None, Some(c.made.value))];
      return true;
    }

    method Redeem(c: TransferCall, ghost uniqueId: Identity -> string) returns (ok: bool)
      modifies this
      ensures Contents() == After(old(Contents()), DoRedeem(c), uniqueId)
      ensures ok <==> TransferAccepted(c, true)
      ensures ok ==> c.raw.Ok? && actions == old(actions) + [TypedAction(TRANSFER, c.raw.value)]
      ensures ok ==> c.made.Ok? && entries == old(entries) + [Entry(|old(actions)| % TWO32, None, Some(c.made.value))]
      ensures !ok ==> actions == old(actions) && entries == old(entries)
      ensures signatures == old(signatures)
    {
      if !c.options || !c.prepared || c.made.Err? {
        return false;
      }
      if c.debug && !c.verified {
        return false;
      }
      if c.raw.Err? {
        return false;
      }
      var actionId := |actions| % TWO32;
      actions := actions + [TypedAction(TRANSFER, c.raw.value)];
      entries := entries + [Entry(actionId, None, Some(c.made.value))];
      return true;
    }

    method AddAuditorSignature(identity: Identity, sigma: Bytes, ghost uniqueId: Identity -> string)
      modifies this
      ensures Contents() == After(old(Contents()), DoAddAuditorSignature(identity, sigma), uniqueId)
      ensures actions == old(actions) && entries == old(entries)
      ensures signatures == old(signatures) + [RequestSignature(None, Some(AuditorSignature(identity, sigma)))]
    {
      signatures := signatures + [RequestSignature(None, Some(AuditorSignature(identity, sigma)))];
    }

    /** The result says whether everyone who must sign has a signature. */
    method AppendSignatures(sigmas: map<string, Bytes>, uniqueId: Identity -> string) returns (all: bool)
      requires ListableAll(entries)
      modifies this
      ensures Contents() == After(old(Contents()), DoAppendSignatures(sigmas), uniqueId)
      ensures all <==> forall i, identity :: 0 <= i < |entries| && MustSign(entries[i], identity) ==>
                         uniqueId(identity) in sigmas
      ensures var required := RequiredSigners(entries);
              && |signatures| == |old(signatures)| + |required| && old(signatures) <= signatures
              && forall k :: 0 <= k < |required| ==>
                   Attaches(signatures[|old(signatures)| + k], required[k], sigmas, uniqueId)
    {
      var issueSigners := IssueSignersWithActions(entries);
      var transferSigners := TransferSignersWithActions(entries);
      var collected;
      collected, all := CollectSignatures(issueSigners + transferSigners, sigmas, uniqueId);
      AllSigned(entries, sigmas, uniqueId);
      signatures := signatures + collected;
    }
  }

  /** The loop of `AppendSignatures`. */
  method CollectSignatures(signers: seq<Signer>, sigmas: map<string, Bytes>, uniqueId: Identity -> string)
    returns (collected: seq<RequestSignature>, all: bool)
    ensures collected == SignaturesFor(signers, sigmas, uniqueId)
    ensures |collected| == |signers|
            && forall k :: 0 <= k < |signers| ==> Attaches(collected[k], signers[k], sigmas, uniqueId)
    ensures all <==> forall k :: 0 <= k < |signers| ==> uniqueId(signers[k].identity) in sigmas
  {
    collected, all := [], true;
    for i := 0 to |signers|
      invariant collected == SignaturesFor(signers, sigmas, uniqueId)[..i]
      invariant all <==> forall j :: 0 <= j < i ==> uniqueId(signers[j].identity) in sigmas
    {
      var signature := ActionSignature(signers[i].actionId, []);
      var id := uniqueId(signers[i].identity);
      if id in sigmas {
        signature := signature.(signature := sigmas[id]);
      } else {
        all := false;
      }
      collected := collected + [RequestSignature(Some(signature), None)];
    }
  }

  // ---------------------------------------------------------------------------------------
  // Runs

  /** What every call keeps: the metadata describes the actions, and signatures are of one kind. */
  ghost predicate Sound(s: State) {
    && Corresponds(s.actions, s.entries)
    && forall i :: 0 <= i < |s.signatures| ==> OneKind(s.signatures[i])
  }

  lemma {:induction false} WithActionSound(s: State, kind: int, raw: Bytes, entry: Entry)
    requires Sound(s) && Describes(entry, TypedAction(kind, raw), |s.actions|)
    ensures Sound(s.(actions := s.actions + [TypedAction(kind, raw)], entries := s.entries + [entry]))
  {
  }

  lemma {:induction false} WithSignaturesSound(s: State, more: seq<RequestSignature>)
    requires Sound(s) && forall i :: 0 <= i < |more| ==> OneKind(more[i])
    ensures Sound(s.(signatures := s.signatures + more))
  {
  }

  /** Every call keeps a request sound, whether it succeeds or fails. */
  lemma {:induction false} AfterSound(s: State, step: Step, uniqueId: Identity -> string)
    requires Sound(s)
    ensures Sound(After(s, step, uniqueId))
  {
    var n := |s.actions| % TWO32;
    match step
    case DoIssue(c) =>
      if IssueAccepted(c) {
        WithActionSound(s, ISSUE, c.raw.value, Entry(n, Some(c.made.value), None));
      }
    case DoUpgrade(c) =>
      if UpgradeAccepted(c) {
        WithActionSound(s, ISSUE, c.raw.value, Entry(n, Some(c.made.value), None));
      }
    case DoTransfer(c) =>
      if TransferAccepted(c, false) {
        WithActionSound(s, TRANSFER, c.raw.value, Entry(n, None, Some(c.made.value)));
      }
    case DoRedeem(c) =>
      if TransferAccepted(c, true) {
        WithActionSound(s, TRANSFER, c.raw.value, Entry(n, None, Some(c.made.value)));
      }
    case DoAddAuditorSignature(identity, sigma) =>
      WithSignaturesSound(s, [RequestSignature(None, Some(AuditorSignature(identity, sigma)))]);
    case DoAppendSignatures(sigmas) =>
      if ListableAll(s.entries) {
        WithSignaturesSound(s, SignaturesFor(RequiredSigners(s.entries), sigmas, uniqueId));
      }
  }

  /** The contents after any sequence of calls on an empty request, whatever they return. */
  function Run(steps: seq<Step>, uniqueId: Identity -> string): (s: State)
    ensures Sound(s)
  {
    if steps == [] then EMPTY
    else
      var n := |steps| - 1;
      var before := Run(steps[..n], uniqueId);
      AfterSound(before, steps[n], uniqueId);
      After(before, steps[n], uniqueId)
  }

  function Pointers<T>(s: seq<T>): seq<Option<T>> {
    seq(|s|, i requires 0 <= i < |s| => Some(s[i]))
  }

  /** Whatever the calls and their outcomes, the auditor finds the structure of the request valid. */
  method ValidateRun(steps: seq<Step>, uniqueId: Identity -> string) returns (ok: bool)
    ensures ok
  {
    var s := Run(steps, uniqueId);
    ok := ValidateStructure(Pointers(s.actions), Pointers(s.entries));
    assert Values(Pointers(s.actions)) == s.actions && Values(Pointers(s.entries)) == s.entries;
  }

  lemma {:induction false} AfterGrows(s: State, step: Step, uniqueId: Identity -> string)
    ensures s.actions <= After(s, step, uniqueId).actions
    ensures s.entries <= After(s, step, uniqueId).entries
    ensures s.signatures <= After(s, step, uniqueId).signatures
  {
  }

  /** Actions and signatures are only ever added at the end. */
  lemma {:induction false} RunGrows(steps: seq<Step>, more: seq<Step>, uniqueId: Identity -> string)
    ensures Run(steps, uniqueId).actions <= Run(steps + more, uniqueId).actions
    ensures Run(steps, uniqueId).entries <= Run(steps + more, uniqueId).entries
    ensures Run(steps, uniqueId).signatures <= Run(steps + more, uniqueId).signatures
  {
    if more == [] {
      assert steps + more == steps;
    } else {
      var n := |more| - 1;
      assert (steps + more)[..|steps + more| - 1] == steps + more[..n];
      RunGrows(steps, more[..n], uniqueId);
      AfterGrows(Run(steps + more[..n], uniqueId), more[n], uniqueId);
    }
  }

  /** The call adds an action to the request. */
  predicate Adds(step: Step) {
    match step
    case DoIssue(c) => IssueAccepted(c)
    case DoUpgrade(c) => UpgradeAccepted(c)
    case DoTransfer(c) => TransferAccepted(c, false)
    case DoRedeem(c) => TransferAccepted(c, true)
    case _ => false
  }

  /** The n-th action and its metadata are those the driver made for the call. */
  predicate Added(step: Step, n: nat, added: (TypedAction, Entry)) {
    var (action, entry) := added;
    && entry.actionId == n % TWO32
    && match step
       case DoIssue(c) => c.raw.Ok? && action == TypedAction(ISSUE, c.raw.value)
                          && c.made.Ok? && entry.issue == Some(c.made.value) && entry.transfer == None
       case DoUpgrade(c) => c.raw.Ok? && action == TypedAction(ISSUE, c.raw.value)
                            && c.made.Ok? && entry.issue == Some(c.made.value) && entry.transfer == None
       case DoTransfer(c) => c.raw.Ok? && action == TypedAction(TRANSFER, c.raw.value)
                             && c.made.Ok? && entry.transfer == Some(c.made.value) && entry.issue == None
       case DoRedeem(c) => c.raw.Ok? && action == TypedAction(TRANSFER, c.raw.value)
                           && c.made.Ok? && entry.transfer == Some(c.made.value) && entry.issue == None
       case _ => false
  }

  /** The actions with their metadata. */
  function Pairs(s: State): (pairs: seq<(TypedAction, Entry)>)
    requires |s.actions| == |s.entries|
  {
    seq(|s.actions|, i requires 0 <= i < |s.actions| => (s.actions[i], s.entries[i]))
  }

  lemma {:induction false} AfterAdds(s: State, step: Step, uniqueId: Identity -> string)
    requires |s.entries| == |s.actions|
    ensures |After(s, step, uniqueId).entries| == |After(s, step, uniqueId).actions|
    ensures !Adds(step) ==> Pairs(After(s, step, uniqueId)) == Pairs(s)
    ensures Adds(step) ==> exists added :: Added(step, |s.actions|, added)
                                           && Pairs(After(s, step, uniqueId)) == Pairs(s) + [added]
  {
    if Adds(step) {
      var s' := After(s, step, uniqueId);
      var added := (s'.actions[|s.actions|], s'.entries[|s.actions|]);
      assert Added(step, |s.actions|, added);
      assert Pairs(s') == Pairs(s) + [added];
    }
  }

  /** Every accepted call adds what its driver made, and nothing else adds anything. */
  lemma {:induction false} RunAdds(steps: seq<Step>, uniqueId: Identity -> string) returns (at: seq<nat>)
    ensures Yields(steps, Adds, at, Added, Pairs(Run(steps, uniqueId)))
  {
    at := [];
    if steps != [] {
      var n := |steps| - 1;
      at := RunAdds(steps[..n], uniqueId);
      var before := Run(steps[..n], uniqueId);
      AfterAdds(before, steps[n], uniqueId);
      if Adds(steps[n]) {
        var added :| Added(steps[n], |before.actions|, added) && Pairs(Run(steps, uniqueId)) == Pairs(before) + [added];
        YieldsNext(steps, Adds, at, Added, Pairs(before), added);
        at := at + [n];
      } else {
        YieldsNone(steps, Adds, at, Added, Pairs(before));
      }
    }
  }

  /**
   In a request that corresponds to its metadata, as every run leaves it, each required signature
   names the position of an action of the right kind that the signer must sign.
   */
  lemma {:induction false} IssueSignerNamesAction(s: State, signer: Signer)
    requires Corresponds(s.actions, s.entries) && ListableAll(s.entries)
    requires signer in IssueSignersFor(s.entries)
    ensures exists i :: 0 <= i < |s.actions| && signer.actionId == i % TWO32 && s.actions[i].kind == ISSUE
                        && SignsIssue(s.entries[i], signer.identity)
  {
    IssueSignersMeaning(s.entries, signer);
    var i :| 0 <= i < |s.entries| && s.entries[i].actionId == signer.actionId
             && SignsIssue(s.entries[i], signer.identity);
    assert Describes(s.entries[i], s.actions[i], i);
  }

  lemma {:induction false} TransferSignerNamesAction(s: State, signer: Signer)
    requires Corresponds(s.actions, s.entries) && ListableAll(s.entries)
    requires signer in TransferSignersFor(s.entries)
    ensures exists i :: 0 <= i < |s.actions| && signer.actionId == i % TWO32 && s.actions[i].kind == TRANSFER
                        && SignsTransfer(s.entries[i], signer.identity)
  {
    TransferSignersMeaning(s.entries, signer);
    var i :| 0 <= i < |s.entries| && s.entries[i].actionId == signer.actionId
             && SignsTransfer(s.entries[i], signer.identity);
    assert Describes(s.entries[i], s.actions[i], i);
  }
}
