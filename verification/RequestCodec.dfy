/**
 Encoding and decoding token requests, at the level of protobuf messages, and the message that
 signers sign (`ToProtos`, `FromProtos`, `Validate` and `marshalToMessageToSignV1` in
 token/driver/request.go).
 */
module RequestCodec {
  import opened Prelude
  import opened Der
  import opened Structure
  import opened Requests

  const PROTOCOL_V1 := 1
  const MAX_ANCHOR_SIZE := 128

  // ---------------------------------------------------------------------------------------
  // Messages

  /** An action is of the typed or of another variant. */
  datatype WireAction = TypedWire(kind: int, raw: Bytes) | OtherWire

  datatype WireSignature =
    | ActionWire(actionId: nat, signature: Option<Bytes>)
    | AuditorWire(identity: Option<Bytes>, signature: Option<Bytes>)
    | UnsetWire

  datatype WireRequest = WireRequest(version: nat, actions: seq<Option<WireAction>>,
                                     signatures: seq<Option<WireSignature>>)

  /** A token request as a value; slices may hold nil pointers. */
  datatype Contents = Contents(version: nat, actions: seq<Option<TypedAction>>,
                               signatures: seq<Option<RequestSignature>>)

  // ---------------------------------------------------------------------------------------
  // Encoding

  function EncodeSignature(s: RequestSignature): Result<WireSignature> {
    if s.action.Some? && s.auditor.Some? then Err
    else if s.action.Some? then Ok(ActionWire(s.action.value.actionId, Some(s.action.value.signature)))
    else if s.auditor.Some? then Ok(AuditorWire(Some(s.auditor.value.identity), Some(s.auditor.value.signature)))
    else Err
  }

  /** A nil signature stays nil; a nil action is refused. */
  ghost predicate Encodes(r: Contents, wire: WireRequest) {
    && wire.version == (if r.version == 0 then PROTOCOL_V1 else r.version)
    && |wire.actions| == |r.actions| && |wire.signatures| == |r.signatures|
    && (forall i :: 0 <= i < |r.actions| ==> EncodesAction(r.actions[i], wire.actions[i]))
    && (forall i :: 0 <= i < |r.signatures| ==> EncodesSignature(r.signatures[i], wire.signatures[i]))
  }

  ghost predicate EncodesAction(action: Option<TypedAction>, wire: Option<WireAction>) {
    action.Some? && wire == Some(TypedWire(action.value.kind, action.value.raw))
  }

  ghost predicate EncodesSignature(s: Option<RequestSignature>, wire: Option<WireSignature>) {
    if s.None? then wire == None
    else
      && wire.Some? && OneKind(s.value)
      && (s.value.action.Some? ==>
            wire.value == ActionWire(s.value.action.value.actionId, Some(s.value.action.value.signature)))
      && (s.value.auditor.Some? ==>
            wire.value == AuditorWire(Some(s.value.auditor.value.identity), Some(s.value.auditor.value.signature)))
  }

  predicate Sendable(r: Contents) {
    && NoNil(r.actions)
    && forall i :: 0 <= i < |r.signatures| ==> r.signatures[i].Some? ==> OneKind(r.signatures[i].value)
  }

  /** `ToProtos`. */
  method Encode(r: Contents) returns (result: Result<WireRequest>)
    ensures result.Ok? <==> Sendable(r)
    ensures result.Ok? ==> Encodes(r, result.value)
  {
    var actions: seq<Option<WireAction>> := [];
    for i := 0 to |r.actions|
      invariant |actions| == i
      invariant forall j :: 0 <= j < i ==> EncodesAction(r.actions[j], actions[j])
    {
      if r.actions[i].None? {
        return Err;
      }
      actions := actions + [Some(TypedWire(r.actions[i].value.kind, r.actions[i].value.raw))];
    }
    var signatures: seq<Option<WireSignature>> := [];
    for i := 0 to |r.signatures|
      invariant |signatures| == i
      invariant forall j :: 0 <= j < i ==> EncodesSignature(r.signatures[j], signatures[j])
    {
      if r.signatures[i].None? {
        signatures := signatures + [None];
      } else {
        var one := EncodeSignature(r.signatures[i].value);
        if one.Err? {
          return Err;
        }
        signatures := signatures + [Some(one.value)];
      }
    }
    var version := if r.version == 0 then PROTOCOL_V1 else r.version;
    return Ok(WireRequest(version, actions, signatures));
  }

  // ---------------------------------------------------------------------------------------
  // Decoding

  /** Only typed actions of a known kind are accepted. */
  function DecodeAction(wire: Option<WireAction>): Option<TypedAction> {
    if wire.Some? && wire.value.TypedWire? && (wire.value.kind == ISSUE || wire.value.kind == TRANSFER)
    then Some(TypedAction(wire.value.kind, wire.value.raw))
    else None
  }

  function OrEmpty(raw: Option<Bytes>): Bytes {
    if raw.Some? then raw.value else []
  }

  /** Only set signatures with bytes are accepted. */
  function DecodeSignature(wire: Option<WireSignature>): Option<RequestSignature> {
    if wire.None? then None
    else
      match wire.value
      case ActionWire(actionId, signature) =>
        if OrEmpty(signature) == [] then None
        else Some(RequestSignature(Some(ActionSignature(actionId, OrEmpty(signature))), None))
      case AuditorWire(identity, signature) =>
        if OrEmpty(signature) == [] then None
        else Some(RequestSignature(None, Some(AuditorSignature(OrEmpty(identity), OrEmpty(signature)))))
      case UnsetWire => None
  }

  /** What is decoded before the first element that is refused. */
  function DecodedActions(wires: seq<Option<WireAction>>): seq<Option<TypedAction>> {
    if wires == [] || DecodeAction(wires[0]).None? then [] else [DecodeAction(wires[0])] + DecodedActions(wires[1..])
  }

  function DecodedSignatures(wires: seq<Option<WireSignature>>): seq<Option<RequestSignature>> {
    if wires == [] || DecodeSignature(wires[0]).None? then []
    else [DecodeSignature(wires[0])] + DecodedSignatures(wires[1..])
  }

  predicate ValidAction(action: Option<TypedAction>) {
    action.Some? && action.value.raw != []
  }

  predicate ValidSignature(s: Option<RequestSignature>) {
    && s.Some?
    && (s.value.action.Some? ==> s.value.action.value.signature != [])
    && (s.value.action.None? ==> s.value.auditor.Some? && s.value.auditor.value.signature != [])
  }

  predicate Valid(actions: seq<Option<TypedAction>>, signatures: seq<Option<RequestSignature>>) {
    && (forall i :: 0 <= i < |actions| ==> ValidAction(actions[i]))
    && (forall i :: 0 <= i < |signatures| ==> ValidSignature(signatures[i]))
  }

  /**
   A destination after decoding into it: the actions are replaced, the signatures are added to
   those already there, and decoding stops at the first element that is refused.
   */
  function Received(d: Contents, wire: WireRequest): Contents {
    if wire.version != PROTOCOL_V1 then d
    else
      var actions := DecodedActions(wire.actions);
      Contents(PROTOCOL_V1, actions,
               if |actions| == |wire.actions| then d.signatures + DecodedSignatures(wire.signatures) else d.signatures)
  }

  predicate Accepts(d: Contents, wire: WireRequest) {
    && wire.version == PROTOCOL_V1
    && |DecodedActions(wire.actions)| == |wire.actions|
    && |DecodedSignatures(wire.signatures)| == |wire.signatures|
    && Valid(Received(d, wire).actions, Received(d, wire).signatures)
  }

  /** The loop over the actions, which stops at the first refused one. */
  method DecodeActions(wires: seq<Option<WireAction>>) returns (actions: seq<Option<TypedAction>>, ok: bool)
    ensures actions == DecodedActions(wires)
    ensures ok <==> |actions| == |wires|
  {
    actions := [];
    assert wires[0..] == wires;
    for i := 0 to |wires|
      invariant |actions| == i && actions + DecodedActions(wires[i..]) == DecodedActions(wires)
    {
      assert wires[i..][1..] == wires[i + 1..];
      var one := DecodeAction(wires[i]);
      if one.None? {
        return actions, false;
      }
      actions := actions + [one];
    }
    return actions, true;
  }

  /** The loop over the signatures, which are added to those already there. */
  method DecodeSignatures(before: seq<Option<RequestSignature>>, wires: seq<Option<WireSignature>>)
    returns (signatures: seq<Option<RequestSignature>>, ok: bool)
    ensures signatures == before + DecodedSignatures(wires)
    ensures ok <==> |DecodedSignatures(wires)| == |wires|
  {
    var decoded: seq<Option<RequestSignature>> := [];
    assert wires[0..] == wires;
    for i := 0 to |wires|
      invariant |decoded| == i && decoded + DecodedSignatures(wires[i..]) == DecodedSignatures(wires)
    {
      assert wires[i..][1..] == wires[i + 1..];
      var one := DecodeSignature(wires[i]);
      if one.None? {
        return before + decoded, false;
      }
      decoded := decoded + [one];
    }
    return before + decoded, true;
  }

  class TokenRequest {
    var version: nat
    var actions: seq<Option<TypedAction>>
    var signatures: seq<Option<RequestSignature>>

    constructor ()
      ensures version == 0 && actions == [] && signatures == []
    {
      version, actions, signatures := 0, [], [];
    }

    /** `Validate`. */
    method Validate() returns (ok: bool)
      ensures ok <==> Valid(actions, signatures)
    {
      for i := 0 to |actions|
        invariant forall j :: 0 <= j < i ==> ValidAction(actions[j])
      {
        if actions[i].None? {
          return false;
        }
        if actions[i].value.raw == [] {
          return false;
        }
      }
      for i := 0 to |signatures|
        invariant forall j :: 0 <= j < i ==> ValidSignature(signatures[j])
      {
        if signatures[i].None? {
          return false;
        }
        if signatures[i].value.action.Some? {
          if signatures[i].value.action.value.signature == [] {
            return false;
          }
        } else if signatures[i].value.auditor.Some? {
          if signatures[i].value.auditor.value.signature == [] {
            return false;
          }
        } else {
          return false;
        }
      }
      return true;
    }

    function Now(): Contents
      reads this
    {
      Contents(version, actions, signatures)
    }

    /** `FromProtos`. */
    method FromProtos(wire: WireRequest) returns (ok: bool)
      modifies this
      ensures Now() == Received(old(Now()), wire)
      ensures ok <==> Accepts(old(Now()), wire)
    {
      if wire.version != PROTOCOL_V1 {
        return false;
      }
      version := wire.version;
      actions, ok := DecodeActions(wire.actions);
      if !ok {
        return;
      }
      signatures, ok := DecodeSignatures(signatures, wire.signatures);
      if !ok {
        return;
      }
      ok := Validate();
    }
  }

  // ---------------------------------------------------------------------------------------
  // Round trip

  const FRESH := Contents(0, [], [])

  predicate WellFormedAction(action: Option<TypedAction>) {
    action.Some? && (action.value.kind == ISSUE || action.value.kind == TRANSFER) && action.value.raw != []
  }

  predicate WellFormedSignature(s: Option<RequestSignature>) {
    && s.Some? && OneKind(s.value)
    && (s.value.action.Some? ==> s.value.action.value.signature != [])
    && (s.value.auditor.Some? ==> s.value.auditor.value.signature != [])
  }

  /** A supported version, known non-empty actions, and signatures of one kind with bytes. */
  predicate WellFormed(r: Contents) {
    && (r.version == 0 || r.version == PROTOCOL_V1)
    && (forall i :: 0 <= i < |r.actions| ==> WellFormedAction(r.actions[i]))
    && (forall i :: 0 <= i < |r.signatures| ==> WellFormedSignature(r.signatures[i]))
  }

  lemma {:induction false} DecodedActionsAll(wires: seq<Option<WireAction>>)
    ensures |DecodedActions(wires)| <= |wires|
    ensures |DecodedActions(wires)| == |wires| <==> forall i :: 0 <= i < |wires| ==> DecodeAction(wires[i]).Some?
    ensures forall i :: 0 <= i < |DecodedActions(wires)| ==> DecodedActions(wires)[i] == DecodeAction(wires[i])
  {
    if wires != [] && DecodeAction(wires[0]).Some? {
      DecodedActionsAll(wires[1..]);
      assert forall i :: 0 < i < |wires| ==> wires[i] == wires[1..][i - 1];
    }
  }

  lemma {:induction false} DecodedSignaturesAll(wires: seq<Option<WireSignature>>)
    ensures |DecodedSignatures(wires)| <= |wires|
    ensures |DecodedSignatures(wires)| == |wires| <==> forall i :: 0 <= i < |wires| ==> DecodeSignature(wires[i]).Some?
    ensures forall i :: 0 <= i < |DecodedSignatures(wires)| ==> DecodedSignatures(wires)[i] == DecodeSignature(wires[i])
  {
    if wires != [] && DecodeSignature(wires[0]).Some? {
      DecodedSignaturesAll(wires[1..]);
      assert forall i :: 0 < i < |wires| ==> wires[i] == wires[1..][i - 1];
    }
  }

  lemma {:induction false} ActionRoundTrip(action: Option<TypedAction>, wire: Option<WireAction>)
    requires EncodesAction(action, wire)
    ensures DecodeAction(wire).Some? && ValidAction(DecodeAction(wire)) <==> WellFormedAction(action)
    ensures DecodeAction(wire).Some? ==> DecodeAction(wire) == action
  {
  }

  lemma {:induction false} SignatureRoundTrip(s: Option<RequestSignature>, wire: Option<WireSignature>)
    requires EncodesSignature(s, wire)
    ensures DecodeSignature(wire).Some? <==> WellFormedSignature(s)
    ensures DecodeSignature(wire).Some? ==> DecodeSignature(wire) == s && ValidSignature(s)
  {
  }

  lemma {:induction false} ActionsRoundTripped(r: Contents, wire: WireRequest)
    requires Encodes(r, wire)
    ensures |DecodedActions(wire.actions)| == |wire.actions| ==> DecodedActions(wire.actions) == r.actions
    ensures (|DecodedActions(wire.actions)| == |wire.actions|
             && forall i :: 0 <= i < |r.actions| ==> ValidAction(DecodedActions(wire.actions)[i]))
            <==> forall i :: 0 <= i < |r.actions| ==> WellFormedAction(r.actions[i])
  {
    DecodedActionsAll(wire.actions);
    forall i | 0 <= i < |r.actions|
      ensures DecodeAction(wire.actions[i]).Some? && ValidAction(DecodeAction(wire.actions[i]))
              <==> WellFormedAction(r.actions[i])
      ensures DecodeAction(wire.actions[i]).Some? ==> DecodeAction(wire.actions[i]) == r.actions[i]
    {
      ActionRoundTrip(r.actions[i], wire.actions[i]);
    }
  }

  lemma {:induction false} SignaturesRoundTripped(r: Contents, wire: WireRequest)
    requires Encodes(r, wire)
    ensures |DecodedSignatures(wire.signatures)| == |wire.signatures|
            <==> forall i :: 0 <= i < |r.signatures| ==> WellFormedSignature(r.signatures[i])
    ensures |DecodedSignatures(wire.signatures)| == |wire.signatures| ==>
              && DecodedSignatures(wire.signatures) == r.signatures
              && forall i :: 0 <= i < |r.signatures| ==> ValidSignature(r.signatures[i])
  {
    DecodedSignaturesAll(wire.signatures);
    forall i | 0 <= i < |r.signatures|
      ensures DecodeSignature(wire.signatures[i]).Some? <==> WellFormedSignature(r.signatures[i])
      ensures DecodeSignature(wire.signatures[i]).Some? ==>
                DecodeSignature(wire.signatures[i]) == r.signatures[i] && ValidSignature(r.signatures[i])
    {
      SignatureRoundTrip(r.signatures[i], wire.signatures[i]);
    }
  }

  predicate ValidSignatures(signatures: seq<Option<RequestSignature>>) {
    forall i :: 0 <= i < |signatures| ==> ValidSignature(signatures[i])
  }

  /**
   Decoding an encoded request is accepted if and only if the request is well formed (and the
   signatures already in the destination are valid), and then it gives the request back with its
   version normalised, after the signatures already there.
   */
  lemma {:induction false} RoundTripInto(r: Contents, wire: WireRequest, d: Contents)
    requires Encodes(r, wire)
    ensures Accepts(d, wire) <==> WellFormed(r) && ValidSignatures(d.signatures)
    ensures Accepts(d, wire) ==> Received(d, wire) == Contents(PROTOCOL_V1, r.actions, d.signatures + r.signatures)
  {
    ActionsRoundTripped(r, wire);
    SignaturesRoundTripped(r, wire);
    var all := d.signatures + r.signatures;
    assert ValidSignatures(all) <==> ValidSignatures(d.signatures) && ValidSignatures(r.signatures) by {
      assert forall i :: 0 <= i < |d.signatures| ==> all[i] == d.signatures[i];
      assert forall i :: 0 <= i < |r.signatures| ==> all[|d.signatures| + i] == r.signatures[i];
    }
  }

  /** Into a fresh destination, the round trip is the identity up to the version. */
  lemma {:induction false} RoundTrip(r: Contents, wire: WireRequest)
    requires Encodes(r, wire)
    ensures Accepts(FRESH, wire) <==> WellFormed(r)
    ensures Accepts(FRESH, wire) ==> Received(FRESH, wire) == r.(version := PROTOCOL_V1)
  {
    RoundTripInto(r, wire, FRESH);
    assert [] + r.signatures == r.signatures;
  }

  // ---------------------------------------------------------------------------------------
  // The message to sign

  /** `marshalToMessageToSignV1`. */
  method MessageToSign(actions: seq<TypedAction>, anchor: Bytes) returns (result: Result<Bytes>)
    ensures result == Message(actions, anchor)
  {
    if |anchor| == 0 {
      return Err;
    }
    if |anchor| > MAX_ANCHOR_SIZE {
      return Err;
    }
    var request, _ := MarshalTokenRequest(actions);
    var message, _ := MarshalSignatureMessage(request, anchor);
    return Ok(message);
  }

  function Message(actions: seq<TypedAction>, anchor: Bytes): Result<Bytes> {
    if 0 < |anchor| <= MAX_ANCHOR_SIZE then Ok(MessageOctets(actions, anchor)) else Err
  }

  /** A decoded request has the same message as the request that was encoded. */
  lemma {:induction false} DecodingKeepsMessage(r: Contents, wire: WireRequest, d: Contents, anchor: Bytes)
    requires Encodes(r, wire) && Accepts(d, wire)
    ensures NoNil(r.actions) && NoNil(Received(d, wire).actions)
    ensures Message(Values(Received(d, wire).actions), anchor) == Message(Values(r.actions), anchor)
  {
    RoundTripInto(r, wire, d);
  }

  /** Two well-formed requests with the same message have the same actions, under the same anchor. */
  lemma {:induction false} SameMessageSameActions(r: Contents, r': Contents, anchor: Bytes, anchor': Bytes)
    requires WellFormed(r) && WellFormed(r') && NoNil(r.actions) && NoNil(r'.actions)
    requires Encodable(Values(r.actions), anchor) && Encodable(Values(r'.actions), anchor')
    requires Message(Values(r.actions), anchor).Ok?
    requires Message(Values(r.actions), anchor) == Message(Values(r'.actions), anchor')
    ensures r.actions == r'.actions && anchor == anchor'
  {
    var a, a' := Values(r.actions), Values(r'.actions);
    MessageCollisionFree(a, anchor, a', anchor');
    forall i | 0 <= i < |r.actions| ensures r.actions[i] == r'.actions[i] {
      assert a[i] == a'[i];
    }
  }

  /** What a request holds, as the codec sees it. */
  function Sent(s: State): Contents {
    Contents(0, Pointers(s.actions), Pointers(s.signatures))
  }

  /** The request left by any run can be encoded. */
  lemma {:induction false} RunSendable(steps: seq<Step>, uniqueId: Bytes -> string)
    ensures Sendable(Sent(Run(steps, uniqueId)))
  {
    SentWellFormed(Run(steps, uniqueId));
  }

  /** ... and what is encoded decodes to the request, if and only if no action and no signature in it is empty. */
  lemma {:induction false} RunRoundTrip(steps: seq<Step>, uniqueId: Bytes -> string, wire: WireRequest)
    requires Encodes(Sent(Run(steps, uniqueId)), wire)
    ensures Accepts(FRESH, wire) <==> NoneEmpty(Run(steps, uniqueId))
    ensures Accepts(FRESH, wire) ==> Received(FRESH, wire) == Sent(Run(steps, uniqueId)).(version := PROTOCOL_V1)
  {
    var s := Run(steps, uniqueId);
    RoundTrip(Sent(s), wire);
    SentWellFormed(s);
  }

  predicate NoneEmpty(s: State) {
    && (forall i :: 0 <= i < |s.actions| ==> s.actions[i].raw != [])
    && (forall i :: 0 <= i < |s.signatures| ==> SignatureBytes(s.signatures[i]) != [])
  }

  function SignatureBytes(s: RequestSignature): Bytes {
    if s.action.Some? then s.action.value.signature
    else if s.auditor.Some? then s.auditor.value.signature
    else []
  }

  lemma {:induction false} SentWellFormed(s: State)
    requires Corresponds(s.actions, s.entries)
    requires forall i :: 0 <= i < |s.signatures| ==> OneKind(s.signatures[i])
    ensures Sendable(Sent(s))
    ensures WellFormed(Sent(s)) <==> NoneEmpty(s)
  {
    var r := Sent(s);
    forall i | 0 <= i < |s.actions| ensures WellFormedAction(r.actions[i]) <==> s.actions[i].raw != [] {
      assert Describes(s.entries[i], s.actions[i], i);
    }
    forall i | 0 <= i < |s.signatures|
      ensures WellFormedSignature(r.signatures[i]) <==> SignatureBytes(s.signatures[i]) != []
    {
      assert OneKind(s.signatures[i]);
    }
  }

  /** Adding signatures, complete or not, leaves the message to sign as it is. */
  lemma {:induction false} SigningKeepsMessage(s: State, step: Step, uniqueId: Bytes -> string, anchor: Bytes)
    requires step.DoAppendSignatures? || step.DoAddAuditorSignature?
    ensures Message(After(s, step, uniqueId).actions, anchor) == Message(s.actions, anchor)
    ensures s.signatures <= After(s, step, uniqueId).signatures
  {
  }
}
