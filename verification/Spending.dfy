/**
 The inputs of a request (`extractIssueInputs`, `extractTransferInputs` and the inputs of
 `inputsAndOutputs` in token/request.go), with the quantities of an audit record, and how much of
 them a party spends.
 */
module Spending {
  import opened Prelude
  import opened Sequences
  import opened Quantities
  import opened Tokens
  import opened Metadata
  import opened Streams
  import Extraction
  import Audit

  /** The quantity of the stored token with an ID. */
  type Amounts = ID -> Quantity

  // ---------------------------------------------------------------------------------------
  // Extraction

  /** Inputs as they are before filtering: there, with an ID, and with no missing sender. */
  predicate Identified(input: Option<TransferInput>) {
    input.Some? && input.value.tokenId.Some? && NoNilReceiver(input.value.senders)
  }

  predicate IdentifiedTransfer(metadata: TransferMetadata) {
    forall j :: 0 <= j < |metadata.inputs| ==> Identified(metadata.inputs[j])
  }

  predicate IdentifiedIssue(metadata: IssueMetadata) {
    forall j :: 0 <= j < |metadata.inputs| ==> metadata.inputs[j].Some? && metadata.inputs[j].value.Some?
  }

  /** The record of one sender of an input. */
  function SenderInput(wallet: Wallet, amounts: Amounts, i: nat, j: nat, id: ID, sender: AuditableIdentity)
    : Result<seq<Input>>
  {
    match wallet.eidAndRh(sender.identity, sender.auditInfo)
    case Err => Err
    case Ok((eID, _)) =>
      Ok([Input(Extraction.Transfer, i, j, Some(id), sender.identity, eID, amounts(id), true)])
  }

  function SenderInputs(wallet: Wallet, amounts: Amounts, i: nat, j: nat, input: TransferInput): seq<Result<seq<Input>>>
    requires Identified(Some(input))
  {
    seq(|input.senders|, k requires 0 <= k < |input.senders| =>
      SenderInput(wallet, amounts, i, j, input.tokenId.value, input.senders[k].value))
  }

  /** An input without senders is absent. */
  function InputAt(wallet: Wallet, amounts: Amounts, i: nat, j: nat, input: Option<TransferInput>, failOnMissing: bool)
    : Result<seq<Input>>
    requires Identified(input)
  {
    if input.value.senders == [] then if failOnMissing then Err else Ok([])
    else Collect(SenderInputs(wallet, amounts, i, j, input.value))
  }

  function TransferItems(wallet: Wallet, amounts: Amounts, i: nat, metadata: TransferMetadata, failOnMissing: bool)
    : seq<Result<seq<Input>>>
    requires IdentifiedTransfer(metadata)
  {
    seq(|metadata.inputs|, j requires 0 <= j < |metadata.inputs| =>
      InputAt(wallet, amounts, i, j, metadata.inputs[j], failOnMissing))
  }

  /** An issue input has no owner. */
  function IssueItems(amounts: Amounts, i: nat, metadata: IssueMetadata): seq<Result<seq<Input>>>
    requires IdentifiedIssue(metadata)
  {
    seq(|metadata.inputs|, j requires 0 <= j < |metadata.inputs| =>
      var id := metadata.inputs[j].value.value;
      Ok([Input(Extraction.Issue, i, j, Some(id), [], "", amounts(id), true)]))
  }

  predicate IdentifiedAll(issues: seq<IssueMetadata>, transfers: seq<TransferMetadata>) {
    && (forall i :: 0 <= i < |issues| ==> IdentifiedIssue(issues[i]))
    && (forall i :: 0 <= i < |transfers| ==> IdentifiedTransfer(transfers[i]))
  }

  function IssueLists(amounts: Amounts, issues: seq<IssueMetadata>): seq<Result<seq<Input>>>
    requires forall i :: 0 <= i < |issues| ==> IdentifiedIssue(issues[i])
  {
    seq(|issues|, i requires 0 <= i < |issues| => Collect(IssueItems(amounts, i, issues[i])))
  }

  /** A transfer without inputs counts as filtered. */
  function TransferList(wallet: Wallet, amounts: Amounts, i: nat, metadata: TransferMetadata, failOnMissing: bool)
    : Result<seq<Input>>
    requires IdentifiedTransfer(metadata)
  {
    if metadata.inputs == [] && failOnMissing then Err
    else Collect(TransferItems(wallet, amounts, i, metadata, failOnMissing))
  }

  function TransferLists(wallet: Wallet, amounts: Amounts, transfers: seq<TransferMetadata>, failOnMissing: bool)
    : seq<Result<seq<Input>>>
    requires forall i :: 0 <= i < |transfers| ==> IdentifiedTransfer(transfers[i])
  {
    seq(|transfers|, i requires 0 <= i < |transfers| =>
      TransferList(wallet, amounts, i, transfers[i], failOnMissing))
  }

  /** Issues first, then transfers. */
  function Inputs(wallet: Wallet, amounts: Amounts, issues: seq<IssueMetadata>, transfers: seq<TransferMetadata>,
                  failOnMissing: bool)
    : Result<seq<Input>>
    requires IdentifiedAll(issues, transfers)
  {
    Collect(IssueLists(amounts, issues) + TransferLists(wallet, amounts, transfers, failOnMissing))
  }

  // ---------------------------------------------------------------------------------------
  // What the records say

  /** The record of the k-th sender of the j-th input of the i-th transfer. */
  predicate SenderRecord(wallet: Wallet, amounts: Amounts, transfers: seq<TransferMetadata>, i: nat, j: nat, k: nat,
                         o: Input)
    requires i < |transfers| && j < |transfers[i].inputs| && Identified(transfers[i].inputs[j])
    requires k < |transfers[i].inputs[j].value.senders|
  {
    var input := transfers[i].inputs[j].value;
    var sender := input.senders[k].value;
    && o.kind == Extraction.Transfer && o.actionIndex == i && o.index == j && o.positioned
    && o.id == input.tokenId && o.quantity == amounts(input.tokenId.value) && o.owner == sender.identity
    && wallet.eidAndRh(sender.identity, sender.auditInfo).Ok?
    && wallet.eidAndRh(sender.identity, sender.auditInfo).value.0 == o.enrollmentId
  }

  /** The record of the j-th input of the i-th issue. */
  predicate IssueRecord(amounts: Amounts, issues: seq<IssueMetadata>, i: nat, j: nat, o: Input)
    requires i < |issues| && IdentifiedIssue(issues[i]) && j < |issues[i].inputs|
  {
    var id := issues[i].inputs[j].value.value;
    && o.kind == Extraction.Issue && o.actionIndex == i && o.index == j && o.positioned
    && o.id == Some(id) && o.quantity == amounts(id) && o.owner == [] && o.enrollmentId == ""
  }

  /** An input has one record per sender, if the enrollment IDs of all of them can be derived. */
  lemma {:induction false} SendersMeaning(wallet: Wallet, amounts: Amounts, transfers: seq<TransferMetadata>, i: nat,
                                          j: nat, failOnMissing: bool)
    requires i < |transfers| && j < |transfers[i].inputs| && Identified(transfers[i].inputs[j])
    ensures var senders := transfers[i].inputs[j].value.senders;
            var result := InputAt(wallet, amounts, i, j, transfers[i].inputs[j], failOnMissing);
            && (result.Ok? <==>
                  && (failOnMissing ==> senders != [])
                  && forall k :: 0 <= k < |senders| ==>
                       wallet.eidAndRh(senders[k].value.identity, senders[k].value.auditInfo).Ok?)
            && (result.Ok? ==>
                  && |result.value| == |senders|
                  && forall k :: 0 <= k < |senders| ==>
                       SenderRecord(wallet, amounts, transfers, i, j, k, result.value[k]))
  {
    var input := transfers[i].inputs[j].value;
    if input.senders != [] {
      var items := SenderInputs(wallet, amounts, i, j, input);
      CollectOk(items);
      forall k | 0 <= k < |items|
        ensures items[k].Ok? <==>
                wallet.eidAndRh(input.senders[k].value.identity, input.senders[k].value.auditInfo).Ok?
      {
      }
      if Collect(items).Ok? {
        CollectSingletons(items);
      }
    }
  }

  lemma {:induction false} IssueInputOrigin(amounts: Amounts, issues: seq<IssueMetadata>, i: nat, o: Input)
    returns (j: nat)
    requires i < |issues| && IdentifiedIssue(issues[i])
    requires Collect(IssueItems(amounts, i, issues[i])).Ok? && o in Collect(IssueItems(amounts, i, issues[i])).value
    ensures j < |issues[i].inputs| && IssueRecord(amounts, issues, i, j, o)
  {
    j := CollectMember(IssueItems(amounts, i, issues[i]), o);
  }

  lemma {:induction false} TransferInputOrigin(wallet: Wallet, amounts: Amounts, transfers: seq<TransferMetadata>,
                                               i: nat, failOnMissing: bool, o: Input)
    returns (j: nat, k: nat)
    requires i < |transfers| && IdentifiedTransfer(transfers[i])
    requires TransferList(wallet, amounts, i, transfers[i], failOnMissing).Ok?
    requires o in TransferList(wallet, amounts, i, transfers[i], failOnMissing).value
    ensures j < |transfers[i].inputs| && k < |transfers[i].inputs[j].value.senders|
    ensures SenderRecord(wallet, amounts, transfers, i, j, k, o)
  {
    j := CollectMember(TransferItems(wallet, amounts, i, transfers[i], failOnMissing), o);
    SendersMeaning(wallet, amounts, transfers, i, j, failOnMissing);
    var records := InputAt(wallet, amounts, i, j, transfers[i].inputs[j], failOnMissing).value;
    k :| k < |records| && records[k] == o;
  }

  /** Every record of a request is that of a sender of a transfer input or of an issue input. */
  lemma {:induction false} InputOrigin(wallet: Wallet, amounts: Amounts, issues: seq<IssueMetadata>,
                                       transfers: seq<TransferMetadata>, failOnMissing: bool, o: Input)
    returns (i: nat, j: nat, k: nat)
    requires IdentifiedAll(issues, transfers)
    requires Inputs(wallet, amounts, issues, transfers, failOnMissing).Ok?
    requires o in Inputs(wallet, amounts, issues, transfers, failOnMissing).value
    ensures if o.kind.Issue? then i < |issues| && j < |issues[i].inputs| && IssueRecord(amounts, issues, i, j, o)
            else && i < |transfers| && j < |transfers[i].inputs| && k < |transfers[i].inputs[j].value.senders|
                 && SenderRecord(wallet, amounts, transfers, i, j, k, o)
  {
    var lists := IssueLists(amounts, issues) + TransferLists(wallet, amounts, transfers, failOnMissing);
    i := CollectMember(lists, o);
    j, k := 0, 0;
    if i < |issues| {
      assert lists[i] == Collect(IssueItems(amounts, i, issues[i]));
      j := IssueInputOrigin(amounts, issues, i, o);
    } else {
      i := i - |issues|;
      assert lists[|issues| + i] == TransferList(wallet, amounts, i, transfers[i], failOnMissing);
      j, k := TransferInputOrigin(wallet, amounts, transfers, i, failOnMissing, o);
    }
  }

  // ---------------------------------------------------------------------------------------
  // The loops of the source

  method ExtractSenders(wallet: Wallet, amounts: Amounts, i: nat, j: nat, input: TransferInput)
    returns (result: Result<seq<Input>>)
    requires Identified(Some(input))
    ensures result == Collect(SenderInputs(wallet, amounts, i, j, input))
  {
    ghost var items := SenderInputs(wallet, amounts, i, j, input);
    var inputs: seq<Input> := [];
    for k := 0 to |input.senders|
      invariant Collect(items[..k]) == Ok(inputs)
    {
      var one := SenderInput(wallet, amounts, i, j, input.tokenId.value, input.senders[k].value);
      CollectNext(items, k);
      if one.Err? {
        CollectErr(items, k);
        return Err;
      }
      inputs := inputs + one.value;
    }
    assert items[..|items|] == items;
    return Ok(inputs);
  }

  /** `extractTransferInputs`. */
  method ExtractTransferInputs(wallet: Wallet, amounts: Amounts, i: nat, metadata: TransferMetadata,
                               failOnMissing: bool)
    returns (result: Result<seq<Input>>)
    requires IdentifiedTransfer(metadata)
    ensures result == Collect(TransferItems(wallet, amounts, i, metadata, failOnMissing))
  {
    ghost var items := TransferItems(wallet, amounts, i, metadata, failOnMissing);
    var inputs: seq<Input> := [];
    for j := 0 to |metadata.inputs|
      invariant Collect(items[..j]) == Ok(inputs)
    {
      CollectNext(items, j);
      var input := metadata.inputs[j].value;
      if |input.senders| == 0 {
        if failOnMissing {
          CollectErr(items, j);
          return Err;
        }
        assert inputs + [] == inputs;
        continue;
      }
      var senders := ExtractSenders(wallet, amounts, i, j, input);
      if senders.Err? {
        CollectErr(items, j);
        return Err;
      }
      inputs := inputs + senders.value;
    }
    assert items[..|items|] == items;
    return Ok(inputs);
  }

  /** `extractIssueInputs`. */
  method ExtractIssueInputs(amounts: Amounts, i: nat, metadata: IssueMetadata) returns (inputs: seq<Input>)
    requires IdentifiedIssue(metadata)
    ensures Collect(IssueItems(amounts, i, metadata)) == Ok(inputs)
  {
    ghost var items := IssueItems(amounts, i, metadata);
    inputs := [];
    for j := 0 to |metadata.inputs|
      invariant Collect(items[..j]) == Ok(inputs)
    {
      CollectNext(items, j);
      var id := metadata.inputs[j].value.value;
      inputs := inputs + [Input(Extraction.Issue, i, j, Some(id), [], "", amounts(id), true)];
    }
    assert items[..|items|] == items;
  }

  /** The inputs of `inputsAndOutputs`: those of the issues ... */
  method ExtractFromIssues(amounts: Amounts, issues: seq<IssueMetadata>) returns (inputs: seq<Input>)
    requires forall i :: 0 <= i < |issues| ==> IdentifiedIssue(issues[i])
    ensures Collect(IssueLists(amounts, issues)) == Ok(inputs)
  {
    ghost var items := IssueLists(amounts, issues);
    inputs := [];
    for i := 0 to |issues|
      invariant Collect(items[..i]) == Ok(inputs)
    {
      CollectNext(items, i);
      var extracted := ExtractIssueInputs(amounts, i, issues[i]);
      inputs := inputs + extracted;
    }
    assert items[..|items|] == items;
  }

  /** ... and those of the transfers. */
  method ExtractFromTransfers(wallet: Wallet, amounts: Amounts, transfers: seq<TransferMetadata>, failOnMissing: bool)
    returns (result: Result<seq<Input>>)
    requires forall i :: 0 <= i < |transfers| ==> IdentifiedTransfer(transfers[i])
    ensures result == Collect(TransferLists(wallet, amounts, transfers, failOnMissing))
  {
    ghost var items := TransferLists(wallet, amounts, transfers, failOnMissing);
    var inputs: seq<Input> := [];
    for i := 0 to |transfers|
      invariant Collect(items[..i]) == Ok(inputs)
    {
      CollectNext(items, i);
      if |transfers[i].inputs| == 0 && failOnMissing {
        CollectErr(items, i);
        return Err;
      }
      var extracted := ExtractTransferInputs(wallet, amounts, i, transfers[i], failOnMissing);
      if extracted.Err? {
        CollectErr(items, i);
        return Err;
      }
      inputs := inputs + extracted.value;
    }
    assert items[..|items|] == items;
    return Ok(inputs);
  }

  method ExtractInputs(wallet: Wallet, amounts: Amounts, issues: seq<IssueMetadata>, transfers: seq<TransferMetadata>,
                       failOnMissing: bool)
    returns (result: Result<seq<Input>>)
    requires IdentifiedAll(issues, transfers)
    ensures result == Inputs(wallet, amounts, issues, transfers, failOnMissing)
  {
    CollectConcat(IssueLists(amounts, issues), TransferLists(wallet, amounts, transfers, failOnMissing));
    var fromIssues := ExtractFromIssues(amounts, issues);
    var fromTransfers := ExtractFromTransfers(wallet, amounts, transfers, failOnMissing);
    if fromTransfers.Err? {
      return Err;
    }
    return Ok(fromIssues + fromTransfers.value);
  }

  // ---------------------------------------------------------------------------------------
  // What a party spends

  function InputSum(inputs: seq<Input>): int {
    if inputs == [] then 0 else InputSum(inputs[..|inputs| - 1]) + inputs[|inputs| - 1].quantity.value
  }

  function OfParty(e: string): Input -> bool {
    (input: Input) => input.enrollmentId == e
  }

  /** `UniquePerInput().ByEnrollmentID(e).Sum()`. */
  function InputShare(inputs: seq<Input>, e: string): int {
    InputSum(Filter(FirstPerKey(inputs, KeyOfInput), OfParty(e)))
  }

  method InputShareOf(inputs: seq<Input>, e: string) returns (share: int)
    ensures share == InputShare(inputs, e)
  {
    var unique := UniquePerInput(inputs);
    var ofParty := FilterStream(unique, OfParty(e));
    share := 0;
    for i := 0 to |ofParty|
      invariant share == InputSum(ofParty[..i])
    {
      assert ofParty[..i + 1][..i] == ofParty[..i];
      share := share + ofParty[i].quantity.value;
    }
    assert ofParty[..|ofParty|] == ofParty;
  }

  lemma {:induction false} InputSumConcat(a: seq<Input>, b: seq<Input>)
    ensures InputSum(a + b) == InputSum(a) + InputSum(b)
  {
    if b == [] {
      assert a + b == a;
    } else {
      InputSumConcat(a, b[..|b| - 1]);
      assert (a + b)[..|a + b| - 1] == a + b[..|b| - 1];
    }
  }

  /** The records all carry an ID of the list. */
  ghost predicate Spends(inputs: seq<Input>, ids: seq<ID>) {
    forall k :: 0 <= k < |inputs| ==> inputs[k].id.Some? && inputs[k].id.value in ids
  }

  /** Records of different tokens do not interfere. */
  lemma {:induction false} InputShareConcat(a: seq<Input>, b: seq<Input>, ids: seq<ID>, ids': seq<ID>, e: string)
    requires Spends(a, ids) && Spends(b, ids') && Audit.Distinct(ids + ids')
    ensures InputShare(a + b, e) == InputShare(a, e) + InputShare(b, e)
  {
    forall k | 0 <= k < |b| ensures IsNew(a, KeyOfInput, b[k]) {
      DisjointIds(ids, ids', b[k].id.value);
    }
    FirstPerKeyConcat(a, b, KeyOfInput);
    FilterConcat(FirstPerKey(a, KeyOfInput), FirstPerKey(b, KeyOfInput), OfParty(e));
    InputSumConcat(Filter(FirstPerKey(a, KeyOfInput), OfParty(e)), Filter(FirstPerKey(b, KeyOfInput), OfParty(e)));
  }

  lemma {:induction false} DisjointIds(ids: seq<ID>, ids': seq<ID>, id: ID)
    requires Audit.Distinct(ids + ids') && id in ids'
    ensures id !in ids
  {
    var j :| 0 <= j < |ids'| && ids'[j] == id;
    assert (ids + ids')[|ids| + j] == id;
    forall i | 0 <= i < |ids| ensures ids[i] != id {
      assert (ids + ids')[i] == ids[i];
    }
  }

  predicate NamesParty(inputs: seq<Input>, e: string) {
    exists k :: 0 <= k < |inputs| && inputs[k].enrollmentId == e
  }

  /** The records of one token count its quantity once for each of its senders. */
  lemma {:induction false} InputShareOfGroup(inputs: seq<Input>, id: ID, q: Quantity, e: string)
    requires forall k :: 0 <= k < |inputs| ==> inputs[k].id == Some(id) && inputs[k].quantity == q
    ensures InputShare(inputs, e) == if NamesParty(inputs, e) then q.value else 0
  {
    if inputs != [] {
      var n := |inputs| - 1;
      var init, last := inputs[..n], inputs[n];
      InputShareOfGroup(init, id, q, e);
      assert inputs == init + [last];
      InputShareSnoc(init, last, e);
      assert Occurs(init, KeyOfInput, ById(id, last.enrollmentId)) <==> NamesParty(init, last.enrollmentId);
      assert NamesParty(inputs, e) <==> NamesParty(init, e) || last.enrollmentId == e;
    }
  }

  lemma {:induction false} InputShareSnoc(inputs: seq<Input>, last: Input, e: string)
    ensures InputShare(inputs + [last], e)
         == InputShare(inputs, e)
            + if IsNew(inputs, KeyOfInput, last) && last.enrollmentId == e then last.quantity.value else 0
  {
    var kept := FirstPerKey(inputs, KeyOfInput);
    FirstPerKeySnoc(inputs, KeyOfInput, last);
    assert (kept + [last])[..|kept|] == kept;
    var named := Filter(kept, OfParty(e));
    assert (named + [last])[..|named|] == named;
    assert named + [] == named;
    assert Filter(kept + [last], OfParty(e)) == named + if last.enrollmentId == e then [last] else [];
  }

  // ---------------------------------------------------------------------------------------
  // Spent token by spent token

  /** The quantity of a transfer input, if some sender has the enrollment ID. */
  function SpentBy(wallet: Wallet, amounts: Amounts, input: TransferInput, e: string): int
    requires Identified(Some(input))
  {
    if exists k :: 0 <= k < |input.senders| && HasSenderEid(wallet, input.senders[k].value, e)
    then amounts(input.tokenId.value).value else 0
  }

  predicate HasSenderEid(wallet: Wallet, sender: AuditableIdentity, e: string) {
    var eID := wallet.eidAndRh(sender.identity, sender.auditInfo);
    eID.Ok? && eID.value.0 == e
  }

  function TransferIdList(metadata: TransferMetadata): seq<ID>
    requires IdentifiedTransfer(metadata)
  {
    seq(|metadata.inputs|, j requires 0 <= j < |metadata.inputs| => metadata.inputs[j].value.tokenId.value)
  }

  function IssueIdList(metadata: IssueMetadata): seq<ID>
    requires IdentifiedIssue(metadata)
  {
    seq(|metadata.inputs|, j requires 0 <= j < |metadata.inputs| => metadata.inputs[j].value.value)
  }

  function TransferSpending(wallet: Wallet, amounts: Amounts, metadata: TransferMetadata, e: string): seq<int>
    requires IdentifiedTransfer(metadata)
  {
    seq(|metadata.inputs|, j requires 0 <= j < |metadata.inputs| =>
      SpentBy(wallet, amounts, metadata.inputs[j].value, e))
  }

  function IssueSpending(amounts: Amounts, metadata: IssueMetadata, e: string): seq<int>
    requires IdentifiedIssue(metadata)
  {
    seq(|metadata.inputs|, j requires 0 <= j < |metadata.inputs| =>
      if e == "" then amounts(metadata.inputs[j].value.value).value else 0)
  }

  /** The quantities of the tokens a party spends, action by action, each counted once. */
  function Spending(wallet: Wallet, amounts: Amounts, issues: seq<IssueMetadata>, transfers: seq<TransferMetadata>,
                    e: string)
    : seq<int>
    requires IdentifiedAll(issues, transfers)
  {
    seq(|issues|, i requires 0 <= i < |issues| => Plus(IssueSpending(amounts, issues[i], e)))
    + seq(|transfers|, i requires 0 <= i < |transfers| => Plus(TransferSpending(wallet, amounts, transfers[i], e)))
  }

  function IdLists(issues: seq<IssueMetadata>, transfers: seq<TransferMetadata>): seq<seq<ID>>
    requires IdentifiedAll(issues, transfers)
  {
    seq(|issues|, i requires 0 <= i < |issues| => IssueIdList(issues[i]))
    + seq(|transfers|, i requires 0 <= i < |transfers| => TransferIdList(transfers[i]))
  }

  function Flat(lists: seq<seq<ID>>): seq<ID> {
    if lists == [] then [] else Flat(lists[..|lists| - 1]) + lists[|lists| - 1]
  }

  /** The records, if there, spend only listed tokens and give a party its share. */
  ghost predicate SpentPart(item: Result<seq<Input>>, ids: seq<ID>, e: string, share: int) {
    item.Ok? ==> Spends(item.value, ids) && InputShare(item.value, e) == share
  }

  ghost predicate SpentParts(items: seq<Result<seq<Input>>>, lists: seq<seq<ID>>, e: string, shares: seq<int>) {
    && |lists| == |items| && |shares| == |items|
    && forall k :: 0 <= k < |items| ==> SpentPart(items[k], lists[k], e, shares[k])
  }

  lemma {:induction false} ShareOfSpentParts(items: seq<Result<seq<Input>>>, lists: seq<seq<ID>>, e: string,
                                             shares: seq<int>)
    requires SpentParts(items, lists, e, shares) && Audit.Distinct(Flat(lists))
    ensures SpentPart(Collect(items), Flat(lists), e, Plus(shares))
  {
    if items != [] && Collect(items).Ok? {
      var n := |items| - 1;
      Audit.DistinctPrefix(Flat(lists[..n]), Flat(lists));
      ShareOfSpentParts(items[..n], lists[..n], e, shares[..n]);
      assert SpentPart(items[n], lists[n], e, shares[n]);
      InputShareConcat(Collect(items[..n]).value, items[n].value, Flat(lists[..n]), lists[n], e);
    }
  }

  /** A list of IDs as singletons. */
  function Singles(ids: seq<ID>): seq<seq<ID>> {
    seq(|ids|, i requires 0 <= i < |ids| => [ids[i]])
  }

  lemma {:induction false} FlatSingles(ids: seq<ID>)
    ensures Flat(Singles(ids)) == ids
  {
    if ids != [] {
      var n := |ids| - 1;
      FlatSingles(ids[..n]);
      assert Singles(ids)[..n] == Singles(ids[..n]);
    }
  }

  lemma {:induction false} InputPart(wallet: Wallet, amounts: Amounts, i: nat, j: nat, input: Option<TransferInput>,
                                     failOnMissing: bool, e: string)
    requires Identified(input)
    ensures SpentPart(InputAt(wallet, amounts, i, j, input, failOnMissing), [input.value.tokenId.value], e,
                      SpentBy(wallet, amounts, input.value, e))
  {
    var item := InputAt(wallet, amounts, i, j, input, failOnMissing);
    if item.Ok? {
      var records := item.value;
      if input.value.senders != [] {
        var items := SenderInputs(wallet, amounts, i, j, input.value);
        CollectOk(items);
        CollectSingletons(items);
        forall k | 0 <= k < |records|
          ensures records[k].id == input.value.tokenId && records[k].quantity == amounts(input.value.tokenId.value)
          ensures forall f :: records[k].enrollmentId == f <==> HasSenderEid(wallet, input.value.senders[k].value, f)
        {
          assert items[k]
              == SenderInput(wallet, amounts, i, j, input.value.tokenId.value, input.value.senders[k].value);
        }
        assert NamesParty(records, e) <==>
               exists k :: 0 <= k < |input.value.senders| && HasSenderEid(wallet, input.value.senders[k].value, e);
      }
      InputShareOfGroup(records, input.value.tokenId.value, amounts(input.value.tokenId.value), e);
    }
  }

  lemma {:induction false} TransferPart(wallet: Wallet, amounts: Amounts, i: nat, metadata: TransferMetadata,
                                        failOnMissing: bool, e: string)
    requires IdentifiedTransfer(metadata) && Audit.Distinct(TransferIdList(metadata))
    ensures SpentPart(TransferList(wallet, amounts, i, metadata, failOnMissing), TransferIdList(metadata), e,
                      Plus(TransferSpending(wallet, amounts, metadata, e)))
  {
    var items := TransferItems(wallet, amounts, i, metadata, failOnMissing);
    var ids, shares := TransferIdList(metadata), TransferSpending(wallet, amounts, metadata, e);
    forall j | 0 <= j < |items| ensures SpentPart(items[j], Singles(ids)[j], e, shares[j]) {
      InputPart(wallet, amounts, i, j, metadata.inputs[j], failOnMissing, e);
    }
    FlatSingles(ids);
    ShareOfSpentParts(items, Singles(ids), e, shares);
  }

  lemma {:induction false} IssuePart(amounts: Amounts, i: nat, metadata: IssueMetadata, e: string)
    requires IdentifiedIssue(metadata) && Audit.Distinct(IssueIdList(metadata))
    ensures SpentPart(Collect(IssueItems(amounts, i, metadata)), IssueIdList(metadata), e,
                      Plus(IssueSpending(amounts, metadata, e)))
  {
    var items := IssueItems(amounts, i, metadata);
    var ids, shares := IssueIdList(metadata), IssueSpending(amounts, metadata, e);
    forall j | 0 <= j < |items| ensures SpentPart(items[j], Singles(ids)[j], e, shares[j]) {
      InputShareOfGroup(items[j].value, ids[j], amounts(ids[j]), e);
      assert items[j].value[0].enrollmentId == "";
    }
    FlatSingles(ids);
    ShareOfSpentParts(items, Singles(ids), e, shares);
  }

  lemma {:induction false} DistinctParts(lists: seq<seq<ID>>, k: nat)
    requires Audit.Distinct(Flat(lists)) && k < |lists|
    ensures Audit.Distinct(lists[k])
  {
    var n := |lists| - 1;
    if k < n {
      Audit.DistinctPrefix(Flat(lists[..n]), Flat(lists));
      DistinctParts(lists[..n], k);
    } else {
      var all, before := Flat(lists), Flat(lists[..n]);
      assert forall i :: 0 <= i < |lists[n]| ==> lists[n][i] == all[|before| + i];
    }
  }

  lemma {:induction false} AllSpentParts(wallet: Wallet, amounts: Amounts, issues: seq<IssueMetadata>,
                                         transfers: seq<TransferMetadata>, failOnMissing: bool, e: string)
    requires IdentifiedAll(issues, transfers) && Audit.Distinct(Flat(IdLists(issues, transfers)))
    ensures SpentParts(IssueLists(amounts, issues) + TransferLists(wallet, amounts, transfers, failOnMissing),
                       IdLists(issues, transfers), e, Spending(wallet, amounts, issues, transfers, e))
  {
    forall i | 0 <= i < |issues|
      ensures SpentPart(IssueLists(amounts, issues)[i], IssueIdList(issues[i]), e,
                        Plus(IssueSpending(amounts, issues[i], e)))
    {
      DistinctParts(IdLists(issues, transfers), i);
      IssuePart(amounts, i, issues[i], e);
    }
    forall i | 0 <= i < |transfers|
      ensures SpentPart(TransferLists(wallet, amounts, transfers, failOnMissing)[i], TransferIdList(transfers[i]), e,
                        Plus(TransferSpending(wallet, amounts, transfers[i], e)))
    {
      DistinctParts(IdLists(issues, transfers), |issues| + i);
      TransferPart(wallet, amounts, i, transfers[i], failOnMissing, e);
    }
  }

  // ---------------------------------------------------------------------------------------
  // The tokens that the auditor found to be spent once

  lemma {:induction false} PresentAll(ids: seq<Option<ID>>)
    requires forall i :: 0 <= i < |ids| ==> ids[i].Some?
    ensures |Audit.Present(ids)| == |ids|
    ensures forall i :: 0 <= i < |ids| ==> Audit.Present(ids)[i] == ids[i].value
  {
    if ids != [] {
      PresentAll(ids[..|ids| - 1]);
    }
  }

  lemma {:induction false} TransferIdsAll(inputs: seq<Option<TransferInput>>)
    requires forall i :: 0 <= i < |inputs| ==> Identified(inputs[i])
    ensures |Audit.TransferIds(inputs)| == |inputs|
    ensures forall i :: 0 <= i < |inputs| ==>
              Identified(inputs[i]) && Audit.TransferIds(inputs)[i] == inputs[i].value.tokenId
  {
    if inputs != [] {
      TransferIdsAll(inputs[..|inputs| - 1]);
    }
  }

  ghost predicate IdentifiedEntry(entry: Entry) {
    && (entry.issue.Some? ==> IdentifiedIssue(entry.issue.value))
    && (entry.transfer.Some? ==> IdentifiedTransfer(entry.transfer.value))
  }

  function IssueIdsOf(entry: Entry): seq<ID>
    requires IdentifiedEntry(entry)
  {
    if entry.issue.Some? then IssueIdList(entry.issue.value) else []
  }

  function TransferIdsOf(entry: Entry): seq<ID>
    requires IdentifiedEntry(entry)
  {
    if entry.transfer.Some? then TransferIdList(entry.transfer.value) else []
  }

  lemma {:induction false} EntryIdLists(entry: Entry)
    requires IdentifiedEntry(entry)
    ensures Audit.EntryIds(entry) == TransferIdsOf(entry) + IssueIdsOf(entry)
  {
    if entry.transfer.Some? {
      TransferIdsAll(entry.transfer.value.inputs);
      PresentAll(Audit.TransferIds(entry.transfer.value.inputs));
      assert Audit.Present(Audit.TransferIds(entry.transfer.value.inputs)) == TransferIdList(entry.transfer.value);
    }
    if entry.issue.Some? {
      PresentAll(Audit.IssueIds(entry.issue.value.inputs));
      assert Audit.Present(Audit.IssueIds(entry.issue.value.inputs)) == IssueIdList(entry.issue.value);
    }
  }

  lemma {:induction false} FlatConcat(a: seq<seq<ID>>, b: seq<seq<ID>>)
    ensures Flat(a + b) == Flat(a) + Flat(b)
  {
    if b == [] {
      assert a + b == a;
    } else {
      FlatConcat(a, b[..|b| - 1]);
      assert (a + b)[..|a + b| - 1] == a + b[..|b| - 1];
    }
  }

  function FromIssues(issues: seq<IssueMetadata>): seq<seq<ID>>
    requires IdentifiedAll(issues, [])
  {
    IdLists(issues, [])
  }

  function FromTransfers(transfers: seq<TransferMetadata>): seq<seq<ID>>
    requires IdentifiedAll([], transfers)
  {
    IdLists([], transfers)
  }

  lemma {:induction false} FlatIssuesSnoc(issues: seq<IssueMetadata>, issue: IssueMetadata)
    requires IdentifiedAll(issues + [issue], []) && IdentifiedAll(issues, []) && IdentifiedIssue(issue)
    ensures Flat(FromIssues(issues + [issue])) == Flat(FromIssues(issues)) + IssueIdList(issue)
  {
    assert FromIssues(issues + [issue]) == FromIssues(issues) + [IssueIdList(issue)];
    assert (FromIssues(issues) + [IssueIdList(issue)])[..|issues|] == FromIssues(issues);
  }

  lemma {:induction false} FlatTransfersSnoc(transfers: seq<TransferMetadata>, transfer: TransferMetadata)
    requires IdentifiedAll([], transfers + [transfer]) && IdentifiedAll([], transfers) && IdentifiedTransfer(transfer)
    ensures Flat(FromTransfers(transfers + [transfer])) == Flat(FromTransfers(transfers)) + TransferIdList(transfer)
  {
    assert FromTransfers(transfers + [transfer]) == FromTransfers(transfers) + [TransferIdList(transfer)];
    assert (FromTransfers(transfers) + [TransferIdList(transfer)])[..|transfers|] == FromTransfers(transfers);
  }

  ghost predicate IdentifiedEntries(entries: seq<Entry>) {
    forall i :: 0 <= i < |entries| ==> IdentifiedEntry(entries[i])
  }

  lemma {:induction false} IdentifiedBoth(entries: seq<Entry>)
    requires IdentifiedEntries(entries)
    ensures IdentifiedAll(IssueEntries(entries), TransferEntries(entries))
  {
    if entries != [] {
      IdentifiedBoth(entries[..|entries| - 1]);
      assert IdentifiedEntry(entries[|entries| - 1]);
    }
  }

  lemma {:induction false} FlatNext(entries: seq<Entry>)
    requires IdentifiedEntries(entries) && entries != []
    requires IdentifiedAll(IssueEntries(entries), TransferEntries(entries))
    ensures var init, last := entries[..|entries| - 1], entries[|entries| - 1];
            && IdentifiedAll(IssueEntries(init), TransferEntries(init)) && IdentifiedEntry(last)
            && Flat(FromIssues(IssueEntries(entries))) == Flat(FromIssues(IssueEntries(init))) + IssueIdsOf(last)
            && Flat(FromTransfers(TransferEntries(entries)))
               == Flat(FromTransfers(TransferEntries(init))) + TransferIdsOf(last)
  {
    var init, last := entries[..|entries| - 1], entries[|entries| - 1];
    IdentifiedBoth(init);
    assert IdentifiedEntry(last);
    if last.issue.Some? {
      FlatIssuesSnoc(IssueEntries(init), last.issue.value);
    } else {
      assert IssueEntries(init) + [] == IssueEntries(init);
    }
    if last.transfer.Some? {
      FlatTransfersSnoc(TransferEntries(init), last.transfer.value);
    } else {
      assert TransferEntries(init) + [] == TransferEntries(init);
    }
  }

  /** How often an ID occurs. */
  function Count(ids: seq<ID>, id: ID): nat {
    if ids == [] then 0 else Count(ids[..|ids| - 1], id) + if ids[|ids| - 1] == id then 1 else 0
  }

  lemma {:induction false} CountConcat(a: seq<ID>, b: seq<ID>, id: ID)
    ensures Count(a + b, id) == Count(a, id) + Count(b, id)
  {
    if b == [] {
      assert a + b == a;
    } else {
      CountConcat(a, b[..|b| - 1], id);
      assert (a + b)[..|a + b| - 1] == a + b[..|b| - 1];
    }
  }

  lemma {:induction false} CountListed(ids: seq<ID>, id: ID)
    ensures Count(ids, id) > 0 <==> id in ids
  {
    if ids != [] {
      CountListed(ids[..|ids| - 1], id);
      assert ids == ids[..|ids| - 1] + [ids[|ids| - 1]];
    }
  }

  /** Issues first and then transfers, or entry by entry: the same tokens are spent as often. */
  lemma {:induction false} SpentEitherWay(entries: seq<Entry>, id: ID)
    requires IdentifiedEntries(entries)
    requires IdentifiedAll(IssueEntries(entries), TransferEntries(entries))
    ensures Count(Audit.SpentIds(entries), id)
         == Count(Flat(FromIssues(IssueEntries(entries))), id)
            + Count(Flat(FromTransfers(TransferEntries(entries))), id)
  {
    if entries != [] {
      var init, last := entries[..|entries| - 1], entries[|entries| - 1];
      FlatNext(entries);
      SpentEitherWay(init, id);
      EntryIdLists(last);
      CountConcat(Audit.SpentIds(init), Audit.EntryIds(last), id);
      CountConcat(TransferIdsOf(last), IssueIdsOf(last), id);
      CountConcat(Flat(FromIssues(IssueEntries(init))), IssueIdsOf(last), id);
      CountConcat(Flat(FromTransfers(TransferEntries(init))), TransferIdsOf(last), id);
    }
  }

  lemma {:induction false} DistinctNext(ids: seq<ID>)
    requires ids != []
    ensures var n := |ids| - 1;
            Audit.Distinct(ids) <==> Audit.Distinct(ids[..n]) && ids[n] !in ids[..n]
  {
    var n := |ids| - 1;
    if Audit.Distinct(ids[..n]) && ids[n] !in ids[..n] {
      forall i, j | 0 <= i < j < |ids| ensures ids[i] != ids[j] {
        assert ids[..n][i] == ids[i];
      }
    }
  }

  /** Being pairwise different is occurring at most once. */
  lemma {:induction false} DistinctCounts(ids: seq<ID>)
    ensures Audit.Distinct(ids) <==> forall id :: Count(ids, id) <= 1
  {
    if ids != [] {
      var n := |ids| - 1;
      DistinctNext(ids);
      DistinctCounts(ids[..n]);
      CountListed(ids[..n], ids[n]);
      if Audit.Distinct(ids) {
        forall id ensures Count(ids, id) <= 1 {
          assert Count(ids[..n], id) <= 1;
        }
      } else if ids[n] in ids[..n] {
        assert Count(ids, ids[n]) > 1;
      } else {
        var id :| Count(ids[..n], id) > 1;
        assert Count(ids, id) > 1;
      }
    }
  }

  lemma {:induction false} SpentOnce(entries: seq<Entry>)
    requires IdentifiedEntries(entries) && Audit.Distinct(Audit.SpentIds(entries))
    ensures IdentifiedAll(IssueEntries(entries), TransferEntries(entries))
    ensures Audit.Distinct(Flat(IdLists(IssueEntries(entries), TransferEntries(entries))))
  {
    IdentifiedBoth(entries);
    var issues, transfers := IssueEntries(entries), TransferEntries(entries);
    assert IdLists(issues, transfers) == FromIssues(issues) + FromTransfers(transfers);
    FlatConcat(FromIssues(issues), FromTransfers(transfers));
    DistinctCounts(Audit.SpentIds(entries));
    DistinctCounts(Flat(IdLists(issues, transfers)));
    forall id ensures Count(Flat(IdLists(issues, transfers)), id) <= 1 {
      SpentEitherWay(entries, id);
      CountConcat(Flat(FromIssues(issues)), Flat(FromTransfers(transfers)), id);
    }
  }

  /**
   For every request that the auditor finds to spend no token twice, the amount of a party according
   to the input stream is the sum of the quantities of the tokens of which it is a sender, each
   counted once, however many senders a token has.
   */
  lemma {:induction false} ShareCountsInputsOnce(wallet: Wallet, amounts: Amounts, entries: seq<Entry>,
                                                 failOnMissing: bool, e: string)
    requires IdentifiedEntries(entries) && Audit.Distinct(Audit.SpentIds(entries))
    ensures IdentifiedAll(IssueEntries(entries), TransferEntries(entries))
    ensures var issues, transfers := IssueEntries(entries), TransferEntries(entries);
            var inputs := Inputs(wallet, amounts, issues, transfers, failOnMissing);
            inputs.Ok? ==> InputShare(inputs.value, e) == Plus(Spending(wallet, amounts, issues, transfers, e))
  {
    SpentOnce(entries);
    var issues, transfers := IssueEntries(entries), TransferEntries(entries);
    AllSpentParts(wallet, amounts, issues, transfers, failOnMissing, e);
    ShareOfSpentParts(IssueLists(amounts, issues) + TransferLists(wallet, amounts, transfers, failOnMissing),
                      IdLists(issues, transfers), e, Spending(wallet, amounts, issues, transfers, e));
  }
}
