/**
 The metadata of a token request (token/driver/request.go) and its filtering per party
 (token/metadata.go).
 */
module Metadata {
  import opened Prelude
  import opened Sequences
  import opened Tokens

  type Identity = Bytes

  datatype AuditableIdentity = AuditableIdentity(identity: Identity, auditInfo: Bytes)

  /** The metadata of an output of either kind of action; a receiver may be a nil pointer. */
  datatype OutputMetadata =
    OutputMetadata(metadata: Bytes, auditInfo: Bytes, receivers: seq<Option<AuditableIdentity>>)

  datatype TransferInput = TransferInput(tokenId: Option<ID>, senders: seq<Option<AuditableIdentity>>)

  /** A filtered-out output is a nil pointer, as may be an input. */
  datatype IssueMetadata =
    IssueMetadata(issuer: AuditableIdentity, inputs: seq<Option<Option<ID>>>,
                  outputs: seq<Option<OutputMetadata>>, extraSigners: seq<AuditableIdentity>)

  /** The issuer is absent when its identity is a nil slice. */
  datatype TransferMetadata =
    TransferMetadata(inputs: seq<Option<TransferInput>>, outputs: seq<Option<OutputMetadata>>,
                     extraSigners: seq<AuditableIdentity>, issuer: Option<AuditableIdentity>)

  datatype Entry = Entry(actionId: nat, issue: Option<IssueMetadata>, transfer: Option<TransferMetadata>)

  // ---------------------------------------------------------------------------------------
  // Lookup

  /** The issue metadata of a request, in order. */
  function IssueEntries(entries: seq<Entry>): seq<IssueMetadata> {
    if entries == [] then []
    else
      var last := entries[|entries| - 1];
      IssueEntries(entries[..|entries| - 1]) + if last.issue.Some? then [last.issue.value] else []
  }

  function TransferEntries(entries: seq<Entry>): seq<TransferMetadata> {
    if entries == [] then []
    else
      var last := entries[|entries| - 1];
      TransferEntries(entries[..|entries| - 1]) + if last.transfer.Some? then [last.transfer.value] else []
  }

  /** `GetIssueMetadata`: the issue metadata at an index among issues only. */
  method GetIssueMetadata(entries: seq<Entry>, index: nat) returns (result: Result<IssueMetadata>)
    ensures result == if index < |IssueEntries(entries)| then Ok(IssueEntries(entries)[index]) else Err
  {
    var issueCount := 0;
    for i := 0 to |entries|
      invariant issueCount == |IssueEntries(entries[..i])| <= index
    {
      assert entries[..i + 1][..i] == entries[..i];
      if entries[i].issue.Some? {
        if issueCount == index {
          IssueEntriesPrefix(entries, i + 1);
          return Ok(entries[i].issue.value);
        }
        issueCount := issueCount + 1;
      }
    }
    assert entries[..|entries|] == entries;
    return Err;
  }

  /** `GetTransferMetadata`: the transfer metadata at an index among transfers only. */
  method GetTransferMetadata(entries: seq<Entry>, index: nat) returns (result: Result<TransferMetadata>)
    ensures result == if index < |TransferEntries(entries)| then Ok(TransferEntries(entries)[index]) else Err
  {
    var transferCount := 0;
    for i := 0 to |entries|
      invariant transferCount == |TransferEntries(entries[..i])| <= index
    {
      assert entries[..i + 1][..i] == entries[..i];
      if entries[i].transfer.Some? {
        if transferCount == index {
          TransferEntriesPrefix(entries, i + 1);
          return Ok(entries[i].transfer.value);
        }
        transferCount := transferCount + 1;
      }
    }
    assert entries[..|entries|] == entries;
    return Err;
  }

  lemma {:induction false} IssueEntriesPrefix(entries: seq<Entry>, i: nat)
    requires i <= |entries|
    ensures IssueEntries(entries[..i]) <= IssueEntries(entries)
  {
    if i == |entries| {
      assert entries[..i] == entries;
    } else {
      IssueEntriesPrefix(entries[..|entries| - 1], i);
      assert entries[..|entries| - 1][..i] == entries[..i];
    }
  }

  lemma {:induction false} TransferEntriesPrefix(entries: seq<Entry>, i: nat)
    requires i <= |entries|
    ensures TransferEntries(entries[..i]) <= TransferEntries(entries)
  {
    if i == |entries| {
      assert entries[..i] == entries;
    } else {
      TransferEntriesPrefix(entries[..|entries| - 1], i);
      assert entries[..|entries| - 1][..i] == entries[..i];
    }
  }

  // ---------------------------------------------------------------------------------------
  // Filtering

  /** The wallet service, as the enrollment ID and revocation handle it derives. */
  datatype Wallet = Wallet(enrollmentId: (Identity, Bytes) -> Result<string>,
                           eidAndRh: (Identity, Bytes) -> Result<(string, string)>)

  /** Both lookups derive the same enrollment ID. */
  ghost predicate Consistent(wallet: Wallet) {
    forall id, info :: wallet.eidAndRh(id, info).Ok? && wallet.enrollmentId(id, info).Ok? ==>
      wallet.eidAndRh(id, info).value.0 == wallet.enrollmentId(id, info).value
  }

  /** No output has been filtered out and every receiver is there. */
  predicate UnfilteredOutputs(outputs: seq<Option<OutputMetadata>>) {
    forall i :: 0 <= i < |outputs| ==> outputs[i].Some? && NoNilReceiver(outputs[i].value.receivers)
  }

  predicate NoNilReceiver(receivers: seq<Option<AuditableIdentity>>) {
    forall i :: 0 <= i < |receivers| ==> receivers[i].Some?
  }

  /** Whether some receiver has one of the enrollment IDs, looking at the receivers in order. */
  function Contains(wallet: Wallet, receivers: seq<Option<AuditableIdentity>>, eIDs: set<string>): Result<bool>
    requires NoNilReceiver(receivers)
  {
    if receivers == [] then Ok(false)
    else
      var receiver := receivers[0].value;
      match wallet.enrollmentId(receiver.identity, receiver.auditInfo)
      case Err => Err
      case Ok(eID) => if eID in eIDs then Ok(true) else Contains(wallet, receivers[1..], eIDs)
  }

  /** `contains`. */
  method ContainsAny(wallet: Wallet, receivers: seq<Option<AuditableIdentity>>, eIDs: set<string>)
    returns (result: Result<bool>)
    requires NoNilReceiver(receivers)
    ensures result == Contains(wallet, receivers, eIDs)
  {
    assert receivers[0..] == receivers;
    for i := 0 to |receivers|
      invariant Contains(wallet, receivers, eIDs) == Contains(wallet, receivers[i..], eIDs)
    {
      var receiver := receivers[i].value;
      assert receivers[i..][0] == receivers[i] && receivers[i..][1..] == receivers[i + 1..];
      var recipientEID := wallet.enrollmentId(receiver.identity, receiver.auditInfo);
      if recipientEID.Err? {
        return Err;
      }
      if recipientEID.value in eIDs {
        return Ok(true);
      }
    }
    return Ok(false);
  }

  predicate HasEid(wallet: Wallet, receiver: AuditableIdentity, eIDs: set<string>) {
    var eID := wallet.enrollmentId(receiver.identity, receiver.auditInfo);
    eID.Ok? && eID.value in eIDs
  }

  /** Some receiver has one of the enrollment IDs. */
  ghost predicate SharedWith(wallet: Wallet, receivers: seq<Option<AuditableIdentity>>, eIDs: set<string>) {
    exists k :: 0 <= k < |receivers| && receivers[k].Some? && HasEid(wallet, receivers[k].value, eIDs)
  }

  /** The enrollment ID of a receiver can be derived, or that of an earlier one is among those looked for. */
  ghost predicate Answered(wallet: Wallet, receivers: seq<Option<AuditableIdentity>>, eIDs: set<string>)
    requires NoNilReceiver(receivers)
  {
    forall k :: 0 <= k < |receivers| ==>
      || wallet.enrollmentId(receivers[k].value.identity, receivers[k].value.auditInfo).Ok?
      || SharedWith(wallet, receivers[..k], eIDs)
  }

  lemma {:induction false} SharedNext(wallet: Wallet, receivers: seq<Option<AuditableIdentity>>, eIDs: set<string>,
                                      k: nat)
    requires NoNilReceiver(receivers) && receivers != [] && k < |receivers|
    ensures SharedWith(wallet, receivers[..k + 1], eIDs)
            <==> HasEid(wallet, receivers[0].value, eIDs) || SharedWith(wallet, receivers[1..][..k], eIDs)
  {
    var prefix, rest := receivers[..k + 1], receivers[1..][..k];
    assert prefix[0] == receivers[0];
    assert forall j :: 0 <= j < k ==> rest[j] == prefix[j + 1];
    if SharedWith(wallet, prefix, eIDs) && !HasEid(wallet, receivers[0].value, eIDs) {
      var j :| 0 <= j < |prefix| && prefix[j].Some? && HasEid(wallet, prefix[j].value, eIDs);
      assert rest[j - 1] == prefix[j];
    }
  }

  lemma {:induction false} AnsweredNext(wallet: Wallet, receivers: seq<Option<AuditableIdentity>>, eIDs: set<string>)
    requires NoNilReceiver(receivers) && receivers != []
    requires wallet.enrollmentId(receivers[0].value.identity, receivers[0].value.auditInfo).Ok?
    ensures HasEid(wallet, receivers[0].value, eIDs) ==> Answered(wallet, receivers, eIDs)
    ensures !HasEid(wallet, receivers[0].value, eIDs) ==>
              (Answered(wallet, receivers, eIDs) <==> Answered(wallet, receivers[1..], eIDs))
  {
    forall k: nat | k < |receivers| - 1
      ensures SharedWith(wallet, receivers[..k + 1], eIDs)
              <==> HasEid(wallet, receivers[0].value, eIDs) || SharedWith(wallet, receivers[1..][..k], eIDs)
      ensures receivers[1..][k] == receivers[k + 1]
    {
      SharedNext(wallet, receivers, eIDs, k);
    }
    if !HasEid(wallet, receivers[0].value, eIDs) && Answered(wallet, receivers, eIDs) {
      forall k | 0 <= k < |receivers| - 1
        ensures || wallet.enrollmentId(receivers[1..][k].value.identity, receivers[1..][k].value.auditInfo).Ok?
                || SharedWith(wallet, receivers[1..][..k], eIDs)
      {
        assert receivers[1..][k] == receivers[k + 1];
      }
    }
  }

  /** The search succeeds if every answer it needs is there, and says whether some receiver is looked for. */
  lemma {:induction false} ContainsMeaning(wallet: Wallet, receivers: seq<Option<AuditableIdentity>>, eIDs: set<string>)
    requires NoNilReceiver(receivers)
    ensures Contains(wallet, receivers, eIDs).Ok? <==> Answered(wallet, receivers, eIDs)
    ensures Contains(wallet, receivers, eIDs).Ok? ==>
              Contains(wallet, receivers, eIDs).value == SharedWith(wallet, receivers, eIDs)
  {
    if receivers != [] {
      if wallet.enrollmentId(receivers[0].value.identity, receivers[0].value.auditInfo).Ok? {
        ContainsMeaning(wallet, receivers[1..], eIDs);
        AnsweredNext(wallet, receivers, eIDs);
        SharedNext(wallet, receivers, eIDs, |receivers| - 1);
        assert receivers[..|receivers|] == receivers;
        assert receivers[1..][..|receivers| - 1] == receivers[1..];
      } else {
        assert receivers[..0] == [];
        assert !SharedWith(wallet, receivers[..0], eIDs);
      }
    }
  }

  /** An output is kept or replaced by nil, which preserves the indexing. */
  function FilterOutput(wallet: Wallet, output: Option<OutputMetadata>,
                        eIDs: set<string>): Result<Option<OutputMetadata>>
    requires output.Some? && NoNilReceiver(output.value.receivers)
  {
    match Contains(wallet, output.value.receivers, eIDs)
    case Err => Err
    case Ok(found) => Ok(if found then output else None)
  }

  function FilterOutputs(wallet: Wallet, outputs: seq<Option<OutputMetadata>>, eIDs: set<string>)
    : (result: Result<seq<Option<OutputMetadata>>>)
    requires UnfilteredOutputs(outputs)
    ensures result.Ok? ==> |result.value| == |outputs|
  {
    if outputs == [] then Ok([])
    else
      var n := |outputs| - 1;
      match (FilterOutputs(wallet, outputs[..n], eIDs), FilterOutput(wallet, outputs[n], eIDs))
      case (Ok(before), Ok(last)) => Ok(before + [last])
      case _ => Err
  }

  function Kept(outputs: seq<Option<OutputMetadata>>): nat {
    if outputs == [] then 0
    else Kept(outputs[..|outputs| - 1]) + if outputs[|outputs| - 1].Some? then 1 else 0
  }

  /** The loop over the outputs shared by `filterIssue` and `filterTransfer`. */
  method FilterOutputsLoop(wallet: Wallet, outputs: seq<Option<OutputMetadata>>, eIDs: set<string>)
    returns (result: Result<seq<Option<OutputMetadata>>>, counter: nat)
    requires UnfilteredOutputs(outputs)
    ensures result == FilterOutputs(wallet, outputs, eIDs)
    ensures result.Ok? ==> counter == Kept(result.value)
  {
    var clone: seq<Option<OutputMetadata>> := [];
    counter := 0;
    for i := 0 to |outputs|
      invariant FilterOutputs(wallet, outputs[..i], eIDs) == Ok(clone)
      invariant counter == Kept(clone)
    {
      var found := ContainsAny(wallet, outputs[i].value.receivers, eIDs);
      assert outputs[..i + 1][..i] == outputs[..i];
      if found.Err? {
        FilterOutputsErr(wallet, outputs, eIDs, i);
        return Err, counter;
      }
      var kept := if found.value then outputs[i] else None;
      assert (clone + [kept])[..|clone|] == clone;
      if found.value {
        counter := counter + 1;
      }
      clone := clone + [kept];
    }
    assert outputs[..|outputs|] == outputs;
    return Ok(clone), counter;
  }

  lemma {:induction false} FilterOutputsErr(wallet: Wallet, outputs: seq<Option<OutputMetadata>>, eIDs: set<string>,
                                            i: nat)
    requires UnfilteredOutputs(outputs) && i < |outputs|
    requires FilterOutput(wallet, outputs[i], eIDs).Err?
    ensures FilterOutputs(wallet, outputs, eIDs).Err?
  {
    if i < |outputs| - 1 {
      FilterOutputsErr(wallet, outputs[..|outputs| - 1], eIDs, i);
    }
  }

  lemma {:induction false} FilterOutputsAt(wallet: Wallet, outputs: seq<Option<OutputMetadata>>, eIDs: set<string>,
                                           j: nat)
    requires UnfilteredOutputs(outputs) && j < |outputs|
    requires FilterOutputs(wallet, outputs, eIDs).Ok?
    ensures Ok(FilterOutputs(wallet, outputs, eIDs).value[j]) == FilterOutput(wallet, outputs[j], eIDs)
  {
    if j < |outputs| - 1 {
      FilterOutputsAt(wallet, outputs[..|outputs| - 1], eIDs, j);
    }
  }

  /** The metadata of the j-th output is kept exactly if the output is shared with the party. */
  lemma {:induction false} KeptIffShared(wallet: Wallet, outputs: seq<Option<OutputMetadata>>, eIDs: set<string>,
                                         j: nat)
    requires UnfilteredOutputs(outputs) && j < |outputs| && FilterOutputs(wallet, outputs, eIDs).Ok?
    ensures FilterOutputs(wallet, outputs, eIDs).value[j]
         == if SharedWith(wallet, outputs[j].value.receivers, eIDs) then outputs[j] else None
  {
    FilterOutputsAt(wallet, outputs, eIDs, j);
    ContainsMeaning(wallet, outputs[j].value.receivers, eIDs);
  }

  /** The receivers of every output can be searched. */
  ghost predicate OutputsAnswered(wallet: Wallet, outputs: seq<Option<OutputMetadata>>, eIDs: set<string>)
    requires UnfilteredOutputs(outputs)
  {
    forall j :: 0 <= j < |outputs| ==> Answered(wallet, outputs[j].value.receivers, eIDs)
  }

  lemma {:induction false} FilterOutputsOk(wallet: Wallet, outputs: seq<Option<OutputMetadata>>, eIDs: set<string>)
    requires UnfilteredOutputs(outputs)
    ensures FilterOutputs(wallet, outputs, eIDs).Ok? <==> OutputsAnswered(wallet, outputs, eIDs)
  {
    if outputs != [] {
      var n := |outputs| - 1;
      FilterOutputsOk(wallet, outputs[..n], eIDs);
      ContainsMeaning(wallet, outputs[n].value.receivers, eIDs);
      assert forall j :: 0 <= j < n ==> outputs[..n][j] == outputs[j];
    }
  }

  /** Some output is shared with the party. */
  ghost predicate SomeShared(wallet: Wallet, outputs: seq<Option<OutputMetadata>>, eIDs: set<string>)
    requires UnfilteredOutputs(outputs)
  {
    exists j :: 0 <= j < |outputs| && SharedWith(wallet, outputs[j].value.receivers, eIDs)
  }

  lemma {:induction false} KeptSome(outputs: seq<Option<OutputMetadata>>)
    ensures Kept(outputs) > 0 <==> exists j :: 0 <= j < |outputs| && outputs[j].Some?
  {
    if outputs != [] {
      var n := |outputs| - 1;
      KeptSome(outputs[..n]);
      if j :| 0 <= j < n && outputs[j].Some? {
        assert outputs[..n][j].Some?;
      }
    }
  }

  lemma {:induction false} KeptIffSomeShared(wallet: Wallet, outputs: seq<Option<OutputMetadata>>, eIDs: set<string>)
    requires UnfilteredOutputs(outputs) && FilterOutputs(wallet, outputs, eIDs).Ok?
    ensures Kept(FilterOutputs(wallet, outputs, eIDs).value) > 0 <==> SomeShared(wallet, outputs, eIDs)
  {
    var filtered := FilterOutputs(wallet, outputs, eIDs).value;
    forall j | 0 <= j < |outputs|
      ensures filtered[j].Some? <==> SharedWith(wallet, outputs[j].value.receivers, eIDs)
    {
      KeptIffShared(wallet, outputs, eIDs, j);
    }
    KeptSome(filtered);
  }

  /** The issuer, the inputs and the extra signers of an issue stay; only outputs are filtered. */
  function FilterIssue(wallet: Wallet, issue: IssueMetadata, eIDs: set<string>): Result<IssueMetadata>
    requires UnfilteredOutputs(issue.outputs)
  {
    match FilterOutputs(wallet, issue.outputs, eIDs)
    case Err => Err
    case Ok(outputs) => Ok(issue.(outputs := outputs))
  }

  /** Senders are shown if and only if some output is kept; token IDs and the issuer never are. */
  function FilterTransfer(wallet: Wallet, transfer: TransferMetadata, eIDs: set<string>): Result<TransferMetadata>
    requires UnfilteredOutputs(transfer.outputs) && NoNilInput(transfer.inputs)
  {
    match FilterOutputs(wallet, transfer.outputs, eIDs)
    case Err => Err
    case Ok(outputs) =>
      Ok(TransferMetadata(FilteredInputs(transfer.inputs, Kept(outputs) > 0), outputs, transfer.extraSigners, None))
  }

  predicate NoNilInput(inputs: seq<Option<TransferInput>>) {
    forall i :: 0 <= i < |inputs| ==> inputs[i].Some?
  }

  function FilteredInputs(inputs: seq<Option<TransferInput>>, withSenders: bool): seq<Option<TransferInput>>
    requires NoNilInput(inputs)
  {
    seq(|inputs|, i requires 0 <= i < |inputs| =>
      Some(TransferInput(None, if withSenders then inputs[i].value.senders else [])))
  }

  /** `filterTransfer`: empty inputs first, the senders filled in afterwards. */
  method FilterTransferLoop(wallet: Wallet, transfer: TransferMetadata, eIDs: set<string>)
    returns (result: Result<TransferMetadata>)
    requires UnfilteredOutputs(transfer.outputs) && NoNilInput(transfer.inputs)
    ensures result == FilterTransfer(wallet, transfer, eIDs)
  {
    var outputs, counter := FilterOutputsLoop(wallet, transfer.outputs, eIDs);
    if outputs.Err? {
      return Err;
    }
    var inputs: seq<Option<TransferInput>> := [];
    for i := 0 to |transfer.inputs|
      invariant inputs == FilteredInputs(transfer.inputs, false)[..i]
    {
      inputs := inputs + [Some(TransferInput(None, []))];
    }
    if counter > 0 {
      for i := 0 to |transfer.inputs|
        invariant |inputs| == |transfer.inputs|
        invariant inputs[..i] == FilteredInputs(transfer.inputs, true)[..i]
        invariant inputs[i..] == FilteredInputs(transfer.inputs, false)[i..]
      {
        assert inputs[i] == inputs[i..][0];
        inputs := inputs[i := Some(inputs[i].value.(senders := transfer.inputs[i].value.senders))];
      }
    }
    assert inputs == FilteredInputs(transfer.inputs, counter > 0);
    return Ok(TransferMetadata(inputs, outputs.value, transfer.extraSigners, None));
  }

  /** The metadata has not been filtered. */
  predicate Unfiltered(entry: Entry) {
    && (entry.issue.Some? ==> UnfilteredOutputs(entry.issue.value.outputs))
    && (entry.transfer.Some? ==>
          UnfilteredOutputs(entry.transfer.value.outputs) && NoNilInput(entry.transfer.value.inputs))
  }

  predicate UnfilteredAll(entries: seq<Entry>) {
    forall i :: 0 <= i < |entries| ==> Unfiltered(entries[i])
  }

  // ---------------------------------------------------------------------------------------
  // What a party is shown

  /** Of the outputs, those shared with the party, at their positions. */
  ghost predicate OutputsShown(wallet: Wallet, outputs: seq<Option<OutputMetadata>>, eIDs: set<string>,
                               shown: seq<Option<OutputMetadata>>)
    requires UnfilteredOutputs(outputs)
  {
    && |shown| == |outputs|
    && forall j :: 0 <= j < |outputs| ==>
         shown[j] == if SharedWith(wallet, outputs[j].value.receivers, eIDs) then outputs[j] else None
  }

  ghost predicate IssueShown(wallet: Wallet, issue: IssueMetadata, eIDs: set<string>, shown: IssueMetadata)
    requires UnfilteredOutputs(issue.outputs)
  {
    && OutputsShown(wallet, issue.outputs, eIDs, shown.outputs)
    && shown.issuer == issue.issuer && shown.inputs == issue.inputs && shown.extraSigners == issue.extraSigners
  }

  /** Of each input its senders if some output is shared with the party, and never its token ID; no issuer. */
  ghost predicate TransferShown(wallet: Wallet, transfer: TransferMetadata, eIDs: set<string>, shown: TransferMetadata)
    requires UnfilteredOutputs(transfer.outputs) && NoNilInput(transfer.inputs)
  {
    && OutputsShown(wallet, transfer.outputs, eIDs, shown.outputs)
    && |shown.inputs| == |transfer.inputs|
    && (forall i :: 0 <= i < |shown.inputs| ==>
          && shown.inputs[i].Some? && shown.inputs[i].value.tokenId == None
          && shown.inputs[i].value.senders
             == if SomeShared(wallet, transfer.outputs, eIDs) then transfer.inputs[i].value.senders else [])
    && shown.extraSigners == transfer.extraSigners && shown.issuer == None
  }

  predicate HasMetadata(entry: Entry) {
    entry.issue.Some? || entry.transfer.Some?
  }

  /** Of an entry with metadata, the issue or else the transfer, under the same action ID. */
  ghost predicate EntryShown(wallet: Wallet, entry: Entry, eIDs: set<string>, shown: Entry)
    requires Unfiltered(entry) && HasMetadata(entry)
  {
    && shown.actionId == entry.actionId
    && if entry.issue.Some?
       then shown.issue.Some? && shown.transfer == None
            && IssueShown(wallet, entry.issue.value, eIDs, shown.issue.value)
       else shown.issue == None && shown.transfer.Some?
            && TransferShown(wallet, entry.transfer.value, eIDs, shown.transfer.value)
  }

  /** The receivers that filtering an entry looks at can be searched. */
  ghost predicate EntryAnswered(wallet: Wallet, entry: Entry, eIDs: set<string>)
    requires Unfiltered(entry)
  {
    if entry.issue.Some? then OutputsAnswered(wallet, entry.issue.value.outputs, eIDs)
    else entry.transfer.Some? ==> OutputsAnswered(wallet, entry.transfer.value.outputs, eIDs)
  }

  ghost function Shows(wallet: Wallet, eIDs: set<string>): (Entry, nat, Entry) -> bool {
    (entry: Entry, m: nat, shown: Entry) =>
      Unfiltered(entry) && HasMetadata(entry) && EntryShown(wallet, entry, eIDs, shown)
  }

  /** The shown entries are those with metadata, one by one and in order. */
  ghost predicate EntriesShown(wallet: Wallet, entries: seq<Entry>, eIDs: set<string>, shown: seq<Entry>) {
    exists at :: Yields(entries, HasMetadata, at, Shows(wallet, eIDs), shown)
  }

  /** What becomes of one entry; an entry with no metadata disappears. */
  function FilterEntry(wallet: Wallet, entry: Entry, eIDs: set<string>): Result<seq<Entry>>
    requires Unfiltered(entry)
  {
    if entry.issue.Some? then
      match FilterIssue(wallet, entry.issue.value, eIDs)
      case Err => Err
      case Ok(issue) => Ok([Entry(entry.actionId, Some(issue), None)])
    else if entry.transfer.Some? then
      match FilterTransfer(wallet, entry.transfer.value, eIDs)
      case Err => Err
      case Ok(transfer) => Ok([Entry(entry.actionId, None, Some(transfer))])
    else Ok([])
  }

  function FilterEntries(wallet: Wallet, entries: seq<Entry>, eIDs: set<string>): Result<seq<Entry>>
    requires UnfilteredAll(entries)
  {
    if entries == [] then Ok([])
    else
      var n := |entries| - 1;
      match (FilterEntries(wallet, entries[..n], eIDs), FilterEntry(wallet, entries[n], eIDs))
      case (Ok(before), Ok(last)) => Ok(before + last)
      case _ => Err
  }

  lemma {:induction false} FilterTransferShows(wallet: Wallet, transfer: TransferMetadata, eIDs: set<string>)
    requires UnfilteredOutputs(transfer.outputs) && NoNilInput(transfer.inputs)
    requires FilterTransfer(wallet, transfer, eIDs).Ok?
    ensures TransferShown(wallet, transfer, eIDs, FilterTransfer(wallet, transfer, eIDs).value)
  {
    FilterOutputsShow(wallet, transfer.outputs, eIDs);
    KeptIffSomeShared(wallet, transfer.outputs, eIDs);
  }

  lemma {:induction false} FilterOutputsShow(wallet: Wallet, outputs: seq<Option<OutputMetadata>>, eIDs: set<string>)
    requires UnfilteredOutputs(outputs) && FilterOutputs(wallet, outputs, eIDs).Ok?
    ensures OutputsShown(wallet, outputs, eIDs, FilterOutputs(wallet, outputs, eIDs).value)
  {
    forall j | 0 <= j < |outputs|
      ensures FilterOutputs(wallet, outputs, eIDs).value[j]
           == if SharedWith(wallet, outputs[j].value.receivers, eIDs) then outputs[j] else None
    {
      KeptIffShared(wallet, outputs, eIDs, j);
    }
  }

  lemma {:induction false} FilterEntryShows(wallet: Wallet, entry: Entry, eIDs: set<string>)
    requires Unfiltered(entry)
    ensures FilterEntry(wallet, entry, eIDs).Ok? <==> EntryAnswered(wallet, entry, eIDs)
    ensures FilterEntry(wallet, entry, eIDs).Ok? ==>
              var shown := FilterEntry(wallet, entry, eIDs).value;
              if HasMetadata(entry) then |shown| == 1 && EntryShown(wallet, entry, eIDs, shown[0]) else shown == []
  {
    if entry.issue.Some? {
      FilterOutputsOk(wallet, entry.issue.value.outputs, eIDs);
      if FilterEntry(wallet, entry, eIDs).Ok? {
        FilterOutputsShow(wallet, entry.issue.value.outputs, eIDs);
      }
    } else if entry.transfer.Some? {
      FilterOutputsOk(wallet, entry.transfer.value.outputs, eIDs);
      if FilterEntry(wallet, entry, eIDs).Ok? {
        FilterTransferShows(wallet, entry.transfer.value, eIDs);
      }
    }
  }

  /** A filtered request shows the party, of each entry, what is meant for it, and nothing else. */
  lemma {:induction false} FilterShows(wallet: Wallet, entries: seq<Entry>, eIDs: set<string>)
    requires UnfilteredAll(entries) && FilterEntries(wallet, entries, eIDs).Ok?
    ensures EntriesShown(wallet, entries, eIDs, FilterEntries(wallet, entries, eIDs).value)
  {
    if entries == [] {
      assert Yields(entries, HasMetadata, [], Shows(wallet, eIDs), []);
    } else {
      var n := |entries| - 1;
      FilterShows(wallet, entries[..n], eIDs);
      var before := FilterEntries(wallet, entries[..n], eIDs).value;
      var at :| Yields(entries[..n], HasMetadata, at, Shows(wallet, eIDs), before);
      FilterEntryShows(wallet, entries[n], eIDs);
      var last := FilterEntry(wallet, entries[n], eIDs).value;
      if HasMetadata(entries[n]) {
        YieldsNext(entries, HasMetadata, at, Shows(wallet, eIDs), before, last[0]);
        assert last == [last[0]];
      } else {
        YieldsNone(entries, HasMetadata, at, Shows(wallet, eIDs), before);
        assert before + last == before;
      }
    }
  }

  lemma {:induction false} FilterEntriesOk(wallet: Wallet, entries: seq<Entry>, eIDs: set<string>)
    requires UnfilteredAll(entries)
    ensures FilterEntries(wallet, entries, eIDs).Ok? <==>
            forall i :: 0 <= i < |entries| ==> EntryAnswered(wallet, entries[i], eIDs)
  {
    if entries != [] {
      var n := |entries| - 1;
      FilterEntriesOk(wallet, entries[..n], eIDs);
      assert forall i :: 0 <= i < n ==> entries[..n][i] == entries[i];
      FilterEntryShows(wallet, entries[n], eIDs);
    }
  }

  function AsSet(eIDs: seq<string>): set<string> {
    set e | e in eIDs
  }

  /** `FilterBy`: no enrollment ID means no filtering. */
  method FilterBy(wallet: Wallet, entries: seq<Entry>, eIDs: seq<string>) returns (result: Result<seq<Entry>>)
    requires UnfilteredAll(entries)
    ensures eIDs == [] ==> result == Ok(entries)
    ensures eIDs != [] ==> result == FilterEntries(wallet, entries, AsSet(eIDs))
    ensures eIDs != [] ==>
              (result.Ok? <==> forall i :: 0 <= i < |entries| ==> EntryAnswered(wallet, entries[i], AsSet(eIDs)))
    ensures eIDs != [] && result.Ok? ==> EntriesShown(wallet, entries, AsSet(eIDs), result.value)
  {
    if |eIDs| == 0 {
      return Ok(entries);
    }
    var eIDSet := AsSet(eIDs);
    FilterEntriesOk(wallet, entries, eIDSet);
    var filtered: seq<Entry> := [];
    for i := 0 to |entries|
      invariant FilterEntries(wallet, entries[..i], eIDSet) == Ok(filtered)
    {
      var entry := entries[i];
      assert entries[..i + 1][..i] == entries[..i];
      if entry.issue.Some? {
        var outputs, _ := FilterOutputsLoop(wallet, entry.issue.value.outputs, eIDSet);
        if outputs.Err? {
          FilterEntriesErr(wallet, entries, eIDSet, i);
          return Err;
        }
        filtered := filtered + [Entry(entry.actionId, Some(entry.issue.value.(outputs := outputs.value)), None)];
      } else if entry.transfer.Some? {
        var transfer := FilterTransferLoop(wallet, entry.transfer.value, eIDSet);
        if transfer.Err? {
          FilterEntriesErr(wallet, entries, eIDSet, i);
          return Err;
        }
        filtered := filtered + [Entry(entry.actionId, None, Some(transfer.value))];
      } else {
        assert filtered + [] == filtered;
      }
    }
    assert entries[..|entries|] == entries;
    FilterShows(wallet, entries, eIDSet);
    return Ok(filtered);
  }

  lemma {:induction false} FilterEntriesErr(wallet: Wallet, entries: seq<Entry>, eIDs: set<string>, i: nat)
    requires UnfilteredAll(entries) && i < |entries|
    requires FilterEntry(wallet, entries[i], eIDs).Err?
    ensures FilterEntries(wallet, entries, eIDs).Err?
  {
    if i < |entries| - 1 {
      FilterEntriesErr(wallet, entries[..|entries| - 1], eIDs, i);
    }
  }

  /** No entry has metadata of both kinds. */
  predicate NeverBoth(entries: seq<Entry>) {
    forall i :: 0 <= i < |entries| ==> entries[i].issue.None? || entries[i].transfer.None?
  }

  /** What one more entry adds to filtered metadata. */
  lemma {:induction false} FilterNext(wallet: Wallet, entries: seq<Entry>, eIDs: set<string>)
    requires UnfilteredAll(entries) && entries != []
    requires FilterEntries(wallet, entries, eIDs).Ok?
    ensures var n := |entries| - 1;
            var before := FilterEntries(wallet, entries[..n], eIDs);
            var filtered := FilterEntries(wallet, entries, eIDs).value;
            && before.Ok? && FilterEntry(wallet, entries[n], eIDs).Ok?
            && IssueEntries(filtered) == IssueEntries(before.value)
                 + (if entries[n].issue.Some? then [FilterIssue(wallet, entries[n].issue.value, eIDs).value] else [])
            && TransferEntries(filtered) == TransferEntries(before.value)
                 + (if entries[n].issue.None? && entries[n].transfer.Some?
                    then [FilterTransfer(wallet, entries[n].transfer.value, eIDs).value] else [])
  {
    var n := |entries| - 1;
    var before := FilterEntries(wallet, entries[..n], eIDs).value;
    var last := FilterEntry(wallet, entries[n], eIDs).value;
    if last == [] {
      assert before + last == before;
    } else {
      EntriesSnoc(before, last[0]);
      assert last == [last[0]];
    }
  }

  /** The second list holds the first one, filtered one by one. */
  ghost predicate FilteredIssues(wallet: Wallet, eIDs: set<string>, issues: seq<IssueMetadata>,
                                 issues': seq<IssueMetadata>) {
    && |issues'| == |issues|
    && forall k :: 0 <= k < |issues| ==>
         UnfilteredOutputs(issues[k].outputs) && FilterIssue(wallet, issues[k], eIDs) == Ok(issues'[k])
  }

  ghost predicate FilteredTransfers(wallet: Wallet, eIDs: set<string>, transfers: seq<TransferMetadata>,
                                    transfers': seq<TransferMetadata>) {
    && |transfers'| == |transfers|
    && forall k :: 0 <= k < |transfers| ==>
         && UnfilteredOutputs(transfers[k].outputs) && NoNilInput(transfers[k].inputs)
         && FilterTransfer(wallet, transfers[k], eIDs) == Ok(transfers'[k])
  }

  lemma {:induction false} FilteredIssuesNext(wallet: Wallet, eIDs: set<string>, issues: seq<IssueMetadata>,
                                              issues': seq<IssueMetadata>, last: IssueMetadata, last': IssueMetadata)
    requires FilteredIssues(wallet, eIDs, issues, issues')
    requires UnfilteredOutputs(last.outputs) && FilterIssue(wallet, last, eIDs) == Ok(last')
    ensures FilteredIssues(wallet, eIDs, issues + [last], issues' + [last'])
  {
  }

  lemma {:induction false} FilteredTransfersNext(wallet: Wallet, eIDs: set<string>, transfers: seq<TransferMetadata>,
                                                 transfers': seq<TransferMetadata>, last: TransferMetadata,
                                                 last': TransferMetadata)
    requires FilteredTransfers(wallet, eIDs, transfers, transfers')
    requires UnfilteredOutputs(last.outputs) && NoNilInput(last.inputs)
    requires FilterTransfer(wallet, last, eIDs) == Ok(last')
    ensures FilteredTransfers(wallet, eIDs, transfers + [last], transfers' + [last'])
  {
  }

  /** Filtering acts on the k-th issue one by one. */
  lemma {:induction false} FilterProjectsIssues(wallet: Wallet, entries: seq<Entry>, eIDs: set<string>)
    requires UnfilteredAll(entries) && FilterEntries(wallet, entries, eIDs).Ok?
    ensures FilteredIssues(wallet, eIDs, IssueEntries(entries),
                           IssueEntries(FilterEntries(wallet, entries, eIDs).value))
  {
    if entries != [] {
      var n := |entries| - 1;
      FilterNext(wallet, entries, eIDs);
      FilterProjectsIssues(wallet, entries[..n], eIDs);
      var before, before' :=
        IssueEntries(entries[..n]), IssueEntries(FilterEntries(wallet, entries[..n], eIDs).value);
      if entries[n].issue.Some? {
        var last := entries[n].issue.value;
        FilteredIssuesNext(wallet, eIDs, before, before', last, FilterIssue(wallet, last, eIDs).value);
      } else {
        assert before + [] == before && before' + [] == before';
      }
    }
  }

  /** ... and on the k-th transfer one by one, if no entry has metadata of both kinds. */
  lemma {:induction false} FilterProjectsTransfers(wallet: Wallet, entries: seq<Entry>, eIDs: set<string>)
    requires UnfilteredAll(entries) && FilterEntries(wallet, entries, eIDs).Ok? && NeverBoth(entries)
    ensures FilteredTransfers(wallet, eIDs, TransferEntries(entries),
                              TransferEntries(FilterEntries(wallet, entries, eIDs).value))
  {
    if entries != [] {
      var n := |entries| - 1;
      FilterNext(wallet, entries, eIDs);
      FilterProjectsTransfers(wallet, entries[..n], eIDs);
      var before, before' :=
        TransferEntries(entries[..n]), TransferEntries(FilterEntries(wallet, entries[..n], eIDs).value);
      if entries[n].transfer.Some? {
        var last := entries[n].transfer.value;
        FilteredTransfersNext(wallet, eIDs, before, before', last, FilterTransfer(wallet, last, eIDs).value);
      } else {
        assert before + [] == before && before' + [] == before';
      }
    }
  }

  /** The transfers among entries without issue metadata. */
  function TransferOnly(entries: seq<Entry>): nat {
    if entries == [] then 0
    else
      var last := entries[|entries| - 1];
      TransferOnly(entries[..|entries| - 1]) + if last.issue.None? && last.transfer.Some? then 1 else 0
  }

  lemma {:induction false} FilteredCountNext(wallet: Wallet, entries: seq<Entry>, eIDs: set<string>)
    requires UnfilteredAll(entries) && entries != [] && FilterEntries(wallet, entries, eIDs).Ok?
    ensures var n := |entries| - 1;
            && FilterEntries(wallet, entries[..n], eIDs).Ok?
            && |TransferEntries(FilterEntries(wallet, entries, eIDs).value)|
               == |TransferEntries(FilterEntries(wallet, entries[..n], eIDs).value)|
                  + (if entries[n].issue.None? && entries[n].transfer.Some? then 1 else 0)
  {
    FilterNext(wallet, entries, eIDs);
  }

  lemma {:induction false} FilteredCount(wallet: Wallet, entries: seq<Entry>, eIDs: set<string>)
    requires UnfilteredAll(entries) && FilterEntries(wallet, entries, eIDs).Ok?
    ensures |TransferEntries(FilterEntries(wallet, entries, eIDs).value)| == TransferOnly(entries)
  {
    if entries != [] {
      FilteredCountNext(wallet, entries, eIDs);
      FilteredCount(wallet, entries[..|entries| - 1], eIDs);
    }
  }

  lemma {:induction false} TransferOnlyCount(entries: seq<Entry>)
    ensures TransferOnly(entries) <= |TransferEntries(entries)|
    ensures TransferOnly(entries) == |TransferEntries(entries)| <==> NeverBoth(entries)
  {
    if entries != [] {
      var n := |entries| - 1;
      TransferOnlyCount(entries[..n]);
      assert NeverBoth(entries) <==> NeverBoth(entries[..n]) && (entries[n].issue.None? || entries[n].transfer.None?);
    }
  }

  /** Filtering keeps every transfer if and only if no entry has metadata of both kinds. */
  lemma {:induction false} FilterKeepsTransfers(wallet: Wallet, entries: seq<Entry>, eIDs: set<string>)
    requires UnfilteredAll(entries) && FilterEntries(wallet, entries, eIDs).Ok?
    ensures |TransferEntries(FilterEntries(wallet, entries, eIDs).value)| <= |TransferEntries(entries)|
    ensures |TransferEntries(FilterEntries(wallet, entries, eIDs).value)| == |TransferEntries(entries)|
            <==> NeverBoth(entries)
  {
    FilteredCount(wallet, entries, eIDs);
    TransferOnlyCount(entries);
  }

  lemma {:induction false} EntriesSnoc(entries: seq<Entry>, entry: Entry)
    ensures IssueEntries(entries + [entry])
            == IssueEntries(entries) + if entry.issue.Some? then [entry.issue.value] else []
    ensures TransferEntries(entries + [entry])
            == TransferEntries(entries) + if entry.transfer.Some? then [entry.transfer.value] else []
  {
    assert (entries + [entry])[..|entries|] == entries;
  }
}
