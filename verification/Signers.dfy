/**
 Required signers of a request, with and without the IDs of the actions they sign for
 (`Issues`, `Transfers`, `IssueSigners`, `TransferSigners` and their `WithActions` variants in
 token/request.go).
 */
module Signers {
  import opened Prelude
  import opened Metadata

  datatype Issue = Issue(issuer: Identity, receivers: seq<Identity>, extraSigners: seq<Identity>)

  /** No issuer stands for a nil identity. */
  datatype Transfer = Transfer(senders: seq<Identity>, receivers: seq<Identity>, extraSigners: seq<Identity>,
                               issuer: Option<Identity>)

  datatype Signer = Signer(identity: Identity, actionId: nat)

  // ---------------------------------------------------------------------------------------
  // Identities in the metadata

  function IdentityOf(id: Option<AuditableIdentity>): Identity {
    if id.Some? then id.value.identity else []
  }

  function IdentitiesOf(ids: seq<Option<AuditableIdentity>>): seq<Identity> {
    seq(|ids|, i requires 0 <= i < |ids| => IdentityOf(ids[i]))
  }

  function ExtraSignersOf(ids: seq<AuditableIdentity>): seq<Identity> {
    seq(|ids|, i requires 0 <= i < |ids| => ids[i].identity)
  }

  function SendersOf(inputs: seq<Option<TransferInput>>): seq<Identity>
    requires NoNilInput(inputs)
  {
    if inputs == [] then []
    else SendersOf(inputs[..|inputs| - 1]) + IdentitiesOf(inputs[|inputs| - 1].value.senders)
  }

  /** No output is a nil pointer. */
  predicate NoNilOutput(outputs: seq<Option<OutputMetadata>>) {
    forall i :: 0 <= i < |outputs| ==> outputs[i].Some?
  }

  function ReceiversOf(outputs: seq<Option<OutputMetadata>>): seq<Identity>
    requires NoNilOutput(outputs)
  {
    if outputs == [] then []
    else ReceiversOf(outputs[..|outputs| - 1]) + IdentitiesOf(outputs[|outputs| - 1].value.receivers)
  }

  /** The inner loop of `Senders` and `Receivers`: a nil pointer gives a nil identity. */
  method AppendIdentities(before: seq<Identity>, ids: seq<Option<AuditableIdentity>>) returns (res: seq<Identity>)
    ensures res == before + IdentitiesOf(ids)
  {
    res := before;
    for i := 0 to |ids|
      invariant res == before + IdentitiesOf(ids)[..i]
    {
      if ids[i].None? {
        res := res + [[]];
      } else {
        res := res + [ids[i].value.identity];
      }
    }
  }

  /** `Senders`. */
  method Senders(inputs: seq<Option<TransferInput>>) returns (res: seq<Identity>)
    requires NoNilInput(inputs)
    ensures res == SendersOf(inputs)
  {
    res := [];
    for i := 0 to |inputs|
      invariant res == SendersOf(inputs[..i])
    {
      assert inputs[..i + 1][..i] == inputs[..i];
      res := AppendIdentities(res, inputs[i].value.senders);
    }
    assert inputs[..|inputs|] == inputs;
  }

  /** `Receivers`, of either kind of metadata. */
  method Receivers(outputs: seq<Option<OutputMetadata>>) returns (res: seq<Identity>)
    requires NoNilOutput(outputs)
    ensures res == ReceiversOf(outputs)
  {
    res := [];
    for i := 0 to |outputs|
      invariant res == ReceiversOf(outputs[..i])
    {
      assert outputs[..i + 1][..i] == outputs[..i];
      res := AppendIdentities(res, outputs[i].value.receivers);
    }
    assert outputs[..|outputs|] == outputs;
  }

  // ---------------------------------------------------------------------------------------
  // Issues and transfers

  /** The pointers that listing signers follows are there. */
  predicate Listable(entry: Entry) {
    && (entry.issue.Some? ==> NoNilOutput(entry.issue.value.outputs))
    && (entry.transfer.Some? ==> NoNilOutput(entry.transfer.value.outputs) && NoNilInput(entry.transfer.value.inputs))
  }

  predicate ListableAll(entries: seq<Entry>) {
    forall i :: 0 <= i < |entries| ==> Listable(entries[i])
  }

  lemma {:induction false} UnfilteredIsListable(entries: seq<Entry>)
    requires UnfilteredAll(entries)
    ensures ListableAll(entries)
  {
    forall i | 0 <= i < |entries| ensures Listable(entries[i]) {
      assert Unfiltered(entries[i]);
    }
  }

  function IssueOf(metadata: IssueMetadata): Issue
    requires NoNilOutput(metadata.outputs)
  {
    Issue(metadata.issuer.identity, ReceiversOf(metadata.outputs), ExtraSignersOf(metadata.extraSigners))
  }

  function TransferOf(metadata: TransferMetadata): Transfer
    requires NoNilOutput(metadata.outputs) && NoNilInput(metadata.inputs)
  {
    Transfer(SendersOf(metadata.inputs), ReceiversOf(metadata.outputs), ExtraSignersOf(metadata.extraSigners),
             if metadata.issuer.Some? then Some(metadata.issuer.value.identity) else None)
  }

  function IssuesOf(entries: seq<Entry>): seq<Issue>
    requires ListableAll(entries)
  {
    if entries == [] then []
    else
      var n := |entries| - 1;
      IssuesOf(entries[..n]) + if entries[n].issue.Some? then [IssueOf(entries[n].issue.value)] else []
  }

  function TransfersOf(entries: seq<Entry>): seq<Transfer>
    requires ListableAll(entries)
  {
    if entries == [] then []
    else
      var n := |entries| - 1;
      TransfersOf(entries[..n]) + if entries[n].transfer.Some? then [TransferOf(entries[n].transfer.value)] else []
  }

  /** `Issues`. */
  method Issues(entries: seq<Entry>) returns (issues: seq<Issue>)
    requires ListableAll(entries)
    ensures issues == IssuesOf(entries)
  {
    issues := [];
    for i := 0 to |entries|
      invariant issues == IssuesOf(entries[..i])
    {
      assert entries[..i + 1][..i] == entries[..i];
      if entries[i].issue.Some? {
        var metadata := entries[i].issue.value;
        var receivers := Receivers(metadata.outputs);
        issues := issues + [Issue(metadata.issuer.identity, receivers, ExtraSignersOf(metadata.extraSigners))];
      }
    }
    assert entries[..|entries|] == entries;
  }

  /** `Transfers`. */
  method Transfers(entries: seq<Entry>) returns (transfers: seq<Transfer>)
    requires ListableAll(entries)
    ensures transfers == TransfersOf(entries)
  {
    transfers := [];
    for i := 0 to |entries|
      invariant transfers == TransfersOf(entries[..i])
    {
      assert entries[..i + 1][..i] == entries[..i];
      if entries[i].transfer.Some? {
        var metadata := entries[i].transfer.value;
        var senders := Senders(metadata.inputs);
        var receivers := Receivers(metadata.outputs);
        var issuer := if metadata.issuer.Some? then Some(metadata.issuer.value.identity) else None;
        transfers := transfers + [Transfer(senders, receivers, ExtraSignersOf(metadata.extraSigners), issuer)];
      }
    }
    assert entries[..|entries|] == entries;
  }

  lemma {:induction false} IssuesPrefix(entries: seq<Entry>, i: nat)
    requires ListableAll(entries) && i <= |entries|
    ensures IssuesOf(entries[..i]) <= IssuesOf(entries)
  {
    if i == |entries| {
      assert entries[..i] == entries;
    } else {
      IssuesPrefix(entries[..|entries| - 1], i);
      assert entries[..|entries| - 1][..i] == entries[..i];
    }
  }

  lemma {:induction false} TransfersPrefix(entries: seq<Entry>, i: nat)
    requires ListableAll(entries) && i <= |entries|
    ensures TransfersOf(entries[..i]) <= TransfersOf(entries)
  {
    if i == |entries| {
      assert entries[..i] == entries;
    } else {
      TransfersPrefix(entries[..|entries| - 1], i);
      assert entries[..|entries| - 1][..i] == entries[..i];
    }
  }

  // ---------------------------------------------------------------------------------------
  // Signers

  function IssueSignersOf(issue: Issue): seq<Identity> {
    [issue.issuer] + issue.extraSigners
  }

  function TransferSignersOf(transfer: Transfer): seq<Identity> {
    transfer.senders + (if transfer.issuer.Some? then [transfer.issuer.value] else []) + transfer.extraSigners
  }

  /** Who must sign for an entry of the metadata, as an issue and as a transfer. */
  function EntryIssueSigners(entry: Entry): seq<Identity>
    requires Listable(entry)
  {
    if entry.issue.Some? then IssueSignersOf(IssueOf(entry.issue.value)) else []
  }

  function EntryTransferSigners(entry: Entry): seq<Identity>
    requires Listable(entry)
  {
    if entry.transfer.Some? then TransferSignersOf(TransferOf(entry.transfer.value)) else []
  }

  function For(identities: seq<Identity>, actionId: nat): seq<Signer> {
    seq(|identities|, i requires 0 <= i < |identities| => Signer(identities[i], actionId))
  }

  /** The issue signers entry by entry, each with the action ID of its entry. */
  function IssueSignersFor(entries: seq<Entry>): seq<Signer>
    requires ListableAll(entries)
  {
    if entries == [] then []
    else
      var n := |entries| - 1;
      IssueSignersFor(entries[..n]) + For(EntryIssueSigners(entries[n]), entries[n].actionId)
  }

  function TransferSignersFor(entries: seq<Entry>): seq<Signer>
    requires ListableAll(entries)
  {
    if entries == [] then []
    else
      var n := |entries| - 1;
      TransferSignersFor(entries[..n]) + For(EntryTransferSigners(entries[n]), entries[n].actionId)
  }

  function IdentitiesIn(signers: seq<Signer>): seq<Identity> {
    seq(|signers|, i requires 0 <= i < |signers| => signers[i].identity)
  }

  /** The identities that must sign, list by list. */
  function AllIssueSigners(issues: seq<Issue>): seq<Identity> {
    if issues == [] then [] else AllIssueSigners(issues[..|issues| - 1]) + IssueSignersOf(issues[|issues| - 1])
  }

  function AllTransferSigners(transfers: seq<Transfer>): seq<Identity> {
    if transfers == [] then []
    else AllTransferSigners(transfers[..|transfers| - 1]) + TransferSignersOf(transfers[|transfers| - 1])
  }

  /** `IssueSigners`. */
  method IssueSigners(entries: seq<Entry>) returns (signers: seq<Identity>)
    requires ListableAll(entries)
    ensures signers == AllIssueSigners(IssuesOf(entries))
  {
    signers := [];
    var issues := Issues(entries);
    for i := 0 to |issues|
      invariant signers == AllIssueSigners(issues[..i])
    {
      assert issues[..i + 1][..i] == issues[..i];
      signers := signers + [issues[i].issuer];
      signers := signers + issues[i].extraSigners;
    }
    assert issues[..|issues|] == issues;
  }

  /** `TransferSigners`. */
  method TransferSigners(entries: seq<Entry>) returns (signers: seq<Identity>)
    requires ListableAll(entries)
    ensures signers == AllTransferSigners(TransfersOf(entries))
  {
    signers := [];
    var transfers := Transfers(entries);
    for i := 0 to |transfers|
      invariant signers == AllTransferSigners(transfers[..i])
    {
      assert transfers[..i + 1][..i] == transfers[..i];
      var t := transfers[i];
      assert (signers + t.senders) + t.extraSigners == signers + (t.senders + [] + t.extraSigners);
      signers := signers + t.senders;
      if t.issuer.Some? {
        signers := signers + [t.issuer.value];
      }
      signers := signers + t.extraSigners;
    }
    assert transfers[..|transfers|] == transfers;
  }

  /** Appends signers of one action one by one. */
  method AppendFor(before: seq<Signer>, identities: seq<Identity>, actionId: nat) returns (signers: seq<Signer>)
    ensures signers == before + For(identities, actionId)
  {
    signers := before;
    for i := 0 to |identities|
      invariant signers == before + For(identities, actionId)[..i]
    {
      signers := signers + [Signer(identities[i], actionId)];
    }
  }

  lemma {:induction false} ForConcat(a: seq<Identity>, b: seq<Identity>, actionId: nat)
    ensures For(a + b, actionId) == For(a, actionId) + For(b, actionId)
  {
  }

  /** `IssueSignersWithActions`; its early exit is never taken. */
  method IssueSignersWithActions(entries: seq<Entry>) returns (signers: seq<Signer>)
    requires ListableAll(entries)
    ensures signers == IssueSignersFor(entries)
  {
    signers := [];
    var issues := Issues(entries);
    var issueIndex := 0;
    for i := 0 to |entries|
      invariant issueIndex == |IssuesOf(entries[..i])|
      invariant signers == IssueSignersFor(entries[..i])
    {
      assert entries[..i + 1][..i] == entries[..i];
      if entries[i].issue.Some? {
        IssuesPrefix(entries, i + 1);
        if issueIndex >= |issues| {
          assert false;
        }
        var issue := issues[issueIndex];
        issueIndex := issueIndex + 1;
        ForConcat([issue.issuer], issue.extraSigners, entries[i].actionId);
        ghost var before := signers;
        signers := signers + [Signer(issue.issuer, entries[i].actionId)];
        signers := AppendFor(signers, issue.extraSigners, entries[i].actionId);
        assert signers == before + For(IssueSignersOf(issue), entries[i].actionId);
      }
    }
    assert entries[..|entries|] == entries;
  }

  /** `TransferSignersWithActions`; its early exit is never taken. */
  method TransferSignersWithActions(entries: seq<Entry>) returns (signers: seq<Signer>)
    requires ListableAll(entries)
    ensures signers == TransferSignersFor(entries)
  {
    signers := [];
    var transfers := Transfers(entries);
    var transferIndex := 0;
    for i := 0 to |entries|
      invariant transferIndex == |TransfersOf(entries[..i])|
      invariant signers == TransferSignersFor(entries[..i])
    {
      assert entries[..i + 1][..i] == entries[..i];
      if entries[i].transfer.Some? {
        TransfersPrefix(entries, i + 1);
        if transferIndex >= |transfers| {
          assert false;
        }
        var transfer := transfers[transferIndex];
        transferIndex := transferIndex + 1;
        signers := AppendTransfer(signers, transfer, entries[i].actionId);
      }
    }
    assert entries[..|entries|] == entries;
  }

  method AppendTransfer(before: seq<Signer>, transfer: Transfer, actionId: nat) returns (signers: seq<Signer>)
    ensures signers == before + For(TransferSignersOf(transfer), actionId)
  {
    signers := AppendFor(before, transfer.senders, actionId);
    if transfer.issuer.Some? {
      signers := signers + [Signer(transfer.issuer.value, actionId)];
    }
    signers := AppendFor(signers, transfer.extraSigners, actionId);
  }

  // ---------------------------------------------------------------------------------------
  // Agreement

  lemma {:induction false} IdentitiesConcat(a: seq<Signer>, identities: seq<Identity>, actionId: nat)
    ensures IdentitiesIn(a + For(identities, actionId)) == IdentitiesIn(a) + identities
  {
  }

  /** Dropping the action IDs of the issue signers gives the issue signers. */
  lemma {:induction false} IssueSignersAgree(entries: seq<Entry>)
    requires ListableAll(entries)
    ensures IdentitiesIn(IssueSignersFor(entries)) == AllIssueSigners(IssuesOf(entries))
  {
    if entries != [] {
      var n := |entries| - 1;
      IssueSignersAgree(entries[..n]);
      IdentitiesConcat(IssueSignersFor(entries[..n]), EntryIssueSigners(entries[n]), entries[n].actionId);
      var before := IssuesOf(entries[..n]);
      if entries[n].issue.Some? {
        assert (before + [IssueOf(entries[n].issue.value)])[..|before|] == before;
      } else {
        assert before + [] == before;
      }
    }
  }

  lemma {:induction false} TransferSignersAgree(entries: seq<Entry>)
    requires ListableAll(entries)
    ensures IdentitiesIn(TransferSignersFor(entries)) == AllTransferSigners(TransfersOf(entries))
  {
    if entries != [] {
      var n := |entries| - 1;
      TransferSignersAgree(entries[..n]);
      IdentitiesConcat(TransferSignersFor(entries[..n]), EntryTransferSigners(entries[n]), entries[n].actionId);
      var before := TransfersOf(entries[..n]);
      if entries[n].transfer.Some? {
        assert (before + [TransferOf(entries[n].transfer.value)])[..|before|] == before;
      } else {
        assert before + [] == before;
      }
    }
  }

  /** All required signers, issues before transfers. */
  function RequiredSigners(entries: seq<Entry>): seq<Signer>
    requires ListableAll(entries)
  {
    IssueSignersFor(entries) + TransferSignersFor(entries)
  }
}
