/**
 Extracting the outputs of a request from its actions and metadata (`outputs`,
 `extractIssueOutputs` and `extractTransferOutputs` in token/request.go, `Match` in
 token/driver/request.go). The token driver is a record of answers.
 */
module Extraction {
  import opened Prelude
  import opened Sequences
  import opened Quantities
  import opened Tokens
  import opened Metadata

  datatype Kind = Issue | Transfer

  datatype ActionOutput = NilOutput | Unserializable | Serialized(raw: Bytes, redeem: bool)

  /** A deserialized action; `valid` is the answer of its `Validate`. */
  datatype Action = Action(valid: bool, numInputs: nat, numOutputs: nat, outputs: seq<ActionOutput>,
                           issuer: Identity, extraSigners: seq<Identity>)

  /** An output in the clear. */
  datatype Clear = Clear(token: Token, issuer: Identity, recipients: seq<Identity>, format: string)

  datatype Driver = Driver(issueAction: Bytes -> Result<Action>, transferAction: Bytes -> Result<Action>,
                           deobfuscate: (Bytes, Bytes) -> Result<Clear>, wallet: Wallet, precision: nat)

  datatype Output = Output(token: Token, kind: Kind, actionIndex: nat, index: nat, owner: Identity,
                           ownerAuditInfo: Bytes, enrollmentId: string, revocationHandler: string,
                           quantity: Quantity, ledgerOutput: Bytes, format: string, ledgerMetadata: Bytes,
                           issuer: Identity)

  // ---------------------------------------------------------------------------------------
  // Matching actions with their metadata

  predicate MatchesIssue(metadata: IssueMetadata, action: Action) {
    && action.valid
    && |metadata.inputs| == action.numInputs
    && |metadata.outputs| == action.numOutputs
    && |metadata.extraSigners| == |action.extraSigners|
    && SignersFound(metadata.extraSigners, action.extraSigners)
    && metadata.issuer.identity == action.issuer
  }

  /** Every signer is listed, at whatever index. */
  predicate SignersFound(listed: seq<AuditableIdentity>, signers: seq<Identity>) {
    forall i :: 0 <= i < |signers| ==> exists j :: 0 <= j < |listed| && listed[j].identity == signers[i]
  }

  /** A nil identity equals an empty one. */
  function IssuerIdentity(metadata: TransferMetadata): Identity {
    if metadata.issuer.Some? then metadata.issuer.value.identity else []
  }

  predicate MatchesTransfer(metadata: TransferMetadata, action: Action) {
    && action.valid
    && |metadata.inputs| == action.numInputs
    && |metadata.outputs| == action.numOutputs
    && |metadata.extraSigners| == |action.extraSigners|
    && (forall i :: 0 <= i < |action.extraSigners| ==> action.extraSigners[i] == metadata.extraSigners[i].identity)
    && IssuerIdentity(metadata) == action.issuer
  }

  /** `IssueMetadata.Match`: the extra signers in any order. */
  method MatchIssue(metadata: IssueMetadata, action: Action) returns (ok: bool)
    ensures ok <==> MatchesIssue(metadata, action)
  {
    if !action.valid || |metadata.inputs| != action.numInputs || |metadata.outputs| != action.numOutputs {
      return false;
    }
    if |metadata.extraSigners| != |action.extraSigners| {
      return false;
    }
    for i := 0 to |action.extraSigners|
      invariant SignersFound(metadata.extraSigners, action.extraSigners[..i])
    {
      var found := false;
      for j := 0 to |metadata.extraSigners|
        invariant found <==> exists k :: 0 <= k < j && metadata.extraSigners[k].identity == action.extraSigners[i]
      {
        if metadata.extraSigners[j].identity == action.extraSigners[i] {
          found := true;
        }
      }
      if !found {
        assert !SignersFound(metadata.extraSigners, action.extraSigners) by {
          assert forall j :: 0 <= j < |metadata.extraSigners| ==>
              metadata.extraSigners[j].identity != action.extraSigners[i];
        }
        return false;
      }
    }
    assert action.extraSigners[..|action.extraSigners|] == action.extraSigners;
    return metadata.issuer.identity == action.issuer;
  }

  /** `TransferMetadata.Match`: the extra signers one by one. */
  method MatchTransfer(metadata: TransferMetadata, action: Action) returns (ok: bool)
    ensures ok <==> MatchesTransfer(metadata, action)
  {
    if !action.valid || |metadata.inputs| != action.numInputs || |metadata.outputs| != action.numOutputs {
      return false;
    }
    if |metadata.extraSigners| != |action.extraSigners| {
      return false;
    }
    for i := 0 to |action.extraSigners|
      invariant forall j :: 0 <= j < i ==> action.extraSigners[j] == metadata.extraSigners[j].identity
    {
      if action.extraSigners[i] != metadata.extraSigners[i].identity {
        return false;
      }
    }
    return (if metadata.issuer.Some? then metadata.issuer.value.identity else []) == action.issuer;
  }

  // ---------------------------------------------------------------------------------------
  // One output

  function MetadataAt(outputs: seq<Option<OutputMetadata>>, j: nat): Option<OutputMetadata> {
    if j < |outputs| then outputs[j] else None
  }

  /** A transfer output whose metadata bytes are empty counts as absent too. */
  predicate Present(kind: Kind, metadata: Option<OutputMetadata>) {
    metadata.Some? && (kind.Transfer? ==> metadata.value.metadata != [])
  }

  function RecipientAt(metadata: OutputMetadata, k: nat): Option<AuditableIdentity> {
    if k < |metadata.receivers| then metadata.receivers[k] else None
  }

  /** An output without recipients has one empty recipient, in a transfer. */
  function RecipientsOf(kind: Kind, clear: Clear): seq<Identity> {
    if kind.Transfer? && clear.recipients == [] then [[]] else clear.recipients
  }

  /** A redeem output takes its issuer from the transfer action. */
  function IssuerOf(kind: Kind, action: Action, clear: Clear, redeem: bool): Identity {
    if kind.Issue? then clear.issuer
    else if clear.issuer == [] && (clear.token.owner == [] || redeem) then action.issuer
    else clear.issuer
  }

  /** The record of one recipient of an output; an output without owner has no enrollment ID. */
  function RecipientOutput(driver: Driver, kind: Kind, position: nat, index: nat, raw: Bytes, clear: Clear,
                           issuer: Identity, q: Quantity, metadata: OutputMetadata, recipient: Identity, k: nat)
    : Result<seq<Output>>
  {
    match RecipientAt(metadata, k)
    case None => Err
    case Some(r) =>
      if recipient != r.identity then Err
      else if kind.Issue? || clear.token.owner != [] then
        match driver.wallet.eidAndRh(recipient, r.auditInfo)
        case Err => Err
        case Ok((eID, rH)) =>
          Ok([Output(clear.token, kind, position, index, recipient, r.auditInfo, eID, rH, q, raw, clear.format,
                     metadata.metadata, issuer)])
      else
        Ok([Output(clear.token, kind, position, index, recipient, [], "", "", q, [], clear.format,
                   metadata.metadata, issuer)])
  }

  function RecipientOutputs(driver: Driver, kind: Kind, position: nat, index: nat, raw: Bytes, clear: Clear,
                            issuer: Identity, q: Quantity, metadata: OutputMetadata)
    : seq<Result<seq<Output>>>
  {
    var recipients := RecipientsOf(kind, clear);
    seq(|recipients|, k requires 0 <= k < |recipients| =>
      RecipientOutput(driver, kind, position, index, raw, clear, issuer, q, metadata, recipients[k], k))
  }

  /** The records of the output at an absolute index of the request. */
  function OutputAt(driver: Driver, kind: Kind, position: nat, index: nat, action: Action, output: ActionOutput,
                    metadata: Option<OutputMetadata>, failOnMissing: bool)
    : Result<seq<Output>>
  {
    if !output.Serialized? then Err
    else if !Present(kind, metadata) then if failOnMissing then Err else Ok([])
    else
      match driver.deobfuscate(output.raw, metadata.value.metadata)
      case Err => Err
      case Ok(clear) =>
        if kind.Issue? && (clear.issuer != action.issuer || clear.recipients == []) then Err
        else
          match ToQuantity(clear.token.quantity, driver.precision)
          case Err => Err
          case Ok(q) =>
            Collect(RecipientOutputs(driver, kind, position, index, output.raw, clear,
                                     IssuerOf(kind, action, clear, output.redeem), q, metadata.value))
  }

  /** The k-th recipient is the one the metadata names, and its enrollment ID can be derived if it owns anything. */
  predicate RecipientKnown(driver: Driver, kind: Kind, clear: Clear, metadata: OutputMetadata, k: nat)
    requires k < |RecipientsOf(kind, clear)|
  {
    var recipient, r := RecipientsOf(kind, clear)[k], RecipientAt(metadata, k);
    && r.Some? && r.value.identity == recipient
    && (kind.Issue? || clear.token.owner != [] ==> driver.wallet.eidAndRh(recipient, r.value.auditInfo).Ok?)
  }

  /** An output in the clear that can be recorded. */
  predicate Recordable(driver: Driver, kind: Kind, action: Action, clear: Clear, metadata: OutputMetadata) {
    && (kind.Issue? ==> clear.issuer == action.issuer && clear.recipients != [])
    && ToQuantity(clear.token.quantity, driver.precision).Ok?
    && forall k: nat :: k < |RecipientsOf(kind, clear)| ==> RecipientKnown(driver, kind, clear, metadata, k)
  }

  /** What the record of the k-th recipient says. */
  predicate RecordOf(driver: Driver, kind: Kind, position: nat, index: nat, raw: Bytes, clear: Clear, issuer: Identity,
                     metadata: OutputMetadata, k: nat, o: Output)
    requires k < |RecipientsOf(kind, clear)|
  {
    && o.kind == kind && o.actionIndex == position && o.index == index
    && o.token == clear.token && o.owner == RecipientsOf(kind, clear)[k]
    && ToQuantity(clear.token.quantity, driver.precision) == Ok(o.quantity)
    && o.ledgerMetadata == metadata.metadata && o.format == clear.format && o.issuer == issuer
    && (if kind.Issue? || clear.token.owner != [] then
          var r := RecipientAt(metadata, k);
          && r.Some? && o.ownerAuditInfo == r.value.auditInfo && o.ledgerOutput == raw
          && driver.wallet.eidAndRh(o.owner, r.value.auditInfo) == Ok((o.enrollmentId, o.revocationHandler))
        else o.ownerAuditInfo == [] && o.ledgerOutput == [] && o.enrollmentId == "" && o.revocationHandler == "")
  }

  lemma {:induction false} RecipientMeaning(driver: Driver, kind: Kind, position: nat, index: nat, raw: Bytes,
                                            clear: Clear, issuer: Identity, q: Quantity, metadata: OutputMetadata,
                                            k: nat)
    requires k < |RecipientsOf(kind, clear)| && ToQuantity(clear.token.quantity, driver.precision) == Ok(q)
    ensures var one := RecipientOutput(driver, kind, position, index, raw, clear, issuer, q, metadata,
                                       RecipientsOf(kind, clear)[k], k);
            && (one.Ok? <==> RecipientKnown(driver, kind, clear, metadata, k))
            && (one.Ok? ==>
                  && |one.value| == 1
                  && RecordOf(driver, kind, position, index, raw, clear, issuer, metadata, k, one.value[0]))
  {
  }

  /** An output in the clear has one record per recipient, if all of them can be recorded. */
  lemma {:induction false} RecipientsMeaning(driver: Driver, kind: Kind, position: nat, index: nat, raw: Bytes,
                                             clear: Clear, issuer: Identity, q: Quantity, metadata: OutputMetadata)
    requires ToQuantity(clear.token.quantity, driver.precision) == Ok(q)
    ensures var result := Collect(RecipientOutputs(driver, kind, position, index, raw, clear, issuer, q, metadata));
            && (result.Ok? <==> forall k: nat :: k < |RecipientsOf(kind, clear)| ==>
                                  RecipientKnown(driver, kind, clear, metadata, k))
            && (result.Ok? ==>
                  && |result.value| == |RecipientsOf(kind, clear)|
                  && forall k: nat :: k < |result.value| ==>
                       RecordOf(driver, kind, position, index, raw, clear, issuer, metadata, k, result.value[k]))
  {
    var items := RecipientOutputs(driver, kind, position, index, raw, clear, issuer, q, metadata);
    CollectOk(items);
    forall k: nat | k < |items|
      ensures items[k].Ok? <==> RecipientKnown(driver, kind, clear, metadata, k)
      ensures items[k].Ok? ==>
                && |items[k].value| == 1
                && RecordOf(driver, kind, position, index, raw, clear, issuer, metadata, k, items[k].value[0])
    {
      RecipientMeaning(driver, kind, position, index, raw, clear, issuer, q, metadata, k);
    }
    if Collect(items).Ok? {
      CollectSingletons(items);
    }
  }

  /**
   What extracting an output means: it succeeds exactly if the output is there and either its
   metadata is absent and may be, or the output in the clear is recordable; then an absent output
   has no record and a present one has one record per recipient, saying who received what.
   */
  lemma {:induction false} OutputMeaning(driver: Driver, kind: Kind, position: nat, index: nat, action: Action,
                                         output: ActionOutput, metadata: Option<OutputMetadata>, failOnMissing: bool)
    ensures var result := OutputAt(driver, kind, position, index, action, output, metadata, failOnMissing);
            && (!output.Serialized? ==> result.Err?)
            && (output.Serialized? && !Present(kind, metadata) ==> result == if failOnMissing then Err else Ok([]))
            && (output.Serialized? && Present(kind, metadata) ==>
                  var clear := driver.deobfuscate(output.raw, metadata.value.metadata);
                  && (result.Ok? <==> clear.Ok? && Recordable(driver, kind, action, clear.value, metadata.value))
                  && (result.Ok? ==>
                        && |result.value| == |RecipientsOf(kind, clear.value)|
                        && forall k: nat :: k < |result.value| ==>
                             RecordOf(driver, kind, position, index, output.raw, clear.value,
                                      IssuerOf(kind, action, clear.value, output.redeem), metadata.value, k,
                                      result.value[k])))
  {
    if output.Serialized? && Present(kind, metadata) {
      var clear := driver.deobfuscate(output.raw, metadata.value.metadata);
      if clear.Ok? {
        var q := ToQuantity(clear.value.token.quantity, driver.precision);
        if q.Ok? {
          RecipientsMeaning(driver, kind, position, index, output.raw, clear.value,
                            IssuerOf(kind, action, clear.value, output.redeem), q.value, metadata.value);
        }
      }
    }
  }

  /** The owners in the records of an output are its recipients, in order, or one empty owner. */
  lemma {:induction false} RecordsOwners(driver: Driver, kind: Kind, position: nat, index: nat, action: Action,
                                         output: ActionOutput, metadata: OutputMetadata, failOnMissing: bool)
    requires Present(kind, Some(metadata)) && output.Serialized?
    requires OutputAt(driver, kind, position, index, action, output, Some(metadata), failOnMissing).Ok?
    ensures var records := OutputAt(driver, kind, position, index, action, output, Some(metadata), failOnMissing).value;
            var clear := driver.deobfuscate(output.raw, metadata.metadata);
            && clear.Ok? && (kind.Issue? ==> clear.value.recipients != [])
            && (clear.value.recipients == [] ==> |records| == 1 && records[0].owner == [])
            && (clear.value.recipients != [] ==>
                  && |records| == |clear.value.recipients|
                  && forall k :: 0 <= k < |records| ==> records[k].owner == clear.value.recipients[k])
  {
    OutputMeaning(driver, kind, position, index, action, output, Some(metadata), failOnMissing);
  }

  /** The issuer in the records is that of the output; a redeemed output without one has that of the action. */
  lemma {:induction false} RecordsIssuer(driver: Driver, kind: Kind, position: nat, index: nat, action: Action,
                                         output: ActionOutput, metadata: OutputMetadata, failOnMissing: bool, o: Output)
    requires Present(kind, Some(metadata)) && output.Serialized?
    requires OutputAt(driver, kind, position, index, action, output, Some(metadata), failOnMissing).Ok?
    requires o in OutputAt(driver, kind, position, index, action, output, Some(metadata), failOnMissing).value
    ensures var clear := driver.deobfuscate(output.raw, metadata.metadata);
            && clear.Ok? && (kind.Issue? ==> o.issuer == action.issuer)
            && (kind.Transfer? && clear.value.issuer != [] ==> o.issuer == clear.value.issuer)
            && (kind.Transfer? && clear.value.issuer == [] && (output.redeem || clear.value.token.owner == []) ==>
                  o.issuer == action.issuer)
            && (kind.Transfer? && clear.value.issuer == [] && !output.redeem && clear.value.token.owner != [] ==>
                  o.issuer == [])
  {
    OutputMeaning(driver, kind, position, index, action, output, Some(metadata), failOnMissing);
    var records := OutputAt(driver, kind, position, index, action, output, Some(metadata), failOnMissing).value;
    var k :| 0 <= k < |records| && records[k] == o;
    assert k < |records|;
  }

  // ---------------------------------------------------------------------------------------
  // One action

  /** An action of the request, with its metadata if that is there and matches. */
  datatype Job = Job(kind: Kind, position: nat, action: Result<Action>, metadata: Result<seq<Option<OutputMetadata>>>)

  predicate Ready(job: Job) {
    job.action.Ok? && job.metadata.Ok?
  }

  function Size(job: Job): nat {
    if job.action.Ok? then |job.action.value.outputs| else 0
  }

  function ActionItems(driver: Driver, job: Job, base: nat, failOnMissing: bool): seq<Result<seq<Output>>>
    requires Ready(job)
  {
    seq(Size(job), j requires 0 <= j < Size(job) =>
      OutputAt(driver, job.kind, job.position, base + j, job.action.value, job.action.value.outputs[j],
               MetadataAt(job.metadata.value, j), failOnMissing))
  }

  function ActionOutputs(driver: Driver, job: Job, base: nat, failOnMissing: bool): Result<seq<Output>> {
    if Ready(job) then Collect(ActionItems(driver, job, base, failOnMissing)) else Err
  }

  function IssueJob(driver: Driver, raw: Bytes, i: nat, metadata: seq<IssueMetadata>): Job {
    var action := driver.issueAction(raw);
    Job(Issue, i, action,
        if action.Ok? && i < |metadata| && MatchesIssue(metadata[i], action.value)
           && |action.value.outputs| == |metadata[i].outputs| then Ok(metadata[i].outputs) else Err)
  }

  function TransferJob(driver: Driver, raw: Bytes, i: nat, metadata: seq<TransferMetadata>): Job {
    var action := driver.transferAction(raw);
    Job(Transfer, i, action,
        if action.Ok? && i < |metadata| && MatchesTransfer(metadata[i], action.value)
           && |action.value.outputs| == |metadata[i].outputs| then Ok(metadata[i].outputs) else Err)
  }

  // ---------------------------------------------------------------------------------------
  // The whole request: issues first, then transfers

  function IssueJobs(driver: Driver, issues: seq<Bytes>, metadata: seq<IssueMetadata>): seq<Job> {
    seq(|issues|, i requires 0 <= i < |issues| => IssueJob(driver, issues[i], i, metadata))
  }

  function TransferJobs(driver: Driver, transfers: seq<Bytes>, metadata: seq<TransferMetadata>): seq<Job> {
    seq(|transfers|, i requires 0 <= i < |transfers| => TransferJob(driver, transfers[i], i, metadata))
  }

  function Jobs(driver: Driver, issues: seq<Bytes>, transfers: seq<Bytes>, entries: seq<Entry>): seq<Job> {
    IssueJobs(driver, issues, IssueEntries(entries)) + TransferJobs(driver, transfers, TransferEntries(entries))
  }

  /** The running counter: every output of an action advances it, present or not. */
  function Base(jobs: seq<Job>, n: nat): nat
    requires n <= |jobs|
  {
    if n == 0 then 0 else Base(jobs, n - 1) + Size(jobs[n - 1])
  }

  function Items(driver: Driver, jobs: seq<Job>, failOnMissing: bool): seq<Result<seq<Output>>> {
    seq(|jobs|, n requires 0 <= n < |jobs| => ActionOutputs(driver, jobs[n], Base(jobs, n), failOnMissing))
  }

  /** The outputs of a request. */
  function Outputs(driver: Driver, jobs: seq<Job>, failOnMissing: bool): Result<seq<Output>> {
    Collect(Items(driver, jobs, failOnMissing))
  }

  /** Extraction succeeds only if it does for every action. */
  lemma {:induction false} ReadyJobs(driver: Driver, jobs: seq<Job>, failOnMissing: bool)
    requires Outputs(driver, jobs, failOnMissing).Ok?
    ensures forall n :: 0 <= n < |jobs| ==>
              Ready(jobs[n]) && ActionOutputs(driver, jobs[n], Base(jobs, n), failOnMissing).Ok?
  {
    var items := Items(driver, jobs, failOnMissing);
    CollectOk(items);
    forall n | 0 <= n < |jobs|
      ensures Ready(jobs[n]) && ActionOutputs(driver, jobs[n], Base(jobs, n), failOnMissing).Ok?
    {
      assert items[n].Ok?;
    }
  }

  // ---------------------------------------------------------------------------------------
  // The loops of the source

  method ExtractRecipients(driver: Driver, kind: Kind, position: nat, counter: nat, raw: Bytes, clear: Clear,
                           issuer: Identity, q: Quantity, metadata: OutputMetadata)
    returns (result: Result<seq<Output>>)
    ensures result == Collect(RecipientOutputs(driver, kind, position, counter, raw, clear, issuer, q, metadata))
  {
    ghost var items := RecipientOutputs(driver, kind, position, counter, raw, clear, issuer, q, metadata);
    var recipients := RecipientsOf(kind, clear);
    var outputs: seq<Output> := [];
    for k := 0 to |recipients|
      invariant Collect(items[..k]) == Ok(outputs)
    {
      var one := RecipientOutput(driver, kind, position, counter, raw, clear, issuer, q, metadata, recipients[k], k);
      CollectNext(items, k);
      if one.Err? {
        CollectErr(items, k);
        return Err;
      }
      outputs := outputs + one.value;
    }
    assert items[..|recipients|] == items;
    return Ok(outputs);
  }

  /** One iteration of `extractIssueOutputs` or `extractTransferOutputs`. */
  method ExtractOutput(driver: Driver, kind: Kind, position: nat, counter: nat, action: Action, output: ActionOutput,
                       metadata: Option<OutputMetadata>, failOnMissing: bool)
    returns (result: Result<seq<Output>>)
    ensures result == OutputAt(driver, kind, position, counter, action, output, metadata, failOnMissing)
  {
    if !output.Serialized? {
      return Err;
    }
    if !Present(kind, metadata) {
      return if failOnMissing then Err else Ok([]);
    }
    var clear := driver.deobfuscate(output.raw, metadata.value.metadata);
    if clear.Err? {
      return Err;
    }
    if kind.Issue? && (clear.value.issuer != action.issuer || clear.value.recipients == []) {
      return Err;
    }
    var q := ToQuantity(clear.value.token.quantity, driver.precision);
    if q.Err? {
      return Err;
    }
    result := ExtractRecipients(driver, kind, position, counter, output.raw, clear.value,
                                IssuerOf(kind, action, clear.value, output.redeem), q.value, metadata.value);
  }

  /** The records of the first outputs of an action have been extracted. */
  ghost predicate ReachedOutput(driver: Driver, job: Job, start: nat, failOnMissing: bool, j: nat,
                                outputs: seq<Output>) {
    Ready(job) && j <= Size(job) && Collect(ActionItems(driver, job, start, failOnMissing)[..j]) == Ok(outputs)
  }

  lemma {:induction false} ReachedNextOutput(driver: Driver, job: Job, start: nat, failOnMissing: bool, j: nat,
                                             outputs: seq<Output>, one: Result<seq<Output>>)
    requires ReachedOutput(driver, job, start, failOnMissing, j, outputs) && j < Size(job)
    requires one == OutputAt(driver, job.kind, job.position, start + j, job.action.value, job.action.value.outputs[j],
                             MetadataAt(job.metadata.value, j), failOnMissing)
    ensures one.Err? ==> ActionOutputs(driver, job, start, failOnMissing).Err?
    ensures one.Ok? ==> ReachedOutput(driver, job, start, failOnMissing, j + 1, outputs + one.value)
  {
    var items := ActionItems(driver, job, start, failOnMissing);
    CollectNext(items, j);
    if one.Err? {
      CollectErr(items, j);
    }
  }

  lemma {:induction false} ReachedLastOutput(driver: Driver, job: Job, start: nat, failOnMissing: bool,
                                             outputs: seq<Output>)
    requires ReachedOutput(driver, job, start, failOnMissing, Size(job), outputs)
    ensures ActionOutputs(driver, job, start, failOnMissing) == Ok(outputs)
  {
    var items := ActionItems(driver, job, start, failOnMissing);
    assert items[..Size(job)] == items;
  }

  /** `extractIssueOutputs` and `extractTransferOutputs`: the counter advances by one per output. */
  method ExtractAction(driver: Driver, job: Job, start: nat, failOnMissing: bool)
    returns (result: Result<seq<Output>>, counter: nat)
    requires Ready(job)
    ensures result == ActionOutputs(driver, job, start, failOnMissing)
    ensures result.Ok? ==> counter == start + Size(job)
  {
    var action := job.action.value;
    var outputs: seq<Output> := [];
    counter := start;
    for j := 0 to |action.outputs|
      invariant ReachedOutput(driver, job, start, failOnMissing, j, outputs)
      invariant counter == start + j
    {
      var one := ExtractOutput(driver, job.kind, job.position, counter, action, action.outputs[j],
                               MetadataAt(job.metadata.value, j), failOnMissing);
      ReachedNextOutput(driver, job, start, failOnMissing, j, outputs, one);
      if one.Err? {
        return Err, counter;
      }
      outputs := outputs + one.value;
      counter := counter + 1;
    }
    ReachedLastOutput(driver, job, start, failOnMissing, outputs);
    return Ok(outputs), counter;
  }

  /** One iteration of either loop of `outputs`. */
  method ExtractNext(driver: Driver, job: Job, counter: nat, outputs: seq<Output>, failOnMissing: bool,
                     ghost jobs: seq<Job>, ghost n: nat)
    returns (result: Result<seq<Output>>, counter': nat)
    requires n < |jobs| && jobs[n] == job && counter == Base(jobs, n)
    requires Collect(Items(driver, jobs, failOnMissing)[..n]) == Ok(outputs)
    ensures result.Err? ==> Outputs(driver, jobs, failOnMissing).Err?
    ensures result.Ok? ==> counter' == Base(jobs, n + 1)
                           && Collect(Items(driver, jobs, failOnMissing)[..n + 1]) == result
  {
    ghost var items := Items(driver, jobs, failOnMissing);
    assert items[n] == ActionOutputs(driver, job, counter, failOnMissing);
    CollectNext(items, n);
    counter' := counter;
    if !Ready(job) {
      CollectErr(items, n);
      return Err, counter';
    }
    var extracted;
    extracted, counter' := ExtractAction(driver, job, counter, failOnMissing);
    if extracted.Err? {
      CollectErr(items, n);
      return Err, counter';
    }
    return Ok(outputs + extracted.value), counter';
  }

  /** The outputs of the first actions have been extracted. */
  ghost predicate Reached(driver: Driver, jobs: seq<Job>, failOnMissing: bool, n: nat, outputs: Result<seq<Output>>,
                          counter: nat) {
    && outputs.Ok? && n <= |jobs|
    && Collect(Items(driver, jobs, failOnMissing)[..n]) == outputs && counter == Base(jobs, n)
  }

  lemma {:induction false} AllReached(driver: Driver, jobs: seq<Job>, failOnMissing: bool, outputs: Result<seq<Output>>,
                                      counter: nat)
    requires Reached(driver, jobs, failOnMissing, |jobs|, outputs, counter)
    ensures outputs == Outputs(driver, jobs, failOnMissing)
  {
    assert Items(driver, jobs, failOnMissing)[..|jobs|] == Items(driver, jobs, failOnMissing);
  }

  method ExtractIssues(driver: Driver, issues: seq<Bytes>, metadata: seq<IssueMetadata>, failOnMissing: bool,
                       ghost jobs: seq<Job>)
    returns (result: Result<seq<Output>>, counter: nat)
    requires |issues| <= |jobs|
    requires forall i :: 0 <= i < |issues| ==> jobs[i] == IssueJob(driver, issues[i], i, metadata)
    ensures result.Err? ==> Outputs(driver, jobs, failOnMissing).Err?
    ensures result.Ok? ==> Reached(driver, jobs, failOnMissing, |issues|, result, counter)
  {
    result, counter := Ok([]), 0;
    for i := 0 to |issues|
      invariant Reached(driver, jobs, failOnMissing, i, result, counter)
    {
      var job := IssueJob(driver, issues[i], i, metadata);
      result, counter := ExtractNext(driver, job, counter, result.value, failOnMissing, jobs, i);
      if result.Err? {
        return;
      }
    }
  }

  method ExtractTransfers(driver: Driver, transfers: seq<Bytes>, metadata: seq<TransferMetadata>, failOnMissing: bool,
                          before: seq<Output>, start: nat, ghost jobs: seq<Job>, ghost offset: nat)
    returns (result: Result<seq<Output>>)
    requires offset + |transfers| == |jobs|
    requires forall i :: 0 <= i < |transfers| ==> jobs[offset + i] == TransferJob(driver, transfers[i], i, metadata)
    requires Reached(driver, jobs, failOnMissing, offset, Ok(before), start)
    ensures result == Outputs(driver, jobs, failOnMissing)
  {
    var counter := start;
    result := Ok(before);
    for i := 0 to |transfers|
      invariant Reached(driver, jobs, failOnMissing, offset + i, result, counter)
    {
      var job := TransferJob(driver, transfers[i], i, metadata);
      result, counter := ExtractNext(driver, job, counter, result.value, failOnMissing, jobs, offset + i);
      if result.Err? {
        return;
      }
    }
    AllReached(driver, jobs, failOnMissing, result, counter);
  }

  /** `outputs`: one loop over the issues, then one over the transfers, sharing the counter. */
  method ExtractOutputs(driver: Driver, issues: seq<Bytes>, transfers: seq<Bytes>, entries: seq<Entry>,
                        failOnMissing: bool)
    returns (result: Result<seq<Output>>)
    ensures result == Outputs(driver, Jobs(driver, issues, transfers, entries), failOnMissing)
  {
    ghost var jobs := Jobs(driver, issues, transfers, entries);
    var counter;
    result, counter := ExtractIssues(driver, issues, IssueEntries(entries), failOnMissing, jobs);
    if result.Ok? {
      result := ExtractTransfers(driver, transfers, TransferEntries(entries), failOnMissing, result.value, counter,
                                 jobs, |issues|);
    }
  }
}
