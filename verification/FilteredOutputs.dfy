/**
 Filtering the metadata of a request for a party and extracting its outputs commute: the party
 sees exactly the outputs whose metadata was kept, at their original positions.
 */
module FilteredOutputs {
  import opened Prelude
  import opened Sequences
  import opened Metadata
  import opened Extraction

  // ---------------------------------------------------------------------------------------
  // Positions

  /** Which outputs of an action have metadata. */
  function Flags(job: Job): (flags: seq<bool>)
    ensures |flags| == Size(job)
  {
    seq(Size(job), j requires 0 <= j < Size(job) =>
      job.metadata.Ok? && MetadataAt(job.metadata.value, j).Some?)
  }

  /** Which absolute positions of the first `n` actions have metadata. */
  function PresenceUpTo(jobs: seq<Job>, n: nat): (presence: seq<bool>)
    requires n <= |jobs|
    ensures |presence| == Base(jobs, n)
  {
    if n == 0 then [] else PresenceUpTo(jobs, n - 1) + Flags(jobs[n - 1])
  }

  function Presence(jobs: seq<Job>): seq<bool> {
    PresenceUpTo(jobs, |jobs|)
  }

  lemma {:induction false} PresenceAt(jobs: seq<Job>, n: nat, m: nat, j: nat)
    requires n < m <= |jobs| && j < Size(jobs[n])
    ensures Base(jobs, n) + j < |PresenceUpTo(jobs, m)|
    ensures PresenceUpTo(jobs, m)[Base(jobs, n) + j] == Flags(jobs[n])[j]
  {
    if n < m - 1 {
      PresenceAt(jobs, n, m - 1, j);
    }
  }

  /** The outputs whose position has metadata. */
  function Keeps(presence: seq<bool>): Output -> bool {
    (o: Output) => o.index < |presence| && presence[o.index]
  }

  /** Every record of an output carries the position of the output. */
  lemma {:induction false} RecordsAt(driver: Driver, kind: Kind, position: nat, index: nat, action: Action,
                                     output: ActionOutput, metadata: Option<OutputMetadata>, failOnMissing: bool,
                                     o: Output)
    requires var result := OutputAt(driver, kind, position, index, action, output, metadata, failOnMissing);
             result.Ok? && o in result.value
    ensures o.index == index && o.kind == kind && o.actionIndex == position
    ensures metadata.Some? && output.Serialized?
    ensures kind.Issue? || o.token.owner != [] ==> o.ledgerOutput == output.raw
    ensures kind.Issue? || o.token.owner != [] ==>
              exists k :: 0 <= k < |metadata.value.receivers| && FromReceiver(driver, metadata.value, k, o)
  {
    var clear := driver.deobfuscate(output.raw, metadata.value.metadata).value;
    var q := Quantities.ToQuantity(clear.token.quantity, driver.precision).value;
    var issuer := IssuerOf(kind, action, clear, output.redeem);
    var items := RecipientOutputs(driver, kind, position, index, output.raw, clear, issuer, q, metadata.value);
    var k := CollectMember(items, o);
    assert items[k] == RecipientOutput(driver, kind, position, index, output.raw, clear, issuer, q, metadata.value,
                                       RecipientsOf(kind, clear)[k], k);
    if kind.Issue? || o.token.owner != [] {
      assert FromReceiver(driver, metadata.value, k, o);
    }
  }

  /** The enrollment ID of the record is that of the k-th receiver. */
  ghost predicate FromReceiver(driver: Driver, metadata: OutputMetadata, k: nat, o: Output)
    requires k < |metadata.receivers|
  {
    var r := metadata.receivers[k];
    && r.Some?
    && driver.wallet.eidAndRh(r.value.identity, r.value.auditInfo).Ok?
    && driver.wallet.eidAndRh(r.value.identity, r.value.auditInfo).value.0 == o.enrollmentId
  }

  // ---------------------------------------------------------------------------------------
  // Narrowing the metadata of actions

  ghost predicate NarrowedOutputs(outputs: seq<Option<OutputMetadata>>, narrowed: seq<Option<OutputMetadata>>) {
    && |narrowed| == |outputs|
    && forall j :: 0 <= j < |outputs| ==> narrowed[j] == None || narrowed[j] == outputs[j]
  }

  /** The same action with some output metadata removed. */
  ghost predicate Narrowed(job: Job, job': Job) {
    && job' == job.(metadata := job'.metadata)
    && job.metadata.Ok? && job'.metadata.Ok?
    && NarrowedOutputs(job.metadata.value, job'.metadata.value)
  }

  lemma {:induction false} AllOrNothing(records: seq<Output>, p: Output -> bool, index: nat, kept: bool)
    requires forall o :: o in records ==> o.index == index
    requires forall o: Output :: o.index == index ==> p(o) == kept
    ensures Filter(records, p) == if kept then records else []
  {
    FilterAll(records, p);
  }

  lemma {:induction false} NarrowedItem(driver: Driver, job: Job, job': Job, base: nat, p: Output -> bool, j: nat)
    requires Ready(job) && Narrowed(job, job') && j < Size(job)
    requires ActionItems(driver, job, base, false)[j].Ok?
    requires forall o: Output :: o.index == base + j ==> p(o) == Flags(job')[j]
    ensures ActionItems(driver, job', base, false)[j] == Ok(Filter(ActionItems(driver, job, base, false)[j].value, p))
  {
    var item := ActionItems(driver, job, base, false)[j];
    var metadata := MetadataAt(job.metadata.value, j);
    forall o | o in item.value ensures o.index == base + j {
      RecordsAt(driver, job.kind, job.position, base + j, job.action.value, job.action.value.outputs[j], metadata,
                false, o);
    }
    AllOrNothing(item.value, p, base + j, Flags(job')[j]);
    if Flags(job')[j] {
      assert MetadataAt(job'.metadata.value, j) == metadata;
    }
  }

  lemma {:induction false} NarrowedAction(driver: Driver, job: Job, job': Job, base: nat, p: Output -> bool)
    requires Ready(job) && Narrowed(job, job')
    requires ActionOutputs(driver, job, base, false).Ok?
    requires forall o: Output, j :: 0 <= j < Size(job) && o.index == base + j ==> p(o) == Flags(job')[j]
    ensures ActionOutputs(driver, job', base, false) == Ok(Filter(ActionOutputs(driver, job, base, false).value, p))
  {
    var items, items' := ActionItems(driver, job, base, false), ActionItems(driver, job', base, false);
    CollectOk(items);
    forall j | 0 <= j < Size(job) ensures items'[j] == Ok(Filter(items[j].value, p)) {
      NarrowedItem(driver, job, job', base, p, j);
    }
    CollectFilter(items, items', p);
  }

  lemma {:induction false} NarrowedBase(jobs: seq<Job>, jobs': seq<Job>, n: nat)
    requires |jobs'| == |jobs| && n <= |jobs|
    requires forall m :: 0 <= m < |jobs| ==> jobs'[m].action == jobs[m].action
    ensures Base(jobs', n) == Base(jobs, n)
  {
    if n > 0 {
      NarrowedBase(jobs, jobs', n - 1);
    }
  }

  lemma {:induction false} KeptAt(jobs': seq<Job>, n: nat)
    requires n < |jobs'|
    ensures forall o: Output, j ::
              0 <= j < Size(jobs'[n]) && o.index == Base(jobs', n) + j ==>
                Keeps(Presence(jobs'))(o) == Flags(jobs'[n])[j]
  {
    forall o: Output, j | 0 <= j < Size(jobs'[n]) && o.index == Base(jobs', n) + j
      ensures Keeps(Presence(jobs'))(o) == Flags(jobs'[n])[j]
    {
      PresenceAt(jobs', n, |jobs'|, j);
    }
  }

  lemma {:induction false} NarrowedItems(driver: Driver, jobs: seq<Job>, jobs': seq<Job>, n: nat)
    requires |jobs'| == |jobs| && n < |jobs|
    requires forall m :: 0 <= m < |jobs| ==> jobs'[m].action == jobs[m].action
    requires Ready(jobs[n]) && Narrowed(jobs[n], jobs'[n])
    requires ActionOutputs(driver, jobs[n], Base(jobs, n), false).Ok?
    ensures ActionOutputs(driver, jobs'[n], Base(jobs', n), false)
         == Ok(Filter(ActionOutputs(driver, jobs[n], Base(jobs, n), false).value, Keeps(Presence(jobs'))))
  {
    NarrowedBase(jobs, jobs', n);
    KeptAt(jobs', n);
    NarrowedAction(driver, jobs[n], jobs'[n], Base(jobs, n), Keeps(Presence(jobs')));
  }

  /** Removing metadata removes exactly the records at the positions that lost it. */
  lemma {:induction false} NarrowedOutputsAreFiltered(driver: Driver, jobs: seq<Job>, jobs': seq<Job>)
    requires |jobs'| == |jobs|
    requires forall n :: 0 <= n < |jobs| ==> Ready(jobs[n]) && Narrowed(jobs[n], jobs'[n])
    requires Outputs(driver, jobs, false).Ok?
    ensures Outputs(driver, jobs', false) == Ok(Filter(Outputs(driver, jobs, false).value, Keeps(Presence(jobs'))))
  {
    var items, items' := Items(driver, jobs, false), Items(driver, jobs', false);
    CollectOk(items);
    forall n | 0 <= n < |jobs| ensures items'[n] == Ok(Filter(items[n].value, Keeps(Presence(jobs')))) {
      assert items[n].Ok?;
      NarrowedItems(driver, jobs, jobs', n);
    }
    CollectFilter(items, items', Keeps(Presence(jobs')));
  }

  // ---------------------------------------------------------------------------------------
  // Filtering by enrollment ID

  lemma {:induction false} FilteringNarrows(wallet: Wallet, outputs: seq<Option<OutputMetadata>>, eIDs: set<string>)
    requires UnfilteredOutputs(outputs) && FilterOutputs(wallet, outputs, eIDs).Ok?
    ensures NarrowedOutputs(outputs, FilterOutputs(wallet, outputs, eIDs).value)
  {
    forall j | 0 <= j < |outputs|
      ensures var narrowed := FilterOutputs(wallet, outputs, eIDs).value[j]; narrowed == None || narrowed == outputs[j]
    {
      FilterOutputsAt(wallet, outputs, eIDs, j);
    }
  }

  /** The same action with its metadata filtered. */
  ghost predicate FilteredFor(wallet: Wallet, eIDs: set<string>, job: Job, job': Job) {
    && job' == job.(metadata := job'.metadata)
    && job.metadata.Ok? && UnfilteredOutputs(job.metadata.value)
    && job'.metadata.Ok? && job'.metadata == FilterOutputs(wallet, job.metadata.value, eIDs)
  }

  lemma {:induction false} FilteredIssueJob(driver: Driver, raw: Bytes, i: nat, metadata: seq<IssueMetadata>,
                                            metadata': seq<IssueMetadata>, eIDs: set<string>)
    requires i < |metadata| == |metadata'| && UnfilteredOutputs(metadata[i].outputs)
    requires FilterIssue(driver.wallet, metadata[i], eIDs) == Ok(metadata'[i])
    requires Ready(IssueJob(driver, raw, i, metadata))
    ensures FilteredFor(driver.wallet, eIDs, IssueJob(driver, raw, i, metadata), IssueJob(driver, raw, i, metadata'))
  {
    assert metadata'[i].extraSigners == metadata[i].extraSigners;
  }

  /** The filtered metadata names no issuer, so it matches exactly the actions that name none. */
  lemma {:induction false} FilteredTransferJob(driver: Driver, raw: Bytes, i: nat, metadata: seq<TransferMetadata>,
                                               metadata': seq<TransferMetadata>, eIDs: set<string>)
    requires i < |metadata| == |metadata'| && UnfilteredOutputs(metadata[i].outputs) && NoNilInput(metadata[i].inputs)
    requires FilterTransfer(driver.wallet, metadata[i], eIDs) == Ok(metadata'[i])
    requires Ready(TransferJob(driver, raw, i, metadata))
    ensures IssuerIdentity(metadata[i]) == [] ==>
              FilteredFor(driver.wallet, eIDs, TransferJob(driver, raw, i, metadata),
                          TransferJob(driver, raw, i, metadata'))
    ensures IssuerIdentity(metadata[i]) != [] ==> TransferJob(driver, raw, i, metadata').metadata.Err?
  {
    assert metadata'[i].extraSigners == metadata[i].extraSigners;
  }

  /** None of the first `n` transfers names an issuer. */
  predicate NoTransferIssuer(metadata: seq<TransferMetadata>, n: nat)
    requires n <= |metadata|
  {
    forall k :: 0 <= k < n ==> IssuerIdentity(metadata[k]) == []
  }

  /** A request whose outputs can be extracted has metadata for every issue. */
  lemma {:induction false} IssueMetadataForAll(driver: Driver, issues: seq<Bytes>, transfers: seq<Bytes>,
                                               entries: seq<Entry>)
    requires Outputs(driver, Jobs(driver, issues, transfers, entries), false).Ok?
    ensures |issues| <= |IssueEntries(entries)|
    ensures forall i :: 0 <= i < |issues| ==> Ready(IssueJob(driver, issues[i], i, IssueEntries(entries)))
  {
    var jobs := Jobs(driver, issues, transfers, entries);
    ReadyJobs(driver, jobs, false);
    forall i | 0 <= i < |issues| ensures Ready(IssueJob(driver, issues[i], i, IssueEntries(entries))) {
      assert jobs[i] == IssueJob(driver, issues[i], i, IssueEntries(entries));
    }
    if |issues| > 0 {
      assert Ready(IssueJob(driver, issues[|issues| - 1], |issues| - 1, IssueEntries(entries)));
    }
  }

  lemma {:induction false} TransferJobAt(driver: Driver, issues: seq<Bytes>, transfers: seq<Bytes>, entries: seq<Entry>,
                                         i: nat)
    requires i < |transfers|
    ensures |Jobs(driver, issues, transfers, entries)| == |issues| + |transfers|
    ensures Jobs(driver, issues, transfers, entries)[|issues| + i]
         == TransferJob(driver, transfers[i], i, TransferEntries(entries))
  {
  }

  lemma {:induction false} TransferMetadataForAll(driver: Driver, issues: seq<Bytes>, transfers: seq<Bytes>,
                                                  entries: seq<Entry>)
    requires Outputs(driver, Jobs(driver, issues, transfers, entries), false).Ok?
    ensures |transfers| <= |TransferEntries(entries)|
    ensures forall i :: 0 <= i < |transfers| ==> Ready(TransferJob(driver, transfers[i], i, TransferEntries(entries)))
  {
    var jobs := Jobs(driver, issues, transfers, entries);
    ReadyJobs(driver, jobs, false);
    forall i | 0 <= i < |transfers| ensures Ready(TransferJob(driver, transfers[i], i, TransferEntries(entries))) {
      TransferJobAt(driver, issues, transfers, entries, i);
      assert Ready(jobs[|issues| + i]);
    }
    if |transfers| > 0 {
      assert Ready(TransferJob(driver, transfers[|transfers| - 1], |transfers| - 1, TransferEntries(entries)));
    }
  }

  /** Everything the theorems below assume: a request, not filtered before, whose outputs can be extracted. */
  ghost predicate Filterable(driver: Driver, issues: seq<Bytes>, transfers: seq<Bytes>, entries: seq<Entry>,
                             eIDs: set<string>) {
    && UnfilteredAll(entries) && NeverBoth(entries)
    && Outputs(driver, Jobs(driver, issues, transfers, entries), false).Ok?
    && FilterEntries(driver.wallet, entries, eIDs).Ok?
  }

  /** The actions as the party with the enrollment IDs sees them. */
  function FilteredJobs(driver: Driver, issues: seq<Bytes>, transfers: seq<Bytes>, entries: seq<Entry>,
                        eIDs: set<string>)
    : seq<Job>
    requires UnfilteredAll(entries) && FilterEntries(driver.wallet, entries, eIDs).Ok?
  {
    Jobs(driver, issues, transfers, FilterEntries(driver.wallet, entries, eIDs).value)
  }

  lemma {:induction false} FilteredIssueAt(driver: Driver, issues: seq<Bytes>, transfers: seq<Bytes>,
                                           entries: seq<Entry>, eIDs: set<string>, k: nat)
    requires Filterable(driver, issues, transfers, entries, eIDs) && k < |issues|
    ensures FilteredFor(driver.wallet, eIDs, Jobs(driver, issues, transfers, entries)[k],
                        FilteredJobs(driver, issues, transfers, entries, eIDs)[k])
  {
    IssueMetadataForAll(driver, issues, transfers, entries);
    FilterProjectsIssues(driver.wallet, entries, eIDs);
    var filtered := FilterEntries(driver.wallet, entries, eIDs).value;
    FilteredIssueJob(driver, issues[k], k, IssueEntries(entries), IssueEntries(filtered), eIDs);
  }

  lemma {:induction false} TransferProjects(wallet: Wallet, entries: seq<Entry>, eIDs: set<string>, k: nat)
    requires UnfilteredAll(entries) && NeverBoth(entries) && FilterEntries(wallet, entries, eIDs).Ok?
    requires k < |TransferEntries(entries)|
    ensures var transfers, transfers' :=
              TransferEntries(entries), TransferEntries(FilterEntries(wallet, entries, eIDs).value);
            && |transfers'| == |transfers|
            && UnfilteredOutputs(transfers[k].outputs) && NoNilInput(transfers[k].inputs)
            && FilterTransfer(wallet, transfers[k], eIDs) == Ok(transfers'[k])
  {
    FilterProjectsTransfers(wallet, entries, eIDs);
  }

  lemma {:induction false} FilteredTransferAt(driver: Driver, issues: seq<Bytes>, transfers: seq<Bytes>,
                                              entries: seq<Entry>, eIDs: set<string>, k: nat)
    requires Filterable(driver, issues, transfers, entries, eIDs) && k < |transfers| <= |TransferEntries(entries)|
    ensures if IssuerIdentity(TransferEntries(entries)[k]) == []
            then FilteredFor(driver.wallet, eIDs, Jobs(driver, issues, transfers, entries)[|issues| + k],
                             FilteredJobs(driver, issues, transfers, entries, eIDs)[|issues| + k])
            else FilteredJobs(driver, issues, transfers, entries, eIDs)[|issues| + k].metadata.Err?
  {
    TransferMetadataForAll(driver, issues, transfers, entries);
    TransferProjects(driver.wallet, entries, eIDs, k);
    var filtered := FilterEntries(driver.wallet, entries, eIDs).value;
    FilteredTransferJob(driver, transfers[k], k, TransferEntries(entries), TransferEntries(filtered), eIDs);
  }

  lemma {:induction false} FilteredJobAt(driver: Driver, issues: seq<Bytes>, transfers: seq<Bytes>, entries: seq<Entry>,
                                         eIDs: set<string>, n: nat)
    requires Filterable(driver, issues, transfers, entries, eIDs) && n < |issues| + |transfers|
    requires |transfers| <= |TransferEntries(entries)| && NoTransferIssuer(TransferEntries(entries), |transfers|)
    ensures FilteredFor(driver.wallet, eIDs, Jobs(driver, issues, transfers, entries)[n],
                        FilteredJobs(driver, issues, transfers, entries, eIDs)[n])
  {
    if n < |issues| {
      FilteredIssueAt(driver, issues, transfers, entries, eIDs, n);
    } else {
      FilteredTransferAt(driver, issues, transfers, entries, eIDs, n - |issues|);
    }
  }

  /**
   Filtering and extracting commute: the outputs of a filtered request are the outputs of the
   request at the positions that were kept, in order and unchanged. They can be extracted if and
   only if no transfer of the request names an issuer.
   */
  lemma {:induction false} FilterCommutesWithExtraction(driver: Driver, issues: seq<Bytes>, transfers: seq<Bytes>,
                                                        entries: seq<Entry>, eIDs: set<string>)
    requires Filterable(driver, issues, transfers, entries, eIDs)
    ensures |transfers| <= |TransferEntries(entries)|
    ensures var jobs' := FilteredJobs(driver, issues, transfers, entries, eIDs);
            if NoTransferIssuer(TransferEntries(entries), |transfers|)
            then Outputs(driver, jobs', false)
                 == Ok(Filter(Outputs(driver, Jobs(driver, issues, transfers, entries), false).value,
                              Keeps(Presence(jobs'))))
            else Outputs(driver, jobs', false).Err?
  {
    TransferMetadataForAll(driver, issues, transfers, entries);
    var jobs, jobs' := Jobs(driver, issues, transfers, entries), FilteredJobs(driver, issues, transfers, entries, eIDs);
    if NoTransferIssuer(TransferEntries(entries), |transfers|) {
      ReadyJobs(driver, jobs, false);
      forall n | 0 <= n < |jobs| ensures Ready(jobs[n]) && Narrowed(jobs[n], jobs'[n]) {
        FilteredJobAt(driver, issues, transfers, entries, eIDs, n);
        FilteringNarrows(driver.wallet, jobs[n].metadata.value, eIDs);
      }
      NarrowedOutputsAreFiltered(driver, jobs, jobs');
    } else {
      var k :| 0 <= k < |transfers| && IssuerIdentity(TransferEntries(entries)[k]) != [];
      FilteredTransferAt(driver, issues, transfers, entries, eIDs, k);
      CollectErr(Items(driver, jobs', false), |issues| + k);
    }
  }

  /**
   Where all transfer metadata is in use, a filtered request cannot be extracted if some entry has
   metadata of both kinds, because filtering drops its transfer.
   */
  lemma {:induction false} BothKindsFail(driver: Driver, issues: seq<Bytes>, transfers: seq<Bytes>, entries: seq<Entry>,
                                         eIDs: set<string>)
    requires UnfilteredAll(entries) && FilterEntries(driver.wallet, entries, eIDs).Ok?
    requires |transfers| == |TransferEntries(entries)| && !NeverBoth(entries)
    ensures Outputs(driver, FilteredJobs(driver, issues, transfers, entries, eIDs), false).Err?
  {
    FilterKeepsTransfers(driver.wallet, entries, eIDs);
    var jobs' := FilteredJobs(driver, issues, transfers, entries, eIDs);
    var n := |issues| + |transfers| - 1;
    assert jobs'[n].metadata.Err?;
    CollectErr(Items(driver, jobs', false), n);
  }

  /** Where all transfer metadata is in use, this is exactly when a filtered request can be extracted. */
  lemma {:induction false} FilteredExtractable(driver: Driver, issues: seq<Bytes>, transfers: seq<Bytes>,
                                               entries: seq<Entry>, eIDs: set<string>)
    requires UnfilteredAll(entries) && FilterEntries(driver.wallet, entries, eIDs).Ok?
    requires Outputs(driver, Jobs(driver, issues, transfers, entries), false).Ok?
    requires |transfers| == |TransferEntries(entries)|
    ensures Outputs(driver, FilteredJobs(driver, issues, transfers, entries, eIDs), false).Ok?
            <==> NeverBoth(entries) && NoTransferIssuer(TransferEntries(entries), |transfers|)
  {
    if NeverBoth(entries) {
      FilterCommutesWithExtraction(driver, issues, transfers, entries, eIDs);
    } else {
      BothKindsFail(driver, issues, transfers, entries, eIDs);
    }
  }

  /** The metadata of one transfer without inputs and outputs that names an issuer. */
  function IssuedTransfer(issuer: Identity): TransferMetadata {
    TransferMetadata([], [], [], Some(AuditableIdentity(issuer, [])))
  }

  lemma {:induction false} IssuedTransferExtracts(driver: Driver, raw: Bytes, issuer: Identity, entries: seq<Entry>)
    requires driver.transferAction(raw) == Ok(Action(true, 0, 0, [], issuer, []))
    requires TransferEntries(entries) == [IssuedTransfer(issuer)]
    ensures Outputs(driver, Jobs(driver, [], [raw], entries), false) == Ok([])
  {
    var jobs := Jobs(driver, [], [raw], entries);
    assert jobs[0] == TransferJob(driver, raw, 0, TransferEntries(entries));
    assert ActionItems(driver, jobs[0], 0, false) == [];
    var items := Items(driver, jobs, false);
    assert items[0] == Ok([]) && items[..0] == [] && items[..1] == items;
    CollectNext(items, 0);
    assert [] + items[0].value == [];
  }

  lemma {:induction false} IssuedTransferFilters(wallet: Wallet, issuer: Identity, eIDs: set<string>)
    ensures var entries := [Entry(0, None, Some(IssuedTransfer(issuer)))];
            && TransferEntries(entries) == [IssuedTransfer(issuer)]
            && UnfilteredAll(entries) && NeverBoth(entries) && FilterEntries(wallet, entries, eIDs).Ok?
  {
    var entries := [Entry(0, None, Some(IssuedTransfer(issuer)))];
    assert entries[..0] == [];
    assert FilterEntries(wallet, entries[..0], eIDs) == Ok([]);
    assert FilterEntry(wallet, entries[0], eIDs).Ok?;
  }

  /** A transfer whose metadata names an issuer: its outputs are extracted, those of the filtered request are not. */
  lemma {:induction false} IssuerIsLost(driver: Driver, raw: Bytes, issuer: Identity, eIDs: set<string>)
    requires issuer != []
    requires driver.transferAction(raw) == Ok(Action(true, 0, 0, [], issuer, []))
    ensures var entries := [Entry(0, None, Some(IssuedTransfer(issuer)))];
            && Outputs(driver, Jobs(driver, [], [raw], entries), false) == Ok([])
            && UnfilteredAll(entries) && FilterEntries(driver.wallet, entries, eIDs).Ok?
            && Outputs(driver, FilteredJobs(driver, [], [raw], entries, eIDs), false).Err?
  {
    var entries := [Entry(0, None, Some(IssuedTransfer(issuer)))];
    IssuedTransferFilters(driver.wallet, issuer, eIDs);
    IssuedTransferExtracts(driver, raw, issuer, entries);
    FilterCommutesWithExtraction(driver, [], [raw], entries, eIDs);
  }

  // ---------------------------------------------------------------------------------------
  // What a party sees

  /** The record of an owned output has the enrollment ID of one of its receivers. */
  ghost predicate OwnedRecord(driver: Driver, metadata: OutputMetadata, o: Output) {
    o.kind.Issue? || o.token.owner != [] ==>
      exists k :: 0 <= k < |metadata.receivers| && FromReceiver(driver, metadata, k, o)
  }

  /** The record carries the bytes of the output, unless it has no owner. */
  predicate IsFrom(o: Output, output: ActionOutput) {
    output.Serialized? && (o.kind.Issue? || o.token.owner != [] ==> o.ledgerOutput == output.raw)
  }

  lemma {:induction false} ActionOrigin(driver: Driver, job: Job, base: nat, o: Output) returns (j: nat)
    requires var outputs := ActionOutputs(driver, job, base, false); outputs.Ok? && o in outputs.value
    ensures Ready(job) && j < Size(job) && o.index == base + j
    ensures o.kind == job.kind && o.actionIndex == job.position && IsFrom(o, job.action.value.outputs[j])
    ensures j < |job.metadata.value| && job.metadata.value[j].Some?
    ensures OwnedRecord(driver, job.metadata.value[j].value, o)
  {
    j := CollectMember(ActionItems(driver, job, base, false), o);
    RecordsAt(driver, job.kind, job.position, base + j, job.action.value, job.action.value.outputs[j],
              MetadataAt(job.metadata.value, j), false, o);
  }

  /** Every record comes from an output of an action. */
  lemma {:induction false} Origin(driver: Driver, jobs: seq<Job>, o: Output) returns (n: nat, j: nat)
    requires var outputs := Outputs(driver, jobs, false); outputs.Ok? && o in outputs.value
    ensures n < |jobs| && Ready(jobs[n]) && j < Size(jobs[n]) && o.index == Base(jobs, n) + j
    ensures o.kind == jobs[n].kind && o.actionIndex == jobs[n].position && IsFrom(o, jobs[n].action.value.outputs[j])
    ensures j < |jobs[n].metadata.value| && jobs[n].metadata.value[j].Some?
    ensures OwnedRecord(driver, jobs[n].metadata.value[j].value, o)
  {
    n := CollectMember(Items(driver, jobs, false), o);
    j := ActionOrigin(driver, jobs[n], Base(jobs, n), o);
  }

  /** The outputs of the first actions, one after the other. */
  function LedgerOutputs(jobs: seq<Job>, n: nat): (outputs: seq<ActionOutput>)
    requires n <= |jobs|
  {
    if n == 0 then []
    else LedgerOutputs(jobs, n - 1) + if jobs[n - 1].action.Ok? then jobs[n - 1].action.value.outputs else []
  }

  lemma {:induction false} LedgerOutputAt(jobs: seq<Job>, n: nat, m: nat, j: nat)
    requires n < m <= |jobs| && j < Size(jobs[n])
    ensures |LedgerOutputs(jobs, n)| == Base(jobs, n) && Base(jobs, n) + j < |LedgerOutputs(jobs, m)|
    ensures LedgerOutputs(jobs, m)[Base(jobs, n) + j] == jobs[n].action.value.outputs[j]
  {
    LedgerSize(jobs, n);
    if n < m - 1 {
      LedgerOutputAt(jobs, n, m - 1, j);
    }
  }

  lemma {:induction false} LedgerSize(jobs: seq<Job>, n: nat)
    requires n <= |jobs|
    ensures |LedgerOutputs(jobs, n)| == Base(jobs, n)
  {
    if n > 0 {
      LedgerSize(jobs, n - 1);
    }
  }

  /** The index of a record is the position of its output among all outputs of the request. */
  lemma {:induction false} IndexIsPosition(driver: Driver, jobs: seq<Job>, o: Output)
    requires var outputs := Outputs(driver, jobs, false); outputs.Ok? && o in outputs.value
    ensures o.index < |LedgerOutputs(jobs, |jobs|)| && IsFrom(o, LedgerOutputs(jobs, |jobs|)[o.index])
  {
    var n, j := Origin(driver, jobs, o);
    LedgerOutputAt(jobs, n, |jobs|, j);
  }

  /** Under a consistent wallet, the party a record names is one the output is shared with. */
  lemma {:induction false} NamedIsKept(driver: Driver, outputs: seq<Option<OutputMetadata>>, eIDs: set<string>, j: nat,
                                       o: Output)
    requires UnfilteredOutputs(outputs) && j < |outputs| && FilterOutputs(driver.wallet, outputs, eIDs).Ok?
    requires OwnedRecord(driver, outputs[j].value, o) && (o.kind.Issue? || o.token.owner != [])
    requires Consistent(driver.wallet) && o.enrollmentId in eIDs
    ensures FilterOutputs(driver.wallet, outputs, eIDs).value[j].Some?
  {
    FilterOutputsAt(driver.wallet, outputs, eIDs, j);
    var m := outputs[j].value;
    ContainsMeaning(driver.wallet, m.receivers, eIDs);
    var k :| 0 <= k < |m.receivers| && FromReceiver(driver, m, k, o);
    if !HasEid(driver.wallet, m.receivers[k].value, eIDs) {
      var l :| 0 <= l < |m.receivers[..k]| && HasEid(driver.wallet, m.receivers[..k][l].value, eIDs);
      assert m.receivers[l] == m.receivers[..k][l];
    }
  }

  /**
   A party sees a record of the request if and only if the output it comes from has a receiver with
   one of the party's enrollment IDs, and it loses no record that names one of them.
   */
  lemma {:induction false} PartySeesItsOutputs(driver: Driver, issues: seq<Bytes>, transfers: seq<Bytes>,
                                               entries: seq<Entry>, eIDs: set<string>, o: Output)
    returns (n: nat, j: nat)
    requires Filterable(driver, issues, transfers, entries, eIDs)
    requires |transfers| <= |TransferEntries(entries)| && NoTransferIssuer(TransferEntries(entries), |transfers|)
    requires o in Outputs(driver, Jobs(driver, issues, transfers, entries), false).value
    ensures var jobs := Jobs(driver, issues, transfers, entries);
            && n < |jobs| && jobs[n].metadata.Ok? && o.index == Base(jobs, n) + j
            && j < |jobs[n].metadata.value| && jobs[n].metadata.value[j].Some?
    ensures var seen := Outputs(driver, FilteredJobs(driver, issues, transfers, entries, eIDs), false);
            var m := Jobs(driver, issues, transfers, entries)[n].metadata.value[j].value;
            && seen.Ok?
            && (o in seen.value <==> SharedWith(driver.wallet, m.receivers, eIDs))
            && (Consistent(driver.wallet) && o.enrollmentId in eIDs && (o.kind.Issue? || o.token.owner != []) ==>
                  o in seen.value)
  {
    var jobs, jobs' := Jobs(driver, issues, transfers, entries), FilteredJobs(driver, issues, transfers, entries, eIDs);
    n, j := Origin(driver, jobs, o);
    FilteredJobAt(driver, issues, transfers, entries, eIDs, n);
    KeptIffShared(driver.wallet, jobs[n].metadata.value, eIDs, j);
    if Consistent(driver.wallet) && o.enrollmentId in eIDs && (o.kind.Issue? || o.token.owner != []) {
      NamedIsKept(driver, jobs[n].metadata.value, eIDs, j, o);
    }
    SameBase(driver, issues, transfers, entries, eIDs, n);
    KeptAt(jobs', n);
    assert Keeps(Presence(jobs'))(o) == Flags(jobs'[n])[j];
    FilterCommutesWithExtraction(driver, issues, transfers, entries, eIDs);
    FilterMember(Outputs(driver, jobs, false).value, Keeps(Presence(jobs')), o);
  }

  lemma {:induction false} SameBase(driver: Driver, issues: seq<Bytes>, transfers: seq<Bytes>, entries: seq<Entry>,
                                    eIDs: set<string>, n: nat)
    requires UnfilteredAll(entries) && FilterEntries(driver.wallet, entries, eIDs).Ok?
    requires n <= |issues| + |transfers|
    ensures Base(FilteredJobs(driver, issues, transfers, entries, eIDs), n)
         == Base(Jobs(driver, issues, transfers, entries), n)
  {
    NarrowedBase(Jobs(driver, issues, transfers, entries), FilteredJobs(driver, issues, transfers, entries, eIDs), n);
  }
}
