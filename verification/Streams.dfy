/**
 Streams of outputs and inputs (token/stream.go): filtering, keeping one record per token and
 enrollment ID, and summing.
 */
module Streams {
  import opened Prelude
  import opened Sequences
  import opened Quantities
  import opened Tokens
  import opened Metadata
  import opened Extraction

  // ---------------------------------------------------------------------------------------
  // Keeping the first element per key

  predicate Occurs<T, K(==)>(s: seq<T>, key: T -> Option<K>, k: K) {
    exists i :: 0 <= i < |s| && key(s[i]) == Some(k)
  }

  predicate IsNew<T, K(==)>(s: seq<T>, key: T -> Option<K>, x: T) {
    key(x).Some? ==> !Occurs(s, key, key(x).value)
  }

  /** The first element for each key, and every element without a key. */
  function FirstPerKey<T, K(==)>(s: seq<T>, key: T -> Option<K>): seq<T> {
    if s == [] then []
    else
      var n := |s| - 1;
      var before := FirstPerKey(s[..n], key);
      if IsNew(s[..n], key, s[n]) then before + [s[n]] else before
  }

  /** No earlier element has the same key. */
  predicate FirstAt<T, K(==)>(s: seq<T>, key: T -> Option<K>, i: nat)
    requires i < |s|
  {
    key(s[i]).Some? ==> forall j :: 0 <= j < i ==> key(s[j]) != key(s[i])
  }

  lemma {:induction false} FirstAtPrefix<T, K>(s: seq<T>, key: T -> Option<K>, n: nat, i: nat)
    requires i < n <= |s|
    ensures FirstAt(s[..n], key, i) == FirstAt(s, key, i)
  {
    assert forall j :: 0 <= j <= i ==> s[..n][j] == s[j];
  }

  lemma {:induction false} FirstIsNew<T, K>(s: seq<T>, key: T -> Option<K>, n: nat)
    requires n < |s|
    ensures FirstAt(s, key, n) == IsNew(s[..n], key, s[n])
  {
    assert forall j :: 0 <= j < n ==> s[..n][j] == s[j];
  }

  /** The positions are those of the first occurrences. */
  ghost predicate AllFirsts<T, K>(s: seq<T>, key: T -> Option<K>, at: seq<nat>) {
    forall i: nat | i < |s| :: i in at <==> FirstAt(s, key, i)
  }

  lemma {:induction false} AllFirstsNext<T, K>(s: seq<T>, key: T -> Option<K>, at: seq<nat>, n: nat)
    requires |s| == n + 1 && AllFirsts(s[..n], key, at) && forall m :: 0 <= m < |at| ==> at[m] < n
    ensures AllFirsts(s, key, if FirstAt(s, key, n) then at + [n] else at)
  {
    forall i: nat | i < n ensures i in at <==> FirstAt(s, key, i) {
      FirstAtPrefix(s, key, n, i);
    }
  }

  /**
   The kept elements are, in order, those at exactly the positions that hold no key or the first
   occurrence of their key.
   */
  lemma {:induction false} FirstPerKeyPositions<T, K>(s: seq<T>, key: T -> Option<K>) returns (at: seq<nat>)
    ensures Selects(s, at, FirstPerKey(s, key)) && AllFirsts(s, key, at)
  {
    at := [];
    if s != [] {
      var n := |s| - 1;
      at := FirstPerKeyPositions(s[..n], key);
      SelectsNext(s, at, FirstPerKey(s[..n], key), n);
      FirstIsNew(s, key, n);
      AllFirstsNext(s, key, at, n);
      if FirstAt(s, key, n) {
        at := at + [n];
      }
    }
  }

  lemma {:induction false} FirstPerKeyOccurs<T, K>(s: seq<T>, key: T -> Option<K>, k: K)
    ensures Occurs(FirstPerKey(s, key), key, k) <==> Occurs(s, key, k)
  {
    if s != [] {
      var n := |s| - 1;
      FirstPerKeyOccurs(s[..n], key, k);
      OccursSnoc(s[..n], key, k, s[n]);
      OccursSnoc(FirstPerKey(s[..n], key), key, k, s[n]);
      assert s == s[..n] + [s[n]];
    }
  }

  lemma {:induction false} OccursSnoc<T, K>(s: seq<T>, key: T -> Option<K>, k: K, x: T)
    ensures Occurs(s + [x], key, k) <==> Occurs(s, key, k) || key(x) == Some(k)
  {
    if Occurs(s, key, k) {
      var i :| 0 <= i < |s| && key(s[i]) == Some(k);
      assert (s + [x])[i] == s[i];
    }
    if key(x) == Some(k) {
      assert (s + [x])[|s|] == x;
    }
  }

  lemma {:induction false} FirstPerKeySnoc<T, K>(s: seq<T>, key: T -> Option<K>, x: T)
    ensures FirstPerKey(s + [x], key) == if IsNew(s, key, x) then FirstPerKey(s, key) + [x] else FirstPerKey(s, key)
  {
    assert (s + [x])[..|s|] == s;
  }

  lemma {:induction false} FirstPerKeyIdempotent<T, K>(s: seq<T>, key: T -> Option<K>)
    ensures FirstPerKey(FirstPerKey(s, key), key) == FirstPerKey(s, key)
  {
    if s != [] {
      var n := |s| - 1;
      FirstPerKeyIdempotent(s[..n], key);
      if IsNew(s[..n], key, s[n]) {
        if key(s[n]).Some? {
          FirstPerKeyOccurs(s[..n], key, key(s[n]).value);
        }
        FirstPerKeySnoc(FirstPerKey(s[..n], key), key, s[n]);
      }
    }
  }

  /** Parts that share no key can be treated one by one. */
  lemma {:induction false} FirstPerKeyConcat<T, K>(a: seq<T>, b: seq<T>, key: T -> Option<K>)
    requires forall i :: 0 <= i < |b| ==> IsNew(a, key, b[i])
    ensures FirstPerKey(a + b, key) == FirstPerKey(a, key) + FirstPerKey(b, key)
  {
    if b == [] {
      assert a + b == a;
    } else {
      var n := |b| - 1;
      FirstPerKeyConcat(a, b[..n], key);
      assert a + b == (a + b[..n]) + [b[n]];
      FirstPerKeySnoc(a + b[..n], key, b[n]);
      if key(b[n]).Some? {
        OccursConcat(a, b[..n], key, key(b[n]).value);
      }
    }
  }

  lemma {:induction false} OccursConcat<T, K>(a: seq<T>, b: seq<T>, key: T -> Option<K>, k: K)
    ensures Occurs(a + b, key, k) <==> Occurs(a, key, k) || Occurs(b, key, k)
  {
    if Occurs(a, key, k) {
      var i :| 0 <= i < |a| && key(a[i]) == Some(k);
      assert (a + b)[i] == a[i];
    }
    if Occurs(b, key, k) {
      var i :| 0 <= i < |b| && key(b[i]) == Some(k);
      assert (a + b)[|a| + i] == b[i];
    }
  }

  // ---------------------------------------------------------------------------------------
  // Output streams

  function OutputKey(o: Output): Option<(nat, string)> {
    Some((o.index, o.enrollmentId))
  }

  function SumOf(outputs: seq<Output>): int {
    if outputs == [] then 0 else SumOf(outputs[..|outputs| - 1]) + outputs[|outputs| - 1].quantity.value
  }

  function HasEnrollmentId(e: string): Output -> bool {
    (o: Output) => o.enrollmentId == e
  }

  /** `Filter`. */
  method FilterStream<T>(stream: seq<T>, f: T -> bool) returns (filtered: seq<T>)
    ensures filtered == Filter(stream, f)
  {
    filtered := [];
    for i := 0 to |stream|
      invariant filtered == Filter(stream[..i], f)
    {
      assert stream[..i + 1][..i] == stream[..i];
      if f(stream[i]) {
        filtered := filtered + [stream[i]];
      }
    }
    assert stream[..|stream|] == stream;
  }

  /** `UniquePerOutput`. */
  method UniquePerOutput(outputs: seq<Output>) returns (filtered: seq<Output>)
    ensures filtered == FirstPerKey(outputs, OutputKey)
  {
    var seen: set<(nat, string)> := {};
    filtered := [];
    for i := 0 to |outputs|
      invariant filtered == FirstPerKey(outputs[..i], OutputKey)
      invariant forall k :: k in seen <==> Occurs(outputs[..i], OutputKey, k)
    {
      var k := (outputs[i].index, outputs[i].enrollmentId);
      assert outputs[..i + 1] == outputs[..i] + [outputs[i]];
      FirstPerKeySnoc(outputs[..i], OutputKey, outputs[i]);
      forall l ensures Occurs(outputs[..i + 1], OutputKey, l) <==> Occurs(outputs[..i], OutputKey, l) || l == k {
        OccursSnoc(outputs[..i], OutputKey, l, outputs[i]);
      }
      if k !in seen {
        seen := seen + {k};
        filtered := filtered + [outputs[i]];
      }
    }
    assert outputs[..|outputs|] == outputs;
  }

  /** Two records of the same output for the same enrollment ID. */
  predicate SameOutput(a: Output, b: Output) {
    a.index == b.index && a.enrollmentId == b.enrollmentId
  }

  /** The kept records are, in order, those with no earlier record of the same output and enrollment ID. */
  lemma {:induction false} UniqueOutputs(outputs: seq<Output>) returns (at: seq<nat>)
    ensures Selects(outputs, at, FirstPerKey(outputs, OutputKey))
    ensures forall i: nat | i < |outputs| ::
              i in at <==> forall j :: 0 <= j < i ==> !SameOutput(outputs[j], outputs[i])
  {
    at := FirstPerKeyPositions(outputs, OutputKey);
    forall i: nat | i < |outputs|
      ensures FirstAt(outputs, OutputKey, i) <==> forall j :: 0 <= j < i ==> !SameOutput(outputs[j], outputs[i])
    {
    }
  }

  /** `Sum`. */
  method Sum(outputs: seq<Output>) returns (sum: int)
    ensures sum == SumOf(outputs)
  {
    sum := 0;
    for i := 0 to |outputs|
      invariant sum == SumOf(outputs[..i])
    {
      assert outputs[..i + 1][..i] == outputs[..i];
      sum := sum + outputs[i].quantity.value;
    }
    assert outputs[..|outputs|] == outputs;
  }

  lemma {:induction false} SumConcat(a: seq<Output>, b: seq<Output>)
    ensures SumOf(a + b) == SumOf(a) + SumOf(b)
  {
    if b == [] {
      assert a + b == a;
    } else {
      SumConcat(a, b[..|b| - 1]);
      assert (a + b)[..|a + b| - 1] == a + b[..|b| - 1];
    }
  }

  /** `UniquePerOutput().ByEnrollmentID(e).Sum()`. */
  function Share(outputs: seq<Output>, e: string): int {
    SumOf(Filter(FirstPerKey(outputs, OutputKey), HasEnrollmentId(e)))
  }

  method ShareOf(outputs: seq<Output>, e: string) returns (share: int)
    ensures share == Share(outputs, e)
  {
    var unique := UniquePerOutput(outputs);
    var byEnrollmentId := FilterStream(unique, HasEnrollmentId(e));
    share := Sum(byEnrollmentId);
  }

  // ---------------------------------------------------------------------------------------
  // The share of a party, output by output

  /** Records of different outputs do not interfere. */
  lemma {:induction false} ShareConcat(a: seq<Output>, b: seq<Output>, e: string, cut: nat)
    requires forall i :: 0 <= i < |a| ==> a[i].index < cut
    requires forall i :: 0 <= i < |b| ==> cut <= b[i].index
    ensures Share(a + b, e) == Share(a, e) + Share(b, e)
  {
    FirstPerKeyConcat(a, b, OutputKey);
    FilterConcat(FirstPerKey(a, OutputKey), FirstPerKey(b, OutputKey), HasEnrollmentId(e));
    SumConcat(Filter(FirstPerKey(a, OutputKey), HasEnrollmentId(e)),
              Filter(FirstPerKey(b, OutputKey), HasEnrollmentId(e)));
  }

  predicate Names(records: seq<Output>, e: string) {
    exists i :: 0 <= i < |records| && records[i].enrollmentId == e
  }

  /** The records of one output count its quantity once. */
  lemma {:induction false} ShareOfGroup(records: seq<Output>, index: nat, q: Quantity, e: string)
    requires forall i :: 0 <= i < |records| ==> records[i].index == index && records[i].quantity == q
    ensures Share(records, e) == if Names(records, e) then q.value else 0
  {
    if records != [] {
      var n := |records| - 1;
      ShareOfGroup(records[..n], index, q, e);
      var last := records[n];
      assert records == records[..n] + [last];
      ShareSnoc(records[..n], last, e);
      assert Occurs(records[..n], OutputKey, (index, last.enrollmentId)) <==> Names(records[..n], last.enrollmentId);
      assert Names(records, e) <==> Names(records[..n], e) || last.enrollmentId == e;
    }
  }

  lemma {:induction false} ShareSnoc(records: seq<Output>, last: Output, e: string)
    ensures Share(records + [last], e)
         == Share(records, e)
            + if IsNew(records, OutputKey, last) && last.enrollmentId == e then last.quantity.value else 0
  {
    var kept := FirstPerKey(records, OutputKey);
    FirstPerKeySnoc(records, OutputKey, last);
    assert (kept + [last])[..|kept|] == kept;
    var named := Filter(kept, HasEnrollmentId(e));
    assert (named + [last])[..|named|] == named;
    assert named + [] == named;
    assert Filter(kept + [last], HasEnrollmentId(e)) == named + if last.enrollmentId == e then [last] else [];
  }

  /** The records are there, their positions lie in a range, and they give a party its share. */
  ghost predicate Part(item: Result<seq<Output>>, low: nat, high: nat, e: string, share: int) {
    && low <= high
    && item.Ok?
    && (forall o :: o in item.value ==> low <= o.index < high)
    && Share(item.value, e) == share
  }

  function Plus(values: seq<int>): int {
    if values == [] then 0 else Plus(values[..|values| - 1]) + values[|values| - 1]
  }

  /** Each list of records lies between two consecutive cuts. */
  ghost predicate Parts(items: seq<Result<seq<Output>>>, cuts: seq<nat>, e: string, shares: seq<int>) {
    && |cuts| == |items| + 1 && |shares| == |items|
    && forall i :: 0 <= i < |items| ==> Part(items[i], cuts[i], cuts[i + 1], e, shares[i])
  }

  lemma {:induction false} ShareOfParts(items: seq<Result<seq<Output>>>, cuts: seq<nat>, e: string, shares: seq<int>)
    requires Parts(items, cuts, e, shares)
    ensures Part(Collect(items), cuts[0], cuts[|items|], e, Plus(shares))
  {
    if items != [] {
      var n := |items| - 1;
      ShareOfParts(items[..n], cuts[..n + 1], e, shares[..n]);
      assert Part(items[n], cuts[n], cuts[n + 1], e, shares[n]);
      ShareConcat(Collect(items[..n]).value, items[n].value, e, cuts[n]);
    }
  }

  /** The enrollment ID in the record of the k-th recipient of an output, if one can be derived. */
  function EidAt(driver: Driver, kind: Kind, clear: Clear, metadata: OutputMetadata, k: nat): Option<string>
    requires k < |RecipientsOf(kind, clear)|
  {
    if kind.Transfer? && clear.token.owner == [] then Some("")
    else
      match RecipientAt(metadata, k)
      case None => None
      case Some(r) =>
        match driver.wallet.eidAndRh(RecipientsOf(kind, clear)[k], r.auditInfo)
        case Err => None
        case Ok((eID, _)) => Some(eID)
  }

  /** The output has a recipient with the enrollment ID. */
  predicate HasRecipient(driver: Driver, kind: Kind, clear: Clear, metadata: OutputMetadata, e: string) {
    exists k :: 0 <= k < |RecipientsOf(kind, clear)| && EidAt(driver, kind, clear, metadata, k) == Some(e)
  }

  /** What an output contributes to a party: its quantity, once, if present and received by the party. */
  function HeldBy(driver: Driver, kind: Kind, output: ActionOutput, metadata: Option<OutputMetadata>, e: string): int {
    if !output.Serialized? || !Present(kind, metadata) then 0
    else
      match driver.deobfuscate(output.raw, metadata.value.metadata)
      case Err => 0
      case Ok(clear) =>
        match ToQuantity(clear.token.quantity, driver.precision)
        case Err => 0
        case Ok(q) => if HasRecipient(driver, kind, clear, metadata.value, e) then q.value else 0
  }

  function HeldPerOutput(driver: Driver, job: Job, e: string): seq<int>
    requires Ready(job)
  {
    seq(Size(job), j requires 0 <= j < Size(job) =>
      HeldBy(driver, job.kind, job.action.value.outputs[j], MetadataAt(job.metadata.value, j), e))
  }

  function HeldPerAction(driver: Driver, jobs: seq<Job>, e: string): seq<int>
    requires forall n :: 0 <= n < |jobs| ==> Ready(jobs[n])
  {
    seq(|jobs|, n requires 0 <= n < |jobs| => Plus(HeldPerOutput(driver, jobs[n], e)))
  }

  /** The quantities of the ledger outputs that a party receives, each counted once. */
  function Held(driver: Driver, jobs: seq<Job>, e: string): int
    requires forall n :: 0 <= n < |jobs| ==> Ready(jobs[n])
  {
    Plus(HeldPerAction(driver, jobs, e))
  }

  /** The records of an output count its quantity once for each of its parties. */
  lemma {:induction false} ShareOfOutput(driver: Driver, kind: Kind, position: nat, index: nat, action: Action,
                                         output: ActionOutput, metadata: Option<OutputMetadata>, failOnMissing: bool,
                                         e: string)
    requires OutputAt(driver, kind, position, index, action, output, metadata, failOnMissing).Ok?
    ensures var records := OutputAt(driver, kind, position, index, action, output, metadata, failOnMissing).value;
            && (forall i :: 0 <= i < |records| ==> records[i].index == index)
            && Share(records, e) == HeldBy(driver, kind, output, metadata, e)
  {
    var records := OutputAt(driver, kind, position, index, action, output, metadata, failOnMissing).value;
    if Present(kind, metadata) {
      var clear := driver.deobfuscate(output.raw, metadata.value.metadata).value;
      var q := ToQuantity(clear.token.quantity, driver.precision).value;
      var issuer := IssuerOf(kind, action, clear, output.redeem);
      RecipientRecords(driver, kind, position, index, output.raw, clear, issuer, q, metadata.value, e);
      ShareOfGroup(records, index, q, e);
    } else {
      assert records == [];
    }
  }

  lemma {:induction false} RecipientRecords(driver: Driver, kind: Kind, position: nat, index: nat, raw: Bytes,
                                            clear: Clear, issuer: Identity, q: Quantity, metadata: OutputMetadata,
                                            e: string)
    requires Collect(RecipientOutputs(driver, kind, position, index, raw, clear, issuer, q, metadata)).Ok?
    ensures var items := RecipientOutputs(driver, kind, position, index, raw, clear, issuer, q, metadata);
            var records := Collect(items).value;
            && (forall i :: 0 <= i < |records| ==> records[i].index == index && records[i].quantity == q)
            && (Names(records, e) <==> HasRecipient(driver, kind, clear, metadata, e))
  {
    var items := RecipientOutputs(driver, kind, position, index, raw, clear, issuer, q, metadata);
    var records := Collect(items).value;
    CollectOk(items);
    CollectSingletons(items);
    forall k | 0 <= k < |records|
      ensures records[k].index == index && records[k].quantity == q
      ensures EidAt(driver, kind, clear, metadata, k) == Some(records[k].enrollmentId)
    {
      assert items[k] == RecipientOutput(driver, kind, position, index, raw, clear, issuer, q, metadata,
                                         RecipientsOf(kind, clear)[k], k);
    }
  }

  lemma {:induction false} ItemShare(driver: Driver, job: Job, base: nat, failOnMissing: bool, e: string, j: nat)
    requires Ready(job) && j < Size(job) && ActionOutputs(driver, job, base, failOnMissing).Ok?
    ensures Part(ActionItems(driver, job, base, failOnMissing)[j], base + j, base + j + 1, e,
                 HeldPerOutput(driver, job, e)[j])
  {
    var items := ActionItems(driver, job, base, failOnMissing);
    CollectOk(items);
    assert items[j].Ok?;
    ShareOfOutput(driver, job.kind, job.position, base + j, job.action.value, job.action.value.outputs[j],
                  MetadataAt(job.metadata.value, j), failOnMissing, e);
  }

  function Positions(base: nat, size: nat): (positions: seq<nat>)
    ensures |positions| == size + 1 && forall j :: 0 <= j <= size ==> positions[j] == base + j
  {
    seq(size + 1, j requires 0 <= j => base + j)
  }

  lemma {:induction false} ActionParts(driver: Driver, job: Job, base: nat, failOnMissing: bool, e: string)
    requires Ready(job) && ActionOutputs(driver, job, base, failOnMissing).Ok?
    ensures Parts(ActionItems(driver, job, base, failOnMissing), Positions(base, Size(job)), e,
                  HeldPerOutput(driver, job, e))
  {
    forall j | 0 <= j < Size(job)
      ensures Part(ActionItems(driver, job, base, failOnMissing)[j], base + j, base + j + 1, e,
                   HeldPerOutput(driver, job, e)[j])
    {
      ItemShare(driver, job, base, failOnMissing, e, j);
    }
  }

  /** The records of an action lie in its own range of positions and count each output once. */
  lemma {:induction false} ShareOfAction(driver: Driver, job: Job, base: nat, failOnMissing: bool, e: string)
    requires ActionOutputs(driver, job, base, failOnMissing).Ok?
    ensures Ready(job)
    ensures Part(ActionOutputs(driver, job, base, failOnMissing), base, base + Size(job), e,
                 Plus(HeldPerOutput(driver, job, e)))
  {
    ActionParts(driver, job, base, failOnMissing, e);
    ShareOfParts(ActionItems(driver, job, base, failOnMissing), Positions(base, Size(job)), e,
                 HeldPerOutput(driver, job, e));
  }

  function Bases(jobs: seq<Job>): (bases: seq<nat>)
    ensures |bases| == |jobs| + 1 && forall n :: 0 <= n <= |jobs| ==> bases[n] == Base(jobs, n)
  {
    seq(|jobs| + 1, n requires 0 <= n <= |jobs| => Base(jobs, n))
  }

  lemma {:induction false} JobParts(driver: Driver, jobs: seq<Job>, failOnMissing: bool, e: string)
    requires Outputs(driver, jobs, failOnMissing).Ok?
    ensures forall n :: 0 <= n < |jobs| ==> Ready(jobs[n])
    ensures Parts(Items(driver, jobs, failOnMissing), Bases(jobs), e, HeldPerAction(driver, jobs, e))
  {
    ReadyJobs(driver, jobs, failOnMissing);
    forall n | 0 <= n < |jobs|
      ensures Part(Items(driver, jobs, failOnMissing)[n], Base(jobs, n), Base(jobs, n + 1), e,
                   HeldPerAction(driver, jobs, e)[n])
    {
      ShareOfAction(driver, jobs[n], Base(jobs, n), failOnMissing, e);
    }
  }

  /**
   For every request, the amount a party receives according to the stream is the sum of the
   quantities of the present outputs with a recipient of that enrollment ID, each counted once,
   however many recipients an output has and whichever outputs are absent.
   */
  lemma {:induction false} ShareCountsOutputsOnce(driver: Driver, jobs: seq<Job>, failOnMissing: bool, e: string)
    requires Outputs(driver, jobs, failOnMissing).Ok?
    ensures forall n :: 0 <= n < |jobs| ==> Ready(jobs[n])
    ensures Share(Outputs(driver, jobs, failOnMissing).value, e) == Held(driver, jobs, e)
  {
    JobParts(driver, jobs, failOnMissing, e);
    ShareOfParts(Items(driver, jobs, failOnMissing), Bases(jobs), e, HeldPerAction(driver, jobs, e));
  }

  // ---------------------------------------------------------------------------------------
  // Input streams

  /** `positioned` is set for inputs built with their position in their action. */
  datatype Input = Input(kind: Kind, actionIndex: int, index: int, id: Option<ID>, owner: Identity,
                         enrollmentId: string, quantity: Quantity, positioned: bool)

  datatype InputKey = ById(id: ID, eID: string) | ByPosition(kind: Kind, actionIndex: int, index: int, eID: string)

  /** The token ID identifies the token; without it the position does, if one was set. */
  function KeyOfInput(input: Input): Option<InputKey> {
    if input.id.Some? then Some(ById(input.id.value, input.enrollmentId))
    else if !input.positioned then None
    else Some(ByPosition(input.kind, input.actionIndex, input.index, input.enrollmentId))
  }

  /** One of the two maps of `UniquePerInput` holds the key. */
  predicate SeenInput(byId: set<(ID, string)>, byPosition: set<(Kind, int, int, string)>, k: InputKey) {
    match k
    case ById(id, eID) => (id, eID) in byId
    case ByPosition(kind, actionIndex, index, eID) => (kind, actionIndex, index, eID) in byPosition
  }

  ghost predicate Tracks(byId: set<(ID, string)>, byPosition: set<(Kind, int, int, string)>, inputs: seq<Input>) {
    forall k :: SeenInput(byId, byPosition, k) <==> Occurs(inputs, KeyOfInput, k)
  }

  lemma {:induction false} TracksNext(byId: set<(ID, string)>, byPosition: set<(Kind, int, int, string)>,
                                      inputs: seq<Input>, t: Input)
    requires Tracks(byId, byPosition, inputs)
    ensures t.id.Some? ==> Tracks(byId + {(t.id.value, t.enrollmentId)}, byPosition, inputs + [t])
    ensures t.id.None? && t.positioned ==>
              Tracks(byId, byPosition + {(t.kind, t.actionIndex, t.index, t.enrollmentId)}, inputs + [t])
    ensures t.id.None? && !t.positioned ==> Tracks(byId, byPosition, inputs + [t])
  {
    forall k
      ensures Occurs(inputs + [t], KeyOfInput, k) <==> Occurs(inputs, KeyOfInput, k) || KeyOfInput(t) == Some(k)
    {
      OccursSnoc(inputs, KeyOfInput, k, t);
    }
  }

  /** `UniquePerInput`. */
  method UniquePerInput(inputs: seq<Input>) returns (filtered: seq<Input>)
    ensures filtered == FirstPerKey(inputs, KeyOfInput)
  {
    var seenById: set<(ID, string)> := {};
    var seenByPosition: set<(Kind, int, int, string)> := {};
    filtered := [];
    for i := 0 to |inputs|
      invariant filtered == FirstPerKey(inputs[..i], KeyOfInput)
      invariant Tracks(seenById, seenByPosition, inputs[..i])
    {
      var t := inputs[i];
      assert inputs[..i + 1] == inputs[..i] + [t];
      FirstPerKeySnoc(inputs[..i], KeyOfInput, t);
      TracksNext(seenById, seenByPosition, inputs[..i], t);
      if t.id.Some? {
        var k := (t.id.value, t.enrollmentId);
        assert SeenInput(seenById, seenByPosition, ById(k.0, k.1)) == (k in seenById);
        if k in seenById {
          assert seenById + {k} == seenById;
        } else {
          seenById := seenById + {k};
          filtered := filtered + [t];
        }
      } else if !t.positioned {
        filtered := filtered + [t];
      } else {
        var k := (t.kind, t.actionIndex, t.index, t.enrollmentId);
        assert SeenInput(seenById, seenByPosition, ByPosition(k.0, k.1, k.2, k.3)) == (k in seenByPosition);
        if k in seenByPosition {
          assert seenByPosition + {k} == seenByPosition;
        } else {
          seenByPosition := seenByPosition + {k};
          filtered := filtered + [t];
        }
      }
    }
    assert inputs[..|inputs|] == inputs;
  }

  /** Two records of the same token for the same enrollment ID: by ID, or else by position if one was set. */
  predicate SameInput(a: Input, b: Input) {
    && a.enrollmentId == b.enrollmentId
    && if a.id.Some? || b.id.Some? then a.id == b.id
       else a.positioned && b.positioned && a.kind == b.kind && a.actionIndex == b.actionIndex && a.index == b.index
  }

  /** The kept inputs are, in order, those with no earlier record of the same token and enrollment ID. */
  lemma {:induction false} UniqueInputs(inputs: seq<Input>) returns (at: seq<nat>)
    ensures Selects(inputs, at, FirstPerKey(inputs, KeyOfInput))
    ensures forall i: nat | i < |inputs| ::
              i in at <==> forall j :: 0 <= j < i ==> !SameInput(inputs[j], inputs[i])
  {
    at := FirstPerKeyPositions(inputs, KeyOfInput);
    forall i: nat | i < |inputs|
      ensures FirstAt(inputs, KeyOfInput, i) <==> forall j :: 0 <= j < i ==> !SameInput(inputs[j], inputs[i])
    {
      forall j | 0 <= j < i
        ensures SameInput(inputs[j], inputs[i])
                <==> KeyOfInput(inputs[i]).Some? && KeyOfInput(inputs[j]) == KeyOfInput(inputs[i])
      {
      }
    }
  }

  /** Inputs with neither an ID nor a position are all kept. */
  lemma {:induction false} PositionlessKept(inputs: seq<Input>)
    ensures Filter(FirstPerKey(inputs, KeyOfInput), (i: Input) => KeyOfInput(i).None?)
         == Filter(inputs, (i: Input) => KeyOfInput(i).None?)
  {
    if inputs != [] {
      var n := |inputs| - 1;
      PositionlessKept(inputs[..n]);
      var before := FirstPerKey(inputs[..n], KeyOfInput);
      assert (before + [inputs[n]])[..|before|] == before;
    }
  }
}
