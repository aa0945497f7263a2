/**
 Who must sign a request, and in which order, read off the fields of its metadata: every identity
 that must sign stands at a place, and the required signers are those of all places in order
 (token/request.go).
 */
module SigningOrder {
  import opened Prelude
  import opened Metadata
  import opened Signers

  /** A place in the metadata: an entry, a part of it, an item of the part and a member of the item. */
  datatype Place = Place(entry: nat, part: nat, item: nat, member: nat)

  predicate Before(a: Place, b: Place) {
    || a.entry < b.entry
    || (a.entry == b.entry && a.part < b.part)
    || (a.entry == b.entry && a.part == b.part && a.item < b.item)
    || (a.entry == b.entry && a.part == b.part && a.item == b.item && a.member < b.member)
  }

  /** The list holds what stands at each place of a region, once and in order. */
  ghost predicate Lists<T>(places: seq<Place>, region: iset<Place>, value: Place -> T, listed: seq<T>) {
    && |places| == |listed|
    && (forall m :: 0 <= m < |places| ==> listed[m] == value(places[m]))
    && (forall l, m :: 0 <= l < m < |places| ==> Before(places[l], places[m]))
    && (forall p :: p in region <==> p in places)
  }

  lemma {:induction false} ListsJoin<T>(a: seq<Place>, r: iset<Place>, s: seq<T>, b: seq<Place>, r': iset<Place>,
                                        s': seq<T>, value: Place -> T)
    requires Lists(a, r, value, s) && Lists(b, r', value, s')
    requires forall p, q :: p in r && q in r' ==> Before(p, q)
    ensures Lists(a + b, r + r', value, s + s')
  {
    forall l, m | 0 <= l < m < |a + b| ensures Before((a + b)[l], (a + b)[m]) {
      if l < |a| <= m {
        assert a[l] in r && b[m - |a|] in r';
      }
    }
  }

  /** The members of one item. */
  function Row(entry: nat, part: nat, item: nat, count: nat): (places: seq<Place>)
    ensures |places| == count && forall k :: 0 <= k < count ==> places[k] == Place(entry, part, item, k)
  {
    seq(count, k requires 0 <= k => Place(entry, part, item, k))
  }

  ghost function RowRegion(entry: nat, part: nat, item: nat, count: nat): iset<Place> {
    iset p: Place | p.entry == entry && p.part == part && p.item == item && p.member < count
  }

  lemma {:induction false} RowLists<T>(entry: nat, part: nat, item: nat, value: Place -> T, listed: seq<T>)
    requires forall k :: 0 <= k < |listed| ==> listed[k] == value(Place(entry, part, item, k))
    ensures Lists(Row(entry, part, item, |listed|), RowRegion(entry, part, item, |listed|), value, listed)
  {
    var places := Row(entry, part, item, |listed|);
    forall p ensures p in RowRegion(entry, part, item, |listed|) <==> p in places {
      if p in RowRegion(entry, part, item, |listed|) {
        assert places[p.member] == p;
      }
    }
  }

  // ---------------------------------------------------------------------------------------
  // Transfers: the senders of each input, then the issuer, then the extra signers

  const SENDERS := 0
  const ISSUER := 1
  const EXTRA := 2

  ghost function TailRegion(e: nat, issuer: nat, extra: nat): iset<Place> {
    RowRegion(e, ISSUER, 0, issuer) + RowRegion(e, EXTRA, 0, extra)
  }

  function Tail(e: nat, issuer: nat, extra: nat): seq<Place> {
    Row(e, ISSUER, 0, issuer) + Row(e, EXTRA, 0, extra)
  }

  lemma {:induction false} TailLists(e: nat, value: Place -> Signer, issuer: seq<Signer>, extra: seq<Signer>)
    requires forall k :: 0 <= k < |issuer| ==> issuer[k] == value(Place(e, ISSUER, 0, k))
    requires forall k :: 0 <= k < |extra| ==> extra[k] == value(Place(e, EXTRA, 0, k))
    ensures Lists(Tail(e, |issuer|, |extra|), TailRegion(e, |issuer|, |extra|), value, issuer + extra)
  {
    RowLists(e, ISSUER, 0, value, issuer);
    RowLists(e, EXTRA, 0, value, extra);
    ListsJoin(Row(e, ISSUER, 0, |issuer|), RowRegion(e, ISSUER, 0, |issuer|), issuer,
              Row(e, EXTRA, 0, |extra|), RowRegion(e, EXTRA, 0, |extra|), extra, value);
  }

  predicate TransferPlace(entries: seq<Entry>, p: Place)
    requires ListableAll(entries)
  {
    && p.entry < |entries| && entries[p.entry].transfer.Some?
    && var transfer := entries[p.entry].transfer.value;
       || (p.part == SENDERS && p.item < |transfer.inputs| && p.member < |transfer.inputs[p.item].value.senders|)
       || (p.part == ISSUER && p.item == 0 && p.member == 0 && transfer.issuer.Some?)
       || (p.part == EXTRA && p.item == 0 && p.member < |transfer.extraSigners|)
  }

  function TransferSignerAt(entries: seq<Entry>, p: Place): Signer
    requires ListableAll(entries)
  {
    if !TransferPlace(entries, p) then Signer([], 0)
    else
      var transfer := entries[p.entry].transfer.value;
      Signer(if p.part == SENDERS then IdentityOf(transfer.inputs[p.item].value.senders[p.member])
             else if p.part == ISSUER then transfer.issuer.value.identity
             else transfer.extraSigners[p.member].identity,
             entries[p.entry].actionId)
  }

  function TransferSignersAt(entries: seq<Entry>): Place -> Signer
    requires ListableAll(entries)
  {
    (p: Place) => TransferSignerAt(entries, p)
  }

  /** The places of the first entries. */
  ghost function TransferPlaces(entries: seq<Entry>, n: nat): iset<Place>
    requires ListableAll(entries)
  {
    iset p: Place | p.entry < n && TransferPlace(entries, p)
  }

  ghost function SenderPlaces(entries: seq<Entry>, e: nat, n: nat): iset<Place>
    requires ListableAll(entries)
  {
    iset p: Place | TransferPlace(entries, p) && p.entry == e && p.part == SENDERS && p.item < n
  }

  ghost function EntryPlaces(entries: seq<Entry>, e: nat): iset<Place>
    requires ListableAll(entries)
  {
    iset p: Place | TransferPlace(entries, p) && p.entry == e
  }

  lemma {:induction false} SendersInOrder(entries: seq<Entry>, e: nat, n: nat) returns (places: seq<Place>)
    requires ListableAll(entries) && e < |entries| && entries[e].transfer.Some?
    requires n <= |entries[e].transfer.value.inputs|
    ensures Lists(places, SenderPlaces(entries, e, n), TransferSignersAt(entries),
                  For(SendersOf(entries[e].transfer.value.inputs[..n]), entries[e].actionId))
  {
    places := [];
    if n > 0 {
      var inputs := entries[e].transfer.value.inputs;
      places := SendersInOrder(entries, e, n - 1);
      var last := For(IdentitiesOf(inputs[n - 1].value.senders), entries[e].actionId);
      RowLists(e, SENDERS, n - 1, TransferSignersAt(entries), last);
      ListsJoin(places, SenderPlaces(entries, e, n - 1), For(SendersOf(inputs[..n - 1]), entries[e].actionId),
                Row(e, SENDERS, n - 1, |last|), RowRegion(e, SENDERS, n - 1, |last|), last, TransferSignersAt(entries));
      places := places + Row(e, SENDERS, n - 1, |last|);
      assert inputs[..n][..n - 1] == inputs[..n - 1];
      ForConcat(SendersOf(inputs[..n - 1]), IdentitiesOf(inputs[n - 1].value.senders), entries[e].actionId);
      assert SenderPlaces(entries, e, n) == SenderPlaces(entries, e, n - 1) + RowRegion(e, SENDERS, n - 1, |last|);
    }
  }

  /** The signers of a transfer after its senders. */
  function TailSigners(transfer: TransferMetadata, actionId: nat): seq<Signer> {
    (if transfer.issuer.Some? then [Signer(transfer.issuer.value.identity, actionId)] else [])
    + For(ExtraSignersOf(transfer.extraSigners), actionId)
  }

  function Issuers(transfer: TransferMetadata): nat {
    if transfer.issuer.Some? then 1 else 0
  }

  lemma {:induction false} TransferTail(entries: seq<Entry>, e: nat)
    requires ListableAll(entries) && e < |entries| && entries[e].transfer.Some?
    ensures var transfer := entries[e].transfer.value;
            var issuers, extras := Issuers(transfer), |transfer.extraSigners|;
            Lists(Tail(e, issuers, extras), TailRegion(e, issuers, extras), TransferSignersAt(entries),
                  TailSigners(transfer, entries[e].actionId))
  {
    var transfer := entries[e].transfer.value;
    var issuer := if transfer.issuer.Some? then [Signer(transfer.issuer.value.identity, entries[e].actionId)] else [];
    TailLists(e, TransferSignersAt(entries), issuer, For(ExtraSignersOf(transfer.extraSigners), entries[e].actionId));
  }

  lemma {:induction false} TransferSignersSplit(entry: Entry)
    requires Listable(entry) && entry.transfer.Some?
    ensures For(EntryTransferSigners(entry), entry.actionId)
         == For(SendersOf(entry.transfer.value.inputs), entry.actionId)
            + TailSigners(entry.transfer.value, entry.actionId)
  {
  }

  lemma {:induction false} TransferInOrder(entries: seq<Entry>, e: nat) returns (places: seq<Place>)
    requires ListableAll(entries) && e < |entries|
    ensures Lists(places, EntryPlaces(entries, e), TransferSignersAt(entries),
                  For(EntryTransferSigners(entries[e]), entries[e].actionId))
  {
    places := [];
    if entries[e].transfer.Some? {
      var transfer := entries[e].transfer.value;
      var n, issuers, extras := |transfer.inputs|, Issuers(transfer), |transfer.extraSigners|;
      assert transfer.inputs[..n] == transfer.inputs;
      places := SendersInOrder(entries, e, n);
      TransferTail(entries, e);
      ListsJoin(places, SenderPlaces(entries, e, n), For(SendersOf(transfer.inputs), entries[e].actionId),
                Tail(e, issuers, extras), TailRegion(e, issuers, extras), TailSigners(transfer, entries[e].actionId),
                TransferSignersAt(entries));
      places := places + Tail(e, issuers, extras);
      TransferRegions(entries, e);
      TransferSignersSplit(entries[e]);
    }
  }

  lemma {:induction false} TransferRegions(entries: seq<Entry>, e: nat)
    requires ListableAll(entries) && e < |entries| && entries[e].transfer.Some?
    ensures var transfer := entries[e].transfer.value;
            EntryPlaces(entries, e)
            == SenderPlaces(entries, e, |transfer.inputs|)
               + TailRegion(e, Issuers(transfer), |transfer.extraSigners|)
  {
  }

  /** The signers of the transfers are those at all their places, each once and in order. */
  lemma {:induction false} TransferSigningOrder(entries: seq<Entry>, n: nat) returns (places: seq<Place>)
    requires ListableAll(entries) && n <= |entries|
    ensures Lists(places, TransferPlaces(entries, n), TransferSignersAt(entries), TransferSignersFor(entries[..n]))
  {
    places := [];
    if n > 0 {
      places := TransferSigningOrder(entries, n - 1);
      var last := TransferInOrder(entries, n - 1);
      var signers := For(EntryTransferSigners(entries[n - 1]), entries[n - 1].actionId);
      ListsJoin(places, TransferPlaces(entries, n - 1), TransferSignersFor(entries[..n - 1]),
                last, EntryPlaces(entries, n - 1), signers, TransferSignersAt(entries));
      places := places + last;
      assert TransferPlaces(entries, n) == TransferPlaces(entries, n - 1) + EntryPlaces(entries, n - 1);
      assert entries[..n][..n - 1] == entries[..n - 1];
    }
  }

  // ---------------------------------------------------------------------------------------
  // Issues: the issuer, then the extra signers

  predicate IssuePlace(entries: seq<Entry>, p: Place) {
    && p.entry < |entries| && entries[p.entry].issue.Some? && p.item == 0
    && ((p.part == ISSUER && p.member == 0)
        || (p.part == EXTRA && p.member < |entries[p.entry].issue.value.extraSigners|))
  }

  function IssueSignerAt(entries: seq<Entry>, p: Place): Signer {
    if !IssuePlace(entries, p) then Signer([], 0)
    else
      var issue := entries[p.entry].issue.value;
      Signer(if p.part == ISSUER then issue.issuer.identity else issue.extraSigners[p.member].identity,
             entries[p.entry].actionId)
  }

  function IssueSignersAt(entries: seq<Entry>): Place -> Signer {
    (p: Place) => IssueSignerAt(entries, p)
  }

  ghost function IssuePlaces(entries: seq<Entry>, n: nat): iset<Place> {
    iset p: Place | p.entry < n && IssuePlace(entries, p)
  }

  ghost function EntryIssuePlaces(entries: seq<Entry>, e: nat): iset<Place> {
    iset p: Place | IssuePlace(entries, p) && p.entry == e
  }

  lemma {:induction false} IssueInOrder(entries: seq<Entry>, e: nat) returns (places: seq<Place>)
    requires ListableAll(entries) && e < |entries|
    ensures Lists(places, EntryIssuePlaces(entries, e), IssueSignersAt(entries),
                  For(EntryIssueSigners(entries[e]), entries[e].actionId))
  {
    places := [];
    if entries[e].issue.Some? {
      var issue := entries[e].issue.value;
      var issuer := [Signer(issue.issuer.identity, entries[e].actionId)];
      var extra := For(ExtraSignersOf(issue.extraSigners), entries[e].actionId);
      TailLists(e, IssueSignersAt(entries), issuer, extra);
      places := Tail(e, |issuer|, |extra|);
      assert EntryIssuePlaces(entries, e) == TailRegion(e, |issuer|, |extra|);
      assert For(EntryIssueSigners(entries[e]), entries[e].actionId) == issuer + extra;
    }
  }

  /** The signers of the issues are those at all their places, each once and in order. */
  lemma {:induction false} IssueSigningOrder(entries: seq<Entry>, n: nat) returns (places: seq<Place>)
    requires ListableAll(entries) && n <= |entries|
    ensures Lists(places, IssuePlaces(entries, n), IssueSignersAt(entries), IssueSignersFor(entries[..n]))
  {
    places := [];
    if n > 0 {
      places := IssueSigningOrder(entries, n - 1);
      var last := IssueInOrder(entries, n - 1);
      var signers := For(EntryIssueSigners(entries[n - 1]), entries[n - 1].actionId);
      ListsJoin(places, IssuePlaces(entries, n - 1), IssueSignersFor(entries[..n - 1]),
                last, EntryIssuePlaces(entries, n - 1), signers, IssueSignersAt(entries));
      places := places + last;
      assert IssuePlaces(entries, n) == IssuePlaces(entries, n - 1) + EntryIssuePlaces(entries, n - 1);
      assert entries[..n][..n - 1] == entries[..n - 1];
    }
  }

  // ---------------------------------------------------------------------------------------
  // All of them

  /** An identity must sign for an issue: as its issuer or as an extra signer. */
  ghost predicate SignsIssue(entry: Entry, identity: Identity) {
    && entry.issue.Some?
    && var issue := entry.issue.value;
       || identity == issue.issuer.identity
       || exists k :: 0 <= k < |issue.extraSigners| && identity == issue.extraSigners[k].identity
  }

  /** ... for a transfer: as a sender of an input, as the issuer, if there is one, or as an extra signer. */
  ghost predicate SignsTransfer(entry: Entry, identity: Identity)
    requires Listable(entry)
  {
    && entry.transfer.Some?
    && var transfer := entry.transfer.value;
       || (exists j, k :: 0 <= j < |transfer.inputs| && 0 <= k < |transfer.inputs[j].value.senders|
                          && identity == IdentityOf(transfer.inputs[j].value.senders[k]))
       || (transfer.issuer.Some? && identity == transfer.issuer.value.identity)
       || exists k :: 0 <= k < |transfer.extraSigners| && identity == transfer.extraSigners[k].identity
  }

  ghost predicate MustSign(entry: Entry, identity: Identity)
    requires Listable(entry)
  {
    SignsIssue(entry, identity) || SignsTransfer(entry, identity)
  }

  /** Where the identity of an issue signer stands. */
  lemma {:induction false} IssuePlaceOf(entries: seq<Entry>, e: nat, identity: Identity) returns (p: Place)
    requires e < |entries| && SignsIssue(entries[e], identity)
    ensures p in IssuePlaces(entries, |entries|)
    ensures IssueSignerAt(entries, p) == Signer(identity, entries[e].actionId)
  {
    var issue := entries[e].issue.value;
    p := Place(e, ISSUER, 0, 0);
    if k :| 0 <= k < |issue.extraSigners| && identity == issue.extraSigners[k].identity {
      p := Place(e, EXTRA, 0, k);
    }
  }

  lemma {:induction false} IssuePlaceSigns(entries: seq<Entry>, p: Place)
    requires IssuePlace(entries, p)
    ensures SignsIssue(entries[p.entry], IssueSignerAt(entries, p).identity)
    ensures IssueSignerAt(entries, p).actionId == entries[p.entry].actionId
  {
  }

  lemma {:induction false} IssueSignersMeaning(entries: seq<Entry>, s: Signer)
    requires ListableAll(entries)
    ensures s in IssueSignersFor(entries) <==>
            exists i :: 0 <= i < |entries| && entries[i].actionId == s.actionId && SignsIssue(entries[i], s.identity)
  {
    var places := IssueSigningOrder(entries, |entries|);
    assert entries[..|entries|] == entries;
    if s in IssueSignersFor(entries) {
      var m :| 0 <= m < |places| && IssueSignersFor(entries)[m] == s;
      assert places[m] in IssuePlaces(entries, |entries|);
      IssuePlaceSigns(entries, places[m]);
    }
    if i :| 0 <= i < |entries| && entries[i].actionId == s.actionId && SignsIssue(entries[i], s.identity) {
      var p := IssuePlaceOf(entries, i, s.identity);
      var m :| 0 <= m < |places| && places[m] == p;
      assert IssueSignersFor(entries)[m] == s;
    }
  }

  /** Where the identity of a transfer signer stands. */
  lemma {:induction false} TransferPlaceOf(entries: seq<Entry>, e: nat, identity: Identity) returns (p: Place)
    requires ListableAll(entries) && e < |entries| && SignsTransfer(entries[e], identity)
    ensures p in TransferPlaces(entries, |entries|)
    ensures TransferSignerAt(entries, p) == Signer(identity, entries[e].actionId)
  {
    var transfer := entries[e].transfer.value;
    p := Place(e, ISSUER, 0, 0);
    if j, k :| 0 <= j < |transfer.inputs| && 0 <= k < |transfer.inputs[j].value.senders|
               && identity == IdentityOf(transfer.inputs[j].value.senders[k]) {
      p := Place(e, SENDERS, j, k);
    } else if k :| 0 <= k < |transfer.extraSigners| && identity == transfer.extraSigners[k].identity {
      p := Place(e, EXTRA, 0, k);
    }
  }

  lemma {:induction false} TransferPlaceSigns(entries: seq<Entry>, p: Place)
    requires ListableAll(entries) && TransferPlace(entries, p)
    ensures SignsTransfer(entries[p.entry], TransferSignerAt(entries, p).identity)
    ensures TransferSignerAt(entries, p).actionId == entries[p.entry].actionId
  {
  }

  lemma {:induction false} TransferSignersMeaning(entries: seq<Entry>, s: Signer)
    requires ListableAll(entries)
    ensures s in TransferSignersFor(entries) <==>
            exists i :: 0 <= i < |entries| && entries[i].actionId == s.actionId && SignsTransfer(entries[i], s.identity)
  {
    var places := TransferSigningOrder(entries, |entries|);
    assert entries[..|entries|] == entries;
    if s in TransferSignersFor(entries) {
      var m :| 0 <= m < |places| && TransferSignersFor(entries)[m] == s;
      assert places[m] in TransferPlaces(entries, |entries|);
      TransferPlaceSigns(entries, places[m]);
    }
    if i :| 0 <= i < |entries| && entries[i].actionId == s.actionId && SignsTransfer(entries[i], s.identity) {
      var p := TransferPlaceOf(entries, i, s.identity);
      var m :| 0 <= m < |places| && places[m] == p;
      assert TransferSignersFor(entries)[m] == s;
    }
  }

  /** A signer is required if and only if an entry with its action ID has its identity among those that must sign. */
  lemma {:induction false} RequiredSignersMeaning(entries: seq<Entry>, s: Signer)
    requires ListableAll(entries)
    ensures s in RequiredSigners(entries) <==>
            exists i :: 0 <= i < |entries| && entries[i].actionId == s.actionId && MustSign(entries[i], s.identity)
  {
    IssueSignersMeaning(entries, s);
    TransferSignersMeaning(entries, s);
  }

  // ---------------------------------------------------------------------------------------
  // The records of issues and transfers

  type Members = seq<seq<Option<AuditableIdentity>>>

  function SenderLists(inputs: seq<Option<TransferInput>>): Members
    requires NoNilInput(inputs)
  {
    seq(|inputs|, i requires 0 <= i < |inputs| => inputs[i].value.senders)
  }

  function ReceiverLists(outputs: seq<Option<OutputMetadata>>): Members
    requires NoNilOutput(outputs)
  {
    seq(|outputs|, i requires 0 <= i < |outputs| => outputs[i].value.receivers)
  }

  function IdentityAt(lists: Members): Place -> Identity {
    (p: Place) => if p.item < |lists| && p.member < |lists[p.item]| then IdentityOf(lists[p.item][p.member]) else []
  }

  ghost function MemberPlaces(lists: Members): iset<Place> {
    iset p: Place | p.entry == 0 && p.part == 0 && p.item < |lists| && p.member < |lists[p.item]|
  }

  /** The identities of all members of all lists, in order. */
  ghost predicate AllMembers(lists: Members, identities: seq<Identity>) {
    exists places :: Lists(places, MemberPlaces(lists), IdentityAt(lists), identities)
  }

  lemma {:induction false} AllMembersNext(lists: Members, before: seq<Identity>)
    requires lists != [] && AllMembers(lists[..|lists| - 1], before)
    ensures AllMembers(lists, before + IdentitiesOf(lists[|lists| - 1]))
  {
    var n := |lists| - 1;
    var init, last := lists[..n], IdentitiesOf(lists[n]);
    var places :| Lists(places, MemberPlaces(init), IdentityAt(init), before);
    forall m | 0 <= m < |places| ensures before[m] == IdentityAt(lists)(places[m]) {
      assert places[m] in MemberPlaces(init);
    }
    assert Lists(places, MemberPlaces(init), IdentityAt(lists), before);
    RowLists(0, 0, n, IdentityAt(lists), last);
    ListsJoin(places, MemberPlaces(init), before, Row(0, 0, n, |last|), RowRegion(0, 0, n, |last|), last,
              IdentityAt(lists));
    assert MemberPlaces(lists) == MemberPlaces(init) + RowRegion(0, 0, n, |last|);
  }

  lemma {:induction false} NoMembers(lists: Members)
    requires lists == []
    ensures AllMembers(lists, [])
  {
    assert Lists([], MemberPlaces(lists), IdentityAt(lists), []);
  }

  lemma {:induction false} SendersMeaning(inputs: seq<Option<TransferInput>>)
    requires NoNilInput(inputs)
    ensures AllMembers(SenderLists(inputs), SendersOf(inputs))
  {
    if inputs == [] {
      NoMembers(SenderLists(inputs));
    } else {
      var n := |inputs| - 1;
      SendersMeaning(inputs[..n]);
      assert SenderLists(inputs)[..n] == SenderLists(inputs[..n]);
      AllMembersNext(SenderLists(inputs), SendersOf(inputs[..n]));
    }
  }

  lemma {:induction false} ReceiversMeaning(outputs: seq<Option<OutputMetadata>>)
    requires NoNilOutput(outputs)
    ensures AllMembers(ReceiverLists(outputs), ReceiversOf(outputs))
  {
    if outputs == [] {
      NoMembers(ReceiverLists(outputs));
    } else {
      var n := |outputs| - 1;
      ReceiversMeaning(outputs[..n]);
      assert ReceiverLists(outputs)[..n] == ReceiverLists(outputs[..n]);
      AllMembersNext(ReceiverLists(outputs), ReceiversOf(outputs[..n]));
    }
  }

  predicate SameIdentities(ids: seq<AuditableIdentity>, identities: seq<Identity>) {
    |identities| == |ids| && forall k :: 0 <= k < |ids| ==> identities[k] == ids[k].identity
  }

  ghost predicate RecordsIssue(metadata: IssueMetadata, issue: Issue)
    requires NoNilOutput(metadata.outputs)
  {
    && issue.issuer == metadata.issuer.identity
    && AllMembers(ReceiverLists(metadata.outputs), issue.receivers)
    && SameIdentities(metadata.extraSigners, issue.extraSigners)
  }

  ghost predicate RecordsTransfer(metadata: TransferMetadata, transfer: Transfer)
    requires NoNilOutput(metadata.outputs) && NoNilInput(metadata.inputs)
  {
    && AllMembers(SenderLists(metadata.inputs), transfer.senders)
    && AllMembers(ReceiverLists(metadata.outputs), transfer.receivers)
    && SameIdentities(metadata.extraSigners, transfer.extraSigners)
    && (transfer.issuer.Some? <==> metadata.issuer.Some?)
    && (transfer.issuer.Some? ==> transfer.issuer.value == metadata.issuer.value.identity)
  }

  /** The k-th issue record holds the identities of the k-th issue metadata. */
  lemma {:induction false} IssuesMeaning(entries: seq<Entry>)
    requires ListableAll(entries)
    ensures |IssuesOf(entries)| == |IssueEntries(entries)|
    ensures forall k :: 0 <= k < |IssuesOf(entries)| ==>
              NoNilOutput(IssueEntries(entries)[k].outputs)
              && RecordsIssue(IssueEntries(entries)[k], IssuesOf(entries)[k])
  {
    if entries != [] {
      IssuesMeaning(entries[..|entries| - 1]);
      var last := entries[|entries| - 1];
      if last.issue.Some? {
        ReceiversMeaning(last.issue.value.outputs);
        assert RecordsIssue(last.issue.value, IssueOf(last.issue.value));
      }
    }
  }

  /** ... and the k-th transfer record those of the k-th transfer metadata. */
  lemma {:induction false} TransfersMeaning(entries: seq<Entry>)
    requires ListableAll(entries)
    ensures |TransfersOf(entries)| == |TransferEntries(entries)|
    ensures forall k :: 0 <= k < |TransfersOf(entries)| ==>
              var metadata := TransferEntries(entries)[k];
              && NoNilOutput(metadata.outputs) && NoNilInput(metadata.inputs)
              && RecordsTransfer(metadata, TransfersOf(entries)[k])
  {
    if entries != [] {
      TransfersMeaning(entries[..|entries| - 1]);
      var last := entries[|entries| - 1];
      if last.transfer.Some? {
        SendersMeaning(last.transfer.value.inputs);
        ReceiversMeaning(last.transfer.value.outputs);
        assert RecordsTransfer(last.transfer.value, TransferOf(last.transfer.value));
      }
    }
  }
}
