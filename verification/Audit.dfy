/**
 What an auditor does before checking actions: collecting the tokens a request spends, refusing
 duplicates, and looking the tokens up with retries (token/core/common/auditor.go, token/vault.go).
 */
module Audit {
  import opened Prelude
  import opened Sequences
  import opened Tokens
  import opened Metadata

  // ---------------------------------------------------------------------------------------
  // Spent token IDs

  predicate Distinct(ids: seq<ID>) {
    forall i, j :: 0 <= i < j < |ids| ==> ids[i] != ids[j]
  }

  /** The IDs that are there. */
  function Present(ids: seq<Option<ID>>): seq<ID> {
    if ids == [] then []
    else Present(ids[..|ids| - 1]) + if ids[|ids| - 1].Some? then [ids[|ids| - 1].value] else []
  }

  function TransferIds(inputs: seq<Option<TransferInput>>): seq<Option<ID>> {
    if inputs == [] then []
    else
      var last := inputs[|inputs| - 1];
      TransferIds(inputs[..|inputs| - 1]) + if last.Some? then [last.value.tokenId] else []
  }

  function IssueIds(inputs: seq<Option<Option<ID>>>): seq<Option<ID>> {
    seq(|inputs|, i requires 0 <= i < |inputs| => if inputs[i].Some? then inputs[i].value else None)
  }

  function EntryIds(entry: Entry): seq<ID> {
    (if entry.transfer.Some? then Present(TransferIds(entry.transfer.value.inputs)) else [])
    + (if entry.issue.Some? then Present(IssueIds(entry.issue.value.inputs)) else [])
  }

  /** The IDs of all tokens a request spends, in order. */
  function SpentIds(entries: seq<Entry>): seq<ID> {
    if entries == [] then [] else SpentIds(entries[..|entries| - 1]) + EntryIds(entries[|entries| - 1])
  }

  /** A transfer input that names a token. */
  predicate NamesToken(input: Option<TransferInput>) {
    input.Some? && input.value.tokenId.Some?
  }

  predicate TokenNamed(input: Option<TransferInput>, m: nat, id: ID) {
    input.Some? && input.value.tokenId == Some(id)
  }

  /** An issue input that names a token. */
  predicate NamesIssueToken(input: Option<Option<ID>>) {
    input.Some? && input.value.Some?
  }

  predicate IssueTokenNamed(input: Option<Option<ID>>, m: nat, id: ID) {
    input == Some(Some(id))
  }

  /** The tokens that the inputs of a transfer name, in order. */
  lemma {:induction false} TransferIdsMeaning(inputs: seq<Option<TransferInput>>) returns (at: seq<nat>)
    ensures Yields(inputs, NamesToken, at, TokenNamed, Present(TransferIds(inputs)))
  {
    at := [];
    if inputs != [] {
      var n := |inputs| - 1;
      at := TransferIdsMeaning(inputs[..n]);
      PresentNext(TransferIds(inputs[..n]), if inputs[n].Some? then inputs[n].value.tokenId else None);
      assert TransferIds(inputs[..n]) + [] == TransferIds(inputs[..n]);
      var before := Present(TransferIds(inputs[..n]));
      if NamesToken(inputs[n]) {
        YieldsNext(inputs, NamesToken, at, TokenNamed, before, inputs[n].value.tokenId.value);
        at := at + [n];
      } else {
        YieldsNone(inputs, NamesToken, at, TokenNamed, before);
      }
    }
  }

  lemma {:induction false} PresentNext(ids: seq<Option<ID>>, last: Option<ID>)
    ensures Present(ids + [last]) == Present(ids) + if last.Some? then [last.value] else []
    ensures last.None? ==> Present(ids + [last]) == Present(ids)
  {
    assert (ids + [last])[..|ids|] == ids;
  }

  /** ... and those of an issue. */
  lemma {:induction false} IssueIdsMeaning(inputs: seq<Option<Option<ID>>>) returns (at: seq<nat>)
    ensures Yields(inputs, NamesIssueToken, at, IssueTokenNamed, Present(IssueIds(inputs)))
  {
    at := [];
    if inputs != [] {
      var n := |inputs| - 1;
      at := IssueIdsMeaning(inputs[..n]);
      var last := if inputs[n].Some? then inputs[n].value else None;
      assert IssueIds(inputs) == IssueIds(inputs[..n]) + [last];
      PresentNext(IssueIds(inputs[..n]), last);
      var before := Present(IssueIds(inputs[..n]));
      if NamesIssueToken(inputs[n]) {
        YieldsNext(inputs, NamesIssueToken, at, IssueTokenNamed, before, last.value);
        at := at + [n];
      } else {
        YieldsNone(inputs, NamesIssueToken, at, IssueTokenNamed, before);
      }
    }
  }

  /** The IDs of an entry: first those of its transfer, then those of its issue. */
  ghost predicate EntrySpends(entry: Entry, ids: seq<ID>, n: nat, at: seq<nat>, at': seq<nat>) {
    && n <= |ids|
    && Yields(if entry.transfer.Some? then entry.transfer.value.inputs else [], NamesToken, at, TokenNamed, ids[..n])
    && Yields(if entry.issue.Some? then entry.issue.value.inputs else [], NamesIssueToken, at', IssueTokenNamed,
              ids[n..])
  }

  lemma {:induction false} EntryIdsMeaning(entry: Entry) returns (n: nat, at: seq<nat>, at': seq<nat>)
    ensures EntrySpends(entry, EntryIds(entry), n, at, at')
  {
    at := TransferIdsMeaning(if entry.transfer.Some? then entry.transfer.value.inputs else []);
    at' := IssueIdsMeaning(if entry.issue.Some? then entry.issue.value.inputs else []);
    var transferIds := Present(TransferIds(if entry.transfer.Some? then entry.transfer.value.inputs else []));
    var issueIds := Present(IssueIds(if entry.issue.Some? then entry.issue.value.inputs else []));
    n := |transferIds|;
    assert EntryIds(entry) == transferIds + issueIds;
    assert EntryIds(entry)[..n] == transferIds && EntryIds(entry)[n..] == issueIds;
  }

  ghost predicate Spends(entry: Entry, ids: seq<ID>) {
    exists n, at, at' :: EntrySpends(entry, ids, n, at, at')
  }

  function Joined(parts: seq<seq<ID>>): seq<ID> {
    if parts == [] then [] else Joined(parts[..|parts| - 1]) + parts[|parts| - 1]
  }

  function IdsPerEntry(entries: seq<Entry>): seq<seq<ID>> {
    seq(|entries|, i requires 0 <= i < |entries| => EntryIds(entries[i]))
  }

  lemma {:induction false} SpentIdsJoined(entries: seq<Entry>)
    ensures SpentIds(entries) == Joined(IdsPerEntry(entries))
  {
    if entries != [] {
      var e := |entries| - 1;
      SpentIdsJoined(entries[..e]);
      assert IdsPerEntry(entries)[..e] == IdsPerEntry(entries[..e]);
    }
  }

  /** The spent IDs are those named by the inputs of all entries, one entry after the other. */
  lemma {:induction false} SpentIdsMeaning(entries: seq<Entry>) returns (parts: seq<seq<ID>>)
    ensures SpentIds(entries) == Joined(parts) && |parts| == |entries|
    ensures forall i :: 0 <= i < |entries| ==> Spends(entries[i], parts[i])
  {
    parts := IdsPerEntry(entries);
    SpentIdsJoined(entries);
    forall i | 0 <= i < |entries| ensures Spends(entries[i], parts[i]) {
      var n, at, at' := EntryIdsMeaning(entries[i]);
    }
  }

  /** `TokenIDs`. */
  method TokenIds(inputs: seq<Option<TransferInput>>) returns (res: seq<Option<ID>>)
    ensures res == TransferIds(inputs)
  {
    res := [];
    for i := 0 to |inputs|
      invariant res == TransferIds(inputs[..i])
    {
      assert inputs[..i + 1][..i] == inputs[..i];
      if inputs[i].Some? {
        res := res + [inputs[i].value.tokenId];
      }
    }
    assert inputs[..|inputs|] == inputs;
  }

  /** The map and the list that the extraction fills. */
  class Recorder {
    var byText: map<string, ID>
    var ids: seq<ID>

    ghost predicate Valid()
      reads this
    {
      && Distinct(ids)
      && forall id :: id in ids <==> IdText(id) in byText
    }

    constructor ()
      ensures Valid() && ids == []
    {
      byText, ids := map[], [];
    }

    /** `recordTokenID`: refuses an ID whose printed form is already there. */
    method Record(id: ID) returns (ok: bool)
      requires Valid()
      modifies this
      ensures Valid()
      ensures ok <==> id !in old(ids)
      ensures ids == if ok then old(ids) + [id] else old(ids)
    {
      if IdText(id) in byText {
        return false;
      }
      forall other ensures IdText(other) == IdText(id) ==> other == id {
        if IdText(other) == IdText(id) {
          IdTextInjective(other, id);
        }
      }
      byText := byText[IdText(id) := id];
      ids := ids + [id];
      return true;
    }

    /** The loops of `extractTransferActionTokenIDs` and `extractIssueActionTokenIDs`. */
    method RecordAll(list: seq<Option<ID>>) returns (ok: bool)
      requires Valid()
      modifies this
      ensures ok ==> Valid() && ids == old(ids) + Present(list)
      ensures ok <==> Distinct(old(ids) + Present(list))
    {
      for i := 0 to |list|
        invariant Valid() && ids == old(ids) + Present(list[..i])
      {
        assert list[..i + 1][..i] == list[..i];
        if list[i].Some? {
          var recorded := Record(list[i].value);
          if !recorded {
            RepeatedIsNotDistinct(old(ids), list, i);
            return false;
          }
        }
      }
      assert list[..|list|] == list;
      return true;
    }

    /** `extractActionTokenIDs`: the inputs of a transfer, then those of an issue. */
    method RecordEntry(entry: Entry) returns (ok: bool)
      requires Valid()
      modifies this
      ensures ok ==> Valid() && ids == old(ids) + EntryIds(entry)
      ensures ok <==> Distinct(old(ids) + EntryIds(entry))
    {
      if entry.transfer.Some? {
        var transferIds := TokenIds(entry.transfer.value.inputs);
        ok := RecordAll(transferIds);
        if !ok {
          DistinctPrefix(old(ids) + Present(transferIds), old(ids) + EntryIds(entry));
          return;
        }
      }
      ghost var before := ids;
      if entry.issue.Some? {
        ok := RecordAll(IssueIds(entry.issue.value.inputs));
        assert before + Present(IssueIds(entry.issue.value.inputs)) == old(ids) + EntryIds(entry);
      } else {
        assert old(ids) + EntryIds(entry) == before;
        ok := true;
      }
    }
  }

  lemma {:induction false} DistinctPrefix(a: seq<ID>, b: seq<ID>)
    requires a <= b
    ensures Distinct(b) ==> Distinct(a)
  {
    assert forall i :: 0 <= i < |a| ==> a[i] == b[i];
  }

  lemma {:induction false} RepeatedIsNotDistinct(before: seq<ID>, list: seq<Option<ID>>, i: nat)
    requires i < |list| && list[i].Some? && list[i].value in before + Present(list[..i])
    ensures !Distinct(before + Present(list))
  {
    var shorter, longer := before + Present(list[..i]), before + Present(list[..i + 1]);
    assert list[..i + 1][..i] == list[..i];
    assert longer == shorter + [list[i].value];
    var j :| 0 <= j < |shorter| && shorter[j] == list[i].value;
    assert longer[j] == longer[|shorter|];
    PresentPrefix(list, i + 1);
    DistinctPrefix(longer, before + Present(list));
  }

  lemma {:induction false} PresentPrefix(list: seq<Option<ID>>, i: nat)
    requires i <= |list|
    ensures Present(list[..i]) <= Present(list)
  {
    if i == |list| {
      assert list[..i] == list;
    } else {
      PresentPrefix(list[..|list| - 1], i);
      assert list[..|list| - 1][..i] == list[..i];
    }
  }

  lemma {:induction false} SpentPrefix(entries: seq<Entry>, i: nat)
    requires i <= |entries|
    ensures SpentIds(entries[..i]) <= SpentIds(entries)
  {
    if i == |entries| {
      assert entries[..i] == entries;
    } else {
      SpentPrefix(entries[..|entries| - 1], i);
      assert entries[..|entries| - 1][..i] == entries[..i];
    }
  }

  /**
   `ExtractTokenIDsAndCheckDuplicates`: all spent IDs in order, if and only if no token is spent
   twice.
   */
  method ExtractTokenIds(entries: seq<Entry>) returns (result: Result<seq<ID>>)
    ensures result == if Distinct(SpentIds(entries)) then Ok(SpentIds(entries)) else Err
  {
    var recorder := new Recorder();
    for i := 0 to |entries|
      invariant recorder.Valid() && recorder.ids == SpentIds(entries[..i])
    {
      assert entries[..i + 1][..i] == entries[..i];
      var ok := recorder.RecordEntry(entries[i]);
      if !ok {
        SpentPrefix(entries, i + 1);
        DistinctPrefix(SpentIds(entries[..i + 1]), SpentIds(entries));
        return Err;
      }
    }
    assert entries[..|entries|] == entries;
    return Ok(recorder.ids);
  }

  // ---------------------------------------------------------------------------------------
  // Looking tokens up

  /** What the vault answers: the lookup and the pending check per attempt, and cancellations. */
  datatype Vault = Vault(lookup: nat -> Result<seq<Token>>, pending: (nat, ID) -> Result<bool>, cancelled: nat -> bool)

  datatype Outcome = Found(tokens: seq<Token>) | Failed

  /** Whether some token is pending at an attempt, asking for one ID after the other. */
  function AnyPending(vault: Vault, ids: seq<ID>, attempt: nat): Result<bool> {
    if ids == [] then Ok(false)
    else
      match vault.pending(attempt, ids[0])
      case Err => Err
      case Ok(true) => Ok(true)
      case Ok(false) => AnyPending(vault, ids[1..], attempt)
  }

  /** The first `n` tokens are known not to be pending. */
  predicate SettledUpTo(vault: Vault, ids: seq<ID>, attempt: nat, n: nat)
    requires n <= |ids|
  {
    forall k :: 0 <= k < n ==> vault.pending(attempt, ids[k]) == Ok(false)
  }

  /** Every token is known not to be pending. */
  predicate NonePending(vault: Vault, ids: seq<ID>, attempt: nat) {
    SettledUpTo(vault, ids, attempt, |ids|)
  }

  /** The first token not known to be settled gets this answer. */
  ghost predicate FirstAnswers(vault: Vault, ids: seq<ID>, attempt: nat, answer: Result<bool>) {
    exists k :: 0 <= k < |ids| && vault.pending(attempt, ids[k]) == answer && SettledUpTo(vault, ids, attempt, k)
  }

  /** Some token is pending, and every earlier one is known not to be. */
  ghost predicate SomePending(vault: Vault, ids: seq<ID>, attempt: nat) {
    FirstAnswers(vault, ids, attempt, Ok(true))
  }

  lemma {:induction false} SettledNext(vault: Vault, ids: seq<ID>, attempt: nat, n: nat)
    requires n < |ids|
    ensures SettledUpTo(vault, ids, attempt, n + 1)
            <==> vault.pending(attempt, ids[0]) == Ok(false) && SettledUpTo(vault, ids[1..], attempt, n)
  {
    if vault.pending(attempt, ids[0]) == Ok(false) && SettledUpTo(vault, ids[1..], attempt, n) {
      forall k | 0 < k < n + 1 ensures vault.pending(attempt, ids[k]) == Ok(false) {
        assert ids[k] == ids[1..][k - 1];
      }
    }
  }

  lemma {:induction false} FirstAnswersNext(vault: Vault, ids: seq<ID>, attempt: nat, answer: Result<bool>)
    requires ids != [] && answer != Ok(false)
    ensures FirstAnswers(vault, ids, attempt, answer)
            <==> || vault.pending(attempt, ids[0]) == answer
                 || (vault.pending(attempt, ids[0]) == Ok(false) && FirstAnswers(vault, ids[1..], attempt, answer))
  {
    if vault.pending(attempt, ids[0]) == answer {
      assert SettledUpTo(vault, ids, attempt, 0);
    } else {
      if k :| 0 <= k < |ids| && vault.pending(attempt, ids[k]) == answer && SettledUpTo(vault, ids, attempt, k) {
        SettledNext(vault, ids, attempt, k - 1);
        assert ids[1..][k - 1] == ids[k];
      }
      if k :| 0 <= k < |ids[1..]| && vault.pending(attempt, ids[1..][k]) == answer
              && SettledUpTo(vault, ids[1..], attempt, k) {
        SettledNext(vault, ids, attempt, k);
        assert ids[1..][k] == ids[k + 1];
      }
    }
  }

  /** The check is decided by the first token not known to be settled. */
  lemma {:induction false} AnyPendingMeaning(vault: Vault, ids: seq<ID>, attempt: nat)
    ensures AnyPending(vault, ids, attempt) == Ok(true) <==> SomePending(vault, ids, attempt)
    ensures AnyPending(vault, ids, attempt) == Ok(false) <==> NonePending(vault, ids, attempt)
    ensures AnyPending(vault, ids, attempt) == Err <==> FirstAnswers(vault, ids, attempt, Err)
  {
    if ids != [] {
      AnyPendingMeaning(vault, ids[1..], attempt);
      FirstAnswersNext(vault, ids, attempt, Ok(true));
      FirstAnswersNext(vault, ids, attempt, Err);
      SettledNext(vault, ids, attempt, |ids| - 1);
    }
  }

  /** `anyTokenPending`. */
  method AnyTokenPending(vault: Vault, ids: seq<ID>, attempt: nat) returns (result: Result<bool>)
    ensures result == AnyPending(vault, ids, attempt)
    ensures result == Ok(true) <==> SomePending(vault, ids, attempt)
    ensures result == Ok(false) <==> NonePending(vault, ids, attempt)
  {
    AnyPendingMeaning(vault, ids, attempt);
    assert ids[0..] == ids;
    for k := 0 to |ids|
      invariant AnyPending(vault, ids, attempt) == AnyPending(vault, ids[k..], attempt)
    {
      assert ids[k..][1..] == ids[k + 1..];
      var pending := vault.pending(attempt, ids[k]);
      if pending.Err? {
        return Err;
      }
      if pending.value {
        return Ok(true);
      }
    }
    return Ok(false);
  }

  /** The auditor's lookups from one attempt on: the outcome and the number of lookups in all. */
  function AuditorFrom(vault: Vault, ids: seq<ID>, i: nat, attempts: nat): (Outcome, nat)
    requires i < attempts
    decreases attempts - i
  {
    match vault.lookup(i)
    case Ok(tokens) => (Found(tokens), i + 1)
    case Err =>
      if AnyPending(vault, ids, i) == Ok(true) && i + 1 < attempts && !vault.cancelled(i)
      then AuditorFrom(vault, ids, i + 1, attempts)
      else (Failed, i + 1)
  }

  predicate PendingOrUnknown(pending: Result<bool>) {
    pending.Err? || pending.value
  }

  /** The vault's own lookups: a failing pending check counts as pending, nothing is cancelled. */
  function VaultFrom(vault: Vault, ids: seq<ID>, i: nat, attempts: nat): (Outcome, nat)
    requires i < attempts
    decreases attempts - i
  {
    match vault.lookup(i)
    case Ok(tokens) => (Found(tokens), i + 1)
    case Err =>
      if PendingOrUnknown(AnyPending(vault, ids, i)) && i + 1 < attempts
      then VaultFrom(vault, ids, i + 1, attempts)
      else (Failed, i + 1)
  }

  function Attempts(numRetries: int): nat {
    if numRetries < 1 then 1 else numRetries
  }

  /** `listAuditTokensWithRetry`; the end of its body is never reached. */
  method ListAuditTokensWithRetry(vault: Vault, ids: seq<ID>, numRetries: int) returns (outcome: Outcome, lookups: nat)
    ensures (outcome, lookups) == AuditorFrom(vault, ids, 0, Attempts(numRetries))
    ensures 1 <= lookups <= Attempts(numRetries)
  {
    var attempts := Attempts(numRetries);
    lookups := 0;
    for i := 0 to attempts
      invariant lookups == i
      invariant i < attempts && AuditorFrom(vault, ids, 0, attempts) == AuditorFrom(vault, ids, i, attempts)
    {
      var tokens := vault.lookup(i);
      lookups := lookups + 1;
      if tokens.Ok? {
        return Found(tokens.value), lookups;
      }
      var retry := AnyTokenPending(vault, ids, i);
      if retry.Err? {
        return Failed, lookups;
      }
      if !retry.value {
        return Failed, lookups;
      }
      if i == attempts - 1 {
        return Failed, lookups;
      }
      if vault.cancelled(i) {
        return Failed, lookups;
      }
    }
    assert false;
  }

  /** `ListAuditTokens` of the vault: without a budget it looks nothing up and reports no failure. */
  method ListAuditTokens(vault: Vault, ids: seq<ID>, numRetries: int) returns (outcome: Outcome, lookups: nat)
    ensures numRetries >= 1 ==> (outcome, lookups) == VaultFrom(vault, ids, 0, numRetries)
    ensures numRetries < 1 ==> outcome == Found([]) && lookups == 0
  {
    var tokens: Result<seq<Token>> := Ok([]);
    lookups := 0;
    var i := 0;
    while i < numRetries
      invariant lookups == i
      invariant numRetries >= 1 ==>
                  i < numRetries && VaultFrom(vault, ids, 0, numRetries) == VaultFrom(vault, ids, i, numRetries)
      invariant numRetries < 1 ==> tokens == Ok([]) && i == 0
    {
      tokens := vault.lookup(i);
      lookups := lookups + 1;
      if tokens.Ok? {
        return Found(tokens.value), lookups;
      }
      var retry := false;
      assert ids[0..] == ids;
      for k := 0 to |ids|
        invariant !retry && AnyPending(vault, ids, i) == AnyPending(vault, ids[k..], i)
      {
        assert ids[k..][1..] == ids[k + 1..];
        var pending := vault.pending(i, ids[k]);
        if pending.Err? || pending.value {
          if i == numRetries - 1 {
            return Failed, lookups;
          }
          retry := true;
          break;
        }
      }
      if !retry {
        return Failed, lookups;
      }
      i := i + 1;
    }
    return Found([]), lookups;
  }

  /** After an attempt the auditor tries again: it found nothing, some token is pending, and it may go on. */
  ghost predicate TriesAgain(vault: Vault, ids: seq<ID>, attempts: nat, j: nat) {
    vault.lookup(j).Err? && SomePending(vault, ids, j) && !vault.cancelled(j) && j + 1 < attempts
  }

  /** What a lookup that is the last one comes to. */
  predicate EndsWith(vault: Vault, last: nat, outcome: Outcome) {
    outcome == match vault.lookup(last) case Ok(tokens) => Found(tokens) case Err => Failed
  }

  /**
   The auditor tries again after exactly those attempts that found nothing while some token was
   pending, within its budget and unless cancelled; the last attempt gives the outcome.
   */
  lemma {:induction false} AuditorRetries(vault: Vault, ids: seq<ID>, i: nat, attempts: nat)
    requires i < attempts
    ensures var (outcome, lookups) := AuditorFrom(vault, ids, i, attempts);
            && i < lookups <= attempts
            && (forall j: nat :: i <= j < lookups - 1 ==> TriesAgain(vault, ids, attempts, j))
            && !TriesAgain(vault, ids, attempts, lookups - 1)
            && EndsWith(vault, lookups - 1, outcome)
    decreases attempts - i
  {
    AnyPendingMeaning(vault, ids, i);
    if TriesAgain(vault, ids, attempts, i) {
      AuditorRetries(vault, ids, i + 1, attempts);
    }
  }

  /** After an attempt the vault tries again: it found nothing, and some token is not known to be settled. */
  ghost predicate VaultTriesAgain(vault: Vault, ids: seq<ID>, attempts: nat, j: nat) {
    vault.lookup(j).Err? && !NonePending(vault, ids, j) && j + 1 < attempts
  }

  /** The vault tries again after exactly those attempts; the last attempt gives the outcome. */
  lemma {:induction false} VaultRetries(vault: Vault, ids: seq<ID>, i: nat, attempts: nat)
    requires i < attempts
    ensures var (outcome, lookups) := VaultFrom(vault, ids, i, attempts);
            && i < lookups <= attempts
            && (forall j: nat :: i <= j < lookups - 1 ==> VaultTriesAgain(vault, ids, attempts, j))
            && !VaultTriesAgain(vault, ids, attempts, lookups - 1)
            && EndsWith(vault, lookups - 1, outcome)
    decreases attempts - i
  {
    AnyPendingMeaning(vault, ids, i);
    if VaultTriesAgain(vault, ids, attempts, i) {
      VaultRetries(vault, ids, i + 1, attempts);
    }
  }

  /** The vault gets to attempt `j` and tries again after it. */
  ghost predicate Retried(vault: Vault, ids: seq<ID>, i: nat, attempts: nat, j: nat) {
    i <= j && forall l: nat :: i <= l <= j ==> VaultTriesAgain(vault, ids, attempts, l)
  }

  /** No attempt that the vault retries is cancelled or has a failing pending check. */
  ghost predicate Undisturbed(vault: Vault, ids: seq<ID>, i: nat, attempts: nat) {
    forall j: nat :: Retried(vault, ids, i, attempts, j) ==> SomePending(vault, ids, j) && !vault.cancelled(j)
  }

  /**
   With a budget, the two loops make the same lookups if and only if none of the attempts that the
   vault retries is cancelled or has a failing pending check, and then they have the same outcome.
   */
  lemma {:induction false} LoopsAgree(vault: Vault, ids: seq<ID>, i: nat, attempts: nat)
    requires i < attempts
    ensures AuditorFrom(vault, ids, i, attempts).1 == VaultFrom(vault, ids, i, attempts).1
            <==> Undisturbed(vault, ids, i, attempts)
    ensures Undisturbed(vault, ids, i, attempts) ==>
              AuditorFrom(vault, ids, i, attempts) == VaultFrom(vault, ids, i, attempts)
    decreases attempts - i
  {
    AnyPendingMeaning(vault, ids, i);
    if VaultTriesAgain(vault, ids, attempts, i) {
      VaultRetries(vault, ids, i + 1, attempts);
      LoopsAgree(vault, ids, i + 1, attempts);
      UndisturbedNext(vault, ids, i, attempts);
    } else {
      assert forall j: nat :: !Retried(vault, ids, i, attempts, j);
    }
  }

  lemma {:induction false} UndisturbedNext(vault: Vault, ids: seq<ID>, i: nat, attempts: nat)
    requires VaultTriesAgain(vault, ids, attempts, i)
    ensures Undisturbed(vault, ids, i, attempts)
            <==> SomePending(vault, ids, i) && !vault.cancelled(i) && Undisturbed(vault, ids, i + 1, attempts)
  {
    assert Retried(vault, ids, i, attempts, i);
    forall j: nat | j != i
      ensures Retried(vault, ids, i, attempts, j) <==> Retried(vault, ids, i + 1, attempts, j)
    {
    }
  }

  lemma {:induction false} PendingKnown(vault: Vault, ids: seq<ID>, attempt: nat)
    requires forall id :: id in ids ==> vault.pending(attempt, id).Ok?
    ensures SomePending(vault, ids, attempt) <==> !NonePending(vault, ids, attempt)
  {
    AnyPendingMeaning(vault, ids, attempt);
    assert !FirstAnswers(vault, ids, attempt, Err);
    var answer := AnyPending(vault, ids, attempt);
    if answer.value {
      assert answer == Ok(true);
    } else {
      assert answer == Ok(false);
    }
  }

  /** Without cancellations and failing pending checks the loops agree. */
  lemma {:induction false} LoopsAgreeInPeace(vault: Vault, ids: seq<ID>, attempts: nat)
    requires 0 < attempts
    requires forall i: nat :: i < attempts ==> !vault.cancelled(i)
    requires forall i: nat, id :: i < attempts && id in ids ==> vault.pending(i, id).Ok?
    ensures AuditorFrom(vault, ids, 0, attempts) == VaultFrom(vault, ids, 0, attempts)
  {
    forall j: nat | Retried(vault, ids, 0, attempts, j) ensures SomePending(vault, ids, j) && !vault.cancelled(j) {
      assert VaultTriesAgain(vault, ids, attempts, j);
      PendingKnown(vault, ids, j);
    }
    LoopsAgree(vault, ids, 0, attempts);
  }

  /** A pending check that fails once makes the auditor give up where the vault finds the tokens. */
  lemma {:induction false} LoopsDiffer(id: ID, tokens: seq<Token>)
    ensures var vault := Vault((i: nat) => if i == 0 then Err else Ok(tokens), (i: nat, x: ID) => Err,
                               (i: nat) => false);
            && AuditorFrom(vault, [id], 0, 2) == (Failed, 1)
            && VaultFrom(vault, [id], 0, 2) == (Found(tokens), 2)
  {
    var vault := Vault((i: nat) => if i == 0 then Err else Ok(tokens), (i: nat, x: ID) => Err, (i: nat) => false);
    assert AnyPending(vault, [id], 0) == Err;
    assert VaultFrom(vault, [id], 1, 2) == (Found(tokens), 2);
  }

  // ---------------------------------------------------------------------------------------
  // The tokens by ID

  /** Indexing the tokens panics if the vault hands back fewer than it was asked for. */
  datatype Retrieval = Tokens(byText: map<string, Token>) | Failure | Panic

  /**
   `RetrieveAuditTokens`: an ID is mapped to the token at its own position, the last one if it is
   repeated, if and only if the lookup finds a token for every ID.
   */
  method RetrieveAuditTokens(vault: Vault, ids: seq<ID>, numRetries: int) returns (result: Retrieval)
    ensures var outcome := AuditorFrom(vault, ids, 0, Attempts(numRetries)).0;
            if ids == [] then result == Tokens(map[])
            else
              && (result.Failure? <==> outcome.Failed?)
              && (result.Panic? <==> outcome.Found? && |outcome.tokens| < |ids|)
              && (result.Tokens? ==> Indexes(result.byText, Texts(ids), outcome.tokens, |ids|))
  {
    if |ids| == 0 {
      return Tokens(map[]);
    }
    var outcome, _ := ListAuditTokensWithRetry(vault, ids, numRetries);
    if outcome.Failed? {
      return Failure;
    }
    if |outcome.tokens| < |ids| {
      return Panic;
    }
    var byText := TokensByText(ids, outcome.tokens);
    return Tokens(byText);
  }

  function Texts(ids: seq<ID>): seq<string> {
    seq(|ids|, i requires 0 <= i < |ids| => IdText(ids[i]))
  }

  method TokensByText(ids: seq<ID>, tokens: seq<Token>) returns (byText: map<string, Token>)
    requires |tokens| >= |ids|
    ensures Indexes(byText, Texts(ids), tokens, |ids|)
  {
    byText := map[];
    for i := 0 to |ids|
      invariant Indexes(byText, Texts(ids), tokens, i)
    {
      IndexesNext(byText, Texts(ids), tokens, i);
      byText := byText[IdText(ids[i]) := tokens[i]];
    }
  }

  /** The last position of a key among the first `n`. */
  predicate LastAt<K(==)>(keys: seq<K>, i: nat, n: nat)
    requires i < n <= |keys|
  {
    forall j :: i < j < n ==> keys[j] != keys[i]
  }

  ghost predicate Listed<K>(keys: seq<K>, n: nat, k: K)
    requires n <= |keys|
  {
    exists i :: 0 <= i < n && keys[i] == k
  }

  /** A map has exactly the listed keys, each with the value at its last position. */
  ghost predicate Indexes<K(!new), V>(m: map<K, V>, keys: seq<K>, values: seq<V>, n: nat) {
    && n <= |keys| && n <= |values|
    && (forall k :: k in m <==> Listed(keys, n, k))
    && forall i: nat | i < n && LastAt(keys, i, n) :: keys[i] in m && m[keys[i]] == values[i]
  }

  lemma {:induction false} ListedNext<K>(keys: seq<K>, n: nat, k: K)
    requires n < |keys|
    ensures Listed(keys, n + 1, k) <==> Listed(keys, n, k) || k == keys[n]
  {
  }

  lemma {:induction false} IndexesNext<K(!new), V>(m: map<K, V>, keys: seq<K>, values: seq<V>, n: nat)
    requires n < |keys| && n < |values| && Indexes(m, keys, values, n)
    ensures Indexes(m[keys[n] := values[n]], keys, values, n + 1)
  {
    var m' := m[keys[n] := values[n]];
    forall k ensures k in m' <==> Listed(keys, n + 1, k) {
      ListedNext(keys, n, k);
    }
    forall i: nat | i < n + 1 && LastAt(keys, i, n + 1) ensures keys[i] in m' && m'[keys[i]] == values[i] {
      if i < n {
        assert LastAt(keys, i, n);
        assert keys[n] != keys[i];
      }
    }
  }

  /** For IDs without repetition, every ID finds the token at its own position. */
  lemma {:induction false} OwnToken(byText: map<string, Token>, ids: seq<ID>, tokens: seq<Token>, i: nat)
    requires Indexes(byText, Texts(ids), tokens, |ids|) && Distinct(ids) && i < |ids|
    ensures IdText(ids[i]) in byText && byText[IdText(ids[i])] == tokens[i]
  {
    forall j | i < j < |ids| ensures Texts(ids)[j] != Texts(ids)[i] {
      if IdText(ids[j]) == IdText(ids[i]) {
        IdTextInjective(ids[j], ids[i]);
      }
    }
    assert LastAt(Texts(ids), i, |ids|);
  }
}
