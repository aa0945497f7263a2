/**
 Correspondence of a request and its metadata: `GetIssues` and `GetTransfers`
 (token/driver/request.go), `ValidateStructure` and `Check` (token/core/common/auditor.go).
 */
module Structure {
  import opened Prelude
  import opened Der
  import opened Metadata

  const TWO32 := 0x1_0000_0000

  // ---------------------------------------------------------------------------------------
  // The actions of one kind

  /** The serialized actions of a kind, in order. */
  function RawOf(actions: seq<TypedAction>, kind: int): seq<Bytes> {
    if actions == [] then []
    else
      var n := |actions| - 1;
      RawOf(actions[..n], kind) + if actions[n].kind == kind then [actions[n].raw] else []
  }

  /** `GetIssues`. */
  method GetIssues(actions: seq<TypedAction>) returns (issues: seq<Bytes>)
    ensures issues == RawOf(actions, ISSUE)
  {
    issues := [];
    for i := 0 to |actions|
      invariant issues == RawOf(actions[..i], ISSUE)
    {
      assert actions[..i + 1][..i] == actions[..i];
      if actions[i].kind == ISSUE {
        issues := issues + [actions[i].raw];
      }
    }
    assert actions[..|actions|] == actions;
  }

  /** `GetTransfers`. */
  method GetTransfers(actions: seq<TypedAction>) returns (transfers: seq<Bytes>)
    ensures transfers == RawOf(actions, TRANSFER)
  {
    transfers := [];
    for i := 0 to |actions|
      invariant transfers == RawOf(actions[..i], TRANSFER)
    {
      assert actions[..i + 1][..i] == actions[..i];
      if actions[i].kind == TRANSFER {
        transfers := transfers + [actions[i].raw];
      }
    }
    assert actions[..|actions|] == actions;
  }

  lemma {:induction false} RawPrefix(actions: seq<TypedAction>, kind: int, i: nat)
    requires i <= |actions|
    ensures RawOf(actions[..i], kind) <= RawOf(actions, kind)
  {
    if i == |actions| {
      assert actions[..i] == actions;
    } else {
      RawPrefix(actions[..|actions| - 1], kind, i);
      assert actions[..|actions| - 1][..i] == actions[..i];
    }
  }

  lemma {:induction false} CountNext(actions: seq<TypedAction>, kind: int, i: nat)
    requires i < |actions|
    ensures |RawOf(actions[..i + 1], kind)| == |RawOf(actions[..i], kind)| + if actions[i].kind == kind then 1 else 0
  {
    assert actions[..i + 1][..i] == actions[..i];
  }

  /** The rank of an action among those of its kind is its index in their list. */
  lemma {:induction false} RawAt(actions: seq<TypedAction>, i: nat)
    requires i < |actions|
    ensures var kind := actions[i].kind;
            var k := |RawOf(actions[..i], kind)|;
            k < |RawOf(actions, kind)| && RawOf(actions, kind)[k] == actions[i].raw
  {
    assert actions[..i + 1][..i] == actions[..i];
    RawPrefix(actions, actions[i].kind, i + 1);
  }

  // ---------------------------------------------------------------------------------------
  // Structural correspondence

  /** The metadata entry says it is for this position and has metadata of the action's kind only. */
  predicate Describes(entry: Entry, action: TypedAction, i: nat) {
    && entry.actionId == i % TWO32
    && (action.kind == ISSUE || action.kind == TRANSFER)
    && (entry.issue.Some? <==> action.kind == ISSUE)
    && (entry.transfer.Some? <==> action.kind == TRANSFER)
  }

  predicate Corresponds(actions: seq<TypedAction>, entries: seq<Entry>) {
    && |entries| == |actions|
    && forall i :: 0 <= i < |actions| ==> Describes(entries[i], actions[i], i)
  }

  predicate NoNil<T>(s: seq<Option<T>>) {
    forall i :: 0 <= i < |s| ==> s[i].Some?
  }

  function Values<T>(s: seq<Option<T>>): seq<T>
    requires NoNil(s)
  {
    seq(|s|, i requires 0 <= i < |s| => s[i].value)
  }

  /** `validateActionStructure`. */
  method ValidateActionStructure(action: Option<TypedAction>, entry: Option<Entry>, i: nat) returns (ok: bool)
    ensures ok <==> action.Some? && entry.Some? && Describes(entry.value, action.value, i)
  {
    if action.None? {
      return false;
    }
    if entry.None? {
      return false;
    }
    if entry.value.actionId != i % TWO32 {
      return false;
    }
    if action.value.kind == ISSUE {
      if entry.value.issue.None? {
        return false;
      }
      if entry.value.transfer.Some? {
        return false;
      }
    } else if action.value.kind == TRANSFER {
      if entry.value.transfer.None? {
        return false;
      }
      if entry.value.issue.Some? {
        return false;
      }
    } else {
      return false;
    }
    return true;
  }

  /** `ValidateStructure`, on slices that may hold nil pointers. */
  method ValidateStructure(actions: seq<Option<TypedAction>>, entries: seq<Option<Entry>>) returns (ok: bool)
    ensures ok <==> NoNil(actions) && NoNil(entries) && Corresponds(Values(actions), Values(entries))
  {
    if |actions| != |entries| {
      return false;
    }
    for i := 0 to |actions|
      invariant forall j :: 0 <= j < i ==> actions[j].Some? && entries[j].Some?
                                           && Describes(entries[j].value, actions[j].value, j)
    {
      var fine := ValidateActionStructure(actions[i], entries[i], i);
      if !fine {
        if NoNil(actions) && NoNil(entries) {
          assert Values(entries)[i] == entries[i].value && Values(actions)[i] == actions[i].value;
        }
        return false;
      }
    }
    return true;
  }

  lemma {:induction false} CorrespondsPrefix(actions: seq<TypedAction>, entries: seq<Entry>, i: nat)
    requires Corresponds(actions, entries) && i <= |actions|
    ensures Corresponds(actions[..i], entries[..i])
  {
  }

  /** Issues and transfers are numbered alike on both sides. */
  lemma {:induction false} SameCounts(actions: seq<TypedAction>, entries: seq<Entry>)
    requires Corresponds(actions, entries)
    ensures |RawOf(actions, ISSUE)| == |IssueEntries(entries)|
    ensures |RawOf(actions, TRANSFER)| == |TransferEntries(entries)|
  {
    if actions != [] {
      var n := |actions| - 1;
      CorrespondsPrefix(actions, entries, n);
      SameCounts(actions[..n], entries[..n]);
      assert Describes(entries[n], actions[n], n);
    }
  }

  /**
   In a request that corresponds to its metadata, the action at a position, its metadata, and the
   serialized action and metadata found by counting the actions of its kind are the same ones.
   */
  lemma {:induction false} PositionsAgree(actions: seq<TypedAction>, entries: seq<Entry>, i: nat)
    requires Corresponds(actions, entries) && i < |actions|
    ensures var k := |RawOf(actions[..i], actions[i].kind)|;
            && k < |RawOf(actions, actions[i].kind)| && RawOf(actions, actions[i].kind)[k] == actions[i].raw
            && (actions[i].kind == ISSUE ==>
                  k < |IssueEntries(entries)| && Some(IssueEntries(entries)[k]) == entries[i].issue)
            && (actions[i].kind == TRANSFER ==>
                  k < |TransferEntries(entries)| && Some(TransferEntries(entries)[k]) == entries[i].transfer)
            && (actions[i].kind == ISSUE || actions[i].kind == TRANSFER)
  {
    RawAt(actions, i);
    CorrespondsPrefix(actions, entries, i);
    SameCounts(actions[..i], entries[..i]);
    assert Describes(entries[i], actions[i], i);
    assert entries[..i + 1][..i] == entries[..i];
    IssueEntriesPrefix(entries, i + 1);
    TransferEntriesPrefix(entries, i + 1);
  }

  // ---------------------------------------------------------------------------------------
  // Check

  ghost predicate Deserialized<A>(raws: seq<Bytes>, actions: seq<A>, deserialize: Bytes -> Result<A>) {
    |actions| == |raws| && forall k :: 0 <= k < |raws| ==> deserialize(raws[k]) == Ok(actions[k])
  }

  /** Every serialized action in turn. */
  method DeserializeAll<A>(raws: seq<Bytes>, deserialize: Bytes -> Result<A>) returns (result: Result<seq<A>>)
    ensures result.Ok? <==> forall k :: 0 <= k < |raws| ==> deserialize(raws[k]).Ok?
    ensures result.Ok? ==> Deserialized(raws, result.value, deserialize)
  {
    var all: seq<A> := [];
    for k := 0 to |raws|
      invariant |all| == k && forall l :: 0 <= l < k ==> deserialize(raws[l]) == Ok(all[l])
    {
      var one := deserialize(raws[k]);
      if one.Err? {
        return Err;
      }
      all := all + [one.value];
    }
    return Ok(all);
  }

  /** What the auditor checks about the action at a position of the request. */
  predicate Checked<I, T>(action: TypedAction, i: nat, issue: Bytes -> Result<I>, transfer: Bytes -> Result<T>,
                          checkIssue: (I, nat) -> bool, checkTransfer: (T, nat) -> bool)
  {
    && (action.kind == ISSUE ==> issue(action.raw).Ok? && checkIssue(issue(action.raw).value, i))
    && (action.kind == TRANSFER ==> transfer(action.raw).Ok? && checkTransfer(transfer(action.raw).value, i))
  }

  /**
   `Check`: the validators see, at each position, the action deserialized from that very position,
   together with the position its metadata is at.
   */
  method Check<I, T>(actions: seq<Option<TypedAction>>, entries: seq<Option<Entry>>,
                     issue: Bytes -> Result<I>, transfer: Bytes -> Result<T>,
                     checkIssue: (I, nat) -> bool, checkTransfer: (T, nat) -> bool)
    returns (ok: bool)
    ensures ok <==> NoNil(actions) && NoNil(entries) && Corresponds(Values(actions), Values(entries))
                    && forall i :: 0 <= i < |actions| ==>
                         Checked(actions[i].value, i, issue, transfer, checkIssue, checkTransfer)
  {
    ok := ValidateStructure(actions, entries);
    if !ok {
      return;
    }
    var typed := Values(actions);
    forall i | 0 <= i < |typed| ensures typed[i].kind == ISSUE || typed[i].kind == TRANSFER {
      assert Describes(Values(entries)[i], typed[i], i);
    }
    var issues := GetIssues(typed);
    var issueActions := DeserializeAll(issues, issue);
    if issueActions.Err? {
      var k :| 0 <= k < |issues| && issue(issues[k]).Err?;
      RawComesFrom(typed, ISSUE, k);
      return false;
    }
    var transfers := GetTransfers(typed);
    var transferActions := DeserializeAll(transfers, transfer);
    if transferActions.Err? {
      var k :| 0 <= k < |transfers| && transfer(transfers[k]).Err?;
      RawComesFrom(typed, TRANSFER, k);
      return false;
    }
    assert forall i :: 0 <= i < |actions| ==> typed[i] == actions[i].value;
    ok := CheckEach(typed, issueActions.value, transferActions.value, issue, transfer, checkIssue, checkTransfer);
  }

  /** The loop of `Check`, which finds each deserialized action by counting its kind. */
  method CheckEach<I, T>(actions: seq<TypedAction>, issueActions: seq<I>, transferActions: seq<T>,
                         ghost issue: Bytes -> Result<I>, ghost transfer: Bytes -> Result<T>,
                         checkIssue: (I, nat) -> bool, checkTransfer: (T, nat) -> bool)
    returns (ok: bool)
    requires forall i :: 0 <= i < |actions| ==> actions[i].kind == ISSUE || actions[i].kind == TRANSFER
    requires Deserialized(RawOf(actions, ISSUE), issueActions, issue)
    requires Deserialized(RawOf(actions, TRANSFER), transferActions, transfer)
    ensures ok <==> forall i :: 0 <= i < |actions| ==>
                      Checked(actions[i], i, issue, transfer, checkIssue, checkTransfer)
  {
    var issueIndex, transferIndex := 0, 0;
    for i := 0 to |actions|
      invariant issueIndex == |RawOf(actions[..i], ISSUE)| && transferIndex == |RawOf(actions[..i], TRANSFER)|
      invariant forall j :: 0 <= j < i ==> Checked(actions[j], j, issue, transfer, checkIssue, checkTransfer)
    {
      RawAt(actions, i);
      CountNext(actions, ISSUE, i);
      CountNext(actions, TRANSFER, i);
      if actions[i].kind == ISSUE {
        assert issue(actions[i].raw) == Ok(issueActions[issueIndex]);
        if !checkIssue(issueActions[issueIndex], i) {
          return false;
        }
        issueIndex := issueIndex + 1;
      } else {
        // A transfer: the structure leaves no other kind.
        assert transfer(actions[i].raw) == Ok(transferActions[transferIndex]);
        if !checkTransfer(transferActions[transferIndex], i) {
          return false;
        }
        transferIndex := transferIndex + 1;
      }
    }
    return true;
  }

  /** Every serialized action of a kind is the one of some position. */
  lemma {:induction false} RawComesFrom(actions: seq<TypedAction>, kind: int, k: nat)
    requires k < |RawOf(actions, kind)|
    ensures exists i :: 0 <= i < |actions| && actions[i] == TypedAction(kind, RawOf(actions, kind)[k])
  {
    var n := |actions| - 1;
    if k < |RawOf(actions[..n], kind)| {
      RawComesFrom(actions[..n], kind, k);
      var i :| 0 <= i < n && actions[..n][i] == TypedAction(kind, RawOf(actions, kind)[k]);
      assert actions[i] == actions[..n][i];
    } else {
      assert actions[n] == TypedAction(kind, RawOf(actions, kind)[k]);
    }
  }
}
