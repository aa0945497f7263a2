/** Generic facts about loops that append to a list, stop at the first error, or keep a sublist. */
module Sequences {
  import opened Prelude

  // ---------------------------------------------------------------------------------------
  // Concatenating results until the first error

  /** All the lists one after the other, or an error if any of them is one. */
  function Collect<T>(items: seq<Result<seq<T>>>): Result<seq<T>> {
    if items == [] then Ok([])
    else
      match (Collect(items[..|items| - 1]), items[|items| - 1])
      case (Ok(before), Ok(last)) => Ok(before + last)
      case _ => Err
  }

  lemma {:induction false} CollectOk<T>(items: seq<Result<seq<T>>>)
    ensures Collect(items).Ok? <==> forall i :: 0 <= i < |items| ==> items[i].Ok?
  {
    if items != [] {
      CollectOk(items[..|items| - 1]);
    }
  }

  lemma {:induction false} CollectNext<T>(items: seq<Result<seq<T>>>, i: nat)
    requires i < |items|
    ensures Collect(items[..i + 1]) == match (Collect(items[..i]), items[i])
                                       case (Ok(before), Ok(last)) => Ok(before + last)
                                       case _ => Err
  {
    assert items[..i + 1][..i] == items[..i];
  }

  /** An error is final. */
  lemma {:induction false} CollectErr<T>(items: seq<Result<seq<T>>>, i: nat)
    requires i < |items| && items[i].Err?
    ensures Collect(items).Err?
  {
    CollectOk(items);
  }

  lemma {:induction false} CollectConcat<T>(a: seq<Result<seq<T>>>, b: seq<Result<seq<T>>>)
    ensures Collect(a + b) == match (Collect(a), Collect(b))
                              case (Ok(x), Ok(y)) => Ok(x + y)
                              case _ => Err
  {
    if b == [] {
      assert a + b == a;
      if Collect(a).Ok? {
        assert Collect(a).value + [] == Collect(a).value;
      }
    } else {
      var init := b[..|b| - 1];
      CollectConcat(a, init);
      assert (a + b)[..|a + b| - 1] == a + init;
      match (Collect(a), Collect(init), b[|b| - 1]) {
        case (Ok(x), Ok(y), Ok(z)) => assert x + y + z == x + (y + z);
        case _ =>
      }
    }
  }

  // ---------------------------------------------------------------------------------------
  // Keeping the elements with a property

  function Filter<T>(s: seq<T>, p: T -> bool): seq<T> {
    if s == [] then []
    else Filter(s[..|s| - 1], p) + if p(s[|s| - 1]) then [s[|s| - 1]] else []
  }

  lemma {:induction false} FilterConcat<T>(a: seq<T>, b: seq<T>, p: T -> bool)
    ensures Filter(a + b, p) == Filter(a, p) + Filter(b, p)
  {
    if b == [] {
      assert a + b == a;
    } else {
      FilterConcat(a, b[..|b| - 1], p);
      assert (a + b)[..|a + b| - 1] == a + b[..|b| - 1];
    }
  }

  lemma {:induction false} FilterAll<T>(s: seq<T>, p: T -> bool)
    ensures (forall x :: x in s ==> p(x)) ==> Filter(s, p) == s
    ensures (forall x :: x in s ==> !p(x)) ==> Filter(s, p) == []
  {
    if s != [] {
      var init := s[..|s| - 1];
      FilterAll(init, p);
      assert s == init + [s[|s| - 1]];
      assert forall x :: x in init ==> x in s;
      assert s[|s| - 1] in s;
    }
  }

  lemma {:induction false} FilterMember<T>(s: seq<T>, p: T -> bool, x: T)
    ensures x in Filter(s, p) <==> x in s && p(x)
  {
    if s != [] {
      FilterMember(s[..|s| - 1], p, x);
      assert s == s[..|s| - 1] + [s[|s| - 1]];
    }
  }

  /** Filtering a concatenation is concatenating filtered parts. */
  lemma {:induction false} CollectFilter<T>(items: seq<Result<seq<T>>>, kept: seq<Result<seq<T>>>, p: T -> bool)
    requires |kept| == |items|
    requires forall i :: 0 <= i < |items| ==> items[i].Ok? && kept[i] == Ok(Filter(items[i].value, p))
    ensures Collect(items).Ok? && Collect(kept) == Ok(Filter(Collect(items).value, p))
  {
    if items != [] {
      var n := |items| - 1;
      CollectFilter(items[..n], kept[..n], p);
      FilterConcat(Collect(items[..n]).value, items[n].value, p);
    }
  }

  lemma {:induction false} CollectMember<T>(items: seq<Result<seq<T>>>, x: T) returns (i: nat)
    requires Collect(items).Ok? && x in Collect(items).value
    ensures i < |items| && items[i].Ok? && x in items[i].value
  {
    var n := |items| - 1;
    if x in items[n].value {
      i := n;
    } else {
      i := CollectMember(items[..n], x);
    }
  }

  /** Concatenating singletons. */
  lemma {:induction false} CollectSingletons<T>(items: seq<Result<seq<T>>>)
    requires Collect(items).Ok?
    requires forall k :: 0 <= k < |items| && items[k].Ok? ==> |items[k].value| == 1
    ensures |Collect(items).value| == |items|
    ensures forall k :: 0 <= k < |items| ==> items[k].Ok? && items[k].value[0] == Collect(items).value[k]
  {
    if items != [] {
      CollectSingletons(items[..|items| - 1]);
      CollectOk(items);
    }
  }

  // ---------------------------------------------------------------------------------------
  // Positions

  /** The elements of a list at increasing positions. */
  ghost predicate Selects<T>(s: seq<T>, at: seq<nat>, selected: seq<T>) {
    && |at| == |selected|
    && (forall m :: 0 <= m < |at| ==> at[m] < |s| && selected[m] == s[at[m]])
    && (forall l, m :: 0 <= l < m < |at| ==> at[l] < at[m])
  }

  /** Each element with a property, and no other, gives rise to one element of a second list, in order. */
  ghost predicate Yields<T, U>(s: seq<T>, p: T -> bool, at: seq<nat>, made: (T, nat, U) -> bool, yielded: seq<U>) {
    && |at| == |yielded|
    && (forall l, m :: 0 <= l < m < |at| ==> at[l] < at[m])
    && (forall m :: 0 <= m < |at| ==> at[m] < |s| && p(s[at[m]]) && made(s[at[m]], m, yielded[m]))
    && forall i: nat | i < |s| && p(s[i]) :: i in at
  }

  lemma {:induction false} YieldsNone<T, U>(s: seq<T>, p: T -> bool, at: seq<nat>, made: (T, nat, U) -> bool,
                                            yielded: seq<U>)
    requires s != [] && Yields(s[..|s| - 1], p, at, made, yielded) && !p(s[|s| - 1])
    ensures Yields(s, p, at, made, yielded)
  {
    var n := |s| - 1;
    assert forall m :: 0 <= m < |at| ==> s[..n][at[m]] == s[at[m]];
    forall i: nat | i < n && p(s[i]) ensures i in at {
      assert s[..n][i] == s[i];
    }
  }

  lemma {:induction false} YieldsNext<T, U>(s: seq<T>, p: T -> bool, at: seq<nat>, made: (T, nat, U) -> bool,
                                            yielded: seq<U>, last: U)
    requires s != [] && Yields(s[..|s| - 1], p, at, made, yielded)
    requires p(s[|s| - 1]) && made(s[|s| - 1], |yielded|, last)
    ensures Yields(s, p, at + [|s| - 1], made, yielded + [last])
  {
    var n := |s| - 1;
    assert forall m :: 0 <= m < |at| ==> s[..n][at[m]] == s[at[m]];
    forall i: nat | i < |s| && p(s[i]) ensures i in at + [n] {
      if i < n {
        assert s[..n][i] == s[i];
      }
    }
  }

  lemma {:induction false} SelectsNext<T>(s: seq<T>, at: seq<nat>, selected: seq<T>, n: nat)
    requires n < |s| && Selects(s[..n], at, selected)
    ensures Selects(s, at, selected)
    ensures Selects(s, at + [n], selected + [s[n]])
  {
  }
}
