/** Tokens and their identifiers (token/token/token.go). */
module Tokens {
  import opened Prelude
  import opened Numerals

  datatype ID = ID(txId: string, index: nat)

  datatype Token = Token(owner: Bytes, typ: string, quantity: string)

  /** `ID.String`: the printed form used as a map key. */
  function IdText(id: ID): string {
    "[" + id.txId + ":" + Text(id.index, Ten) + "]"
  }

  lemma {:induction false} TextHasNoColon(n: nat)
    ensures ':' !in Text(n, Ten)
  {
    forall i | 0 <= i < |Text(n, Ten)| ensures Text(n, Ten)[i] != ':' {
      TextDigits(n, Ten, i);
    }
  }

  lemma {:induction false} TextInjective(m: nat, n: nat)
    requires Text(m, Ten) == Text(n, Ten)
    ensures m == n
  {
    DecimalRoundTrip(m);
    DecimalRoundTrip(n);
  }

  /** The last colon splits a string in one way. */
  lemma {:induction false} LastColonUnique(a: string, b: string, a': string, b': string)
    requires ':' !in b && ':' !in b'
    requires a + ":" + b == a' + ":" + b'
    ensures a == a' && b == b'
  {
    var s := a + ":" + b;
    assert s[|a|] == ':' && s[|a'|] == ':';
    assert forall k :: |a| < k < |s| ==> s[k] == b[k - |a| - 1];
    assert forall k :: |a'| < k < |s| ==> s[k] == b'[k - |a'| - 1];
    assert |a| == |a'|;
    assert a == s[..|a|] && a' == s[..|a'|];
    assert b == s[|a| + 1..] && b' == s[|a'| + 1..];
  }

  /** Different identifiers print differently, whatever characters the transaction ID contains. */
  lemma {:induction false} IdTextInjective(id: ID, id': ID)
    requires IdText(id) == IdText(id')
    ensures id == id'
  {
    var n, n' := Text(id.index, Ten), Text(id'.index, Ten);
    var body, body' := id.txId + ":" + n, id'.txId + ":" + n';
    assert IdText(id) == "[" + body + "]" && IdText(id') == "[" + body' + "]";
    assert body == IdText(id)[1..|IdText(id)| - 1];
    assert body' == IdText(id')[1..|IdText(id')| - 1];
    TextHasNoColon(id.index);
    TextHasNoColon(id'.index);
    LastColonUnique(id.txId, n, id'.txId, n');
    TextInjective(id.index, id'.index);
  }
}
