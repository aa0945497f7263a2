/** The composite key of an identity configuration (token/driver/wallet.go). */
module CompositeKey {
  import opened Prelude

  const SEPARATOR: byte := 64 // '@'
  const ESCAPE: byte := 92 // '\'

  predicate Delimiter(b: byte) {
    b == SEPARATOR || b == ESCAPE
  }

  function EscapedByte(b: byte): Bytes {
    if Delimiter(b) then [ESCAPE, b] else [b]
  }

  /** Every delimiter preceded by an escape. */
  function Escaped(field: Bytes): Bytes {
    if field == [] then []
    else EscapedByte(field[0]) + Escaped(field[1..])
  }

  lemma {:induction false} NothingToEscape(field: Bytes)
    requires SEPARATOR !in field && ESCAPE !in field
    ensures Escaped(field) == field
  {
    if field != [] {
      NothingToEscape(field[1..]);
    }
  }

  /** Each '@' and each '\' is preceded by '\', one byte after the other. */
  lemma {:induction false} EscapedNext(field: Bytes, b: byte)
    ensures Escaped(field + [b]) == Escaped(field) + if b == 64 || b == 92 then [92, b] else [b]
  {
    if field == [] {
      assert (field + [b])[1..] == [];
      assert field + [b] == [b] && EscapedByte(b) + [] == EscapedByte(b) && [] + EscapedByte(b) == EscapedByte(b);
    } else {
      EscapedNext(field[1..], b);
      assert (field + [b])[1..] == field[1..] + [b];
    }
  }

  /** `escapeConfigKeyField`: a field without delimiters is returned as it is. */
  method EscapeField(field: Bytes) returns (escaped: Bytes)
    ensures escaped == Escaped(field)
  {
    if SEPARATOR !in field && ESCAPE !in field {
      NothingToEscape(field);
      return field;
    }
    escaped := [];
    for i := 0 to |field|
      invariant escaped == Escaped(field[..i])
    {
      EscapedNext(field[..i], field[i]);
      assert field[..i + 1] == field[..i] + [field[i]];
      if Delimiter(field[i]) {
        escaped := escaped + [ESCAPE];
      }
      escaped := escaped + [field[i]];
    }
    assert field[..|field|] == field;
  }

  /** The three escaped fields, joined. */
  function Key(id: Bytes, typ: Bytes, url: Bytes): Bytes {
    Escaped(id) + [SEPARATOR] + (Escaped(typ) + [SEPARATOR] + Escaped(url))
  }

  /** `CompositeKey`. */
  method MakeKey(id: Bytes, typ: Bytes, url: Bytes) returns (key: Bytes)
    ensures key == Key(id, typ, url)
  {
    var a := EscapeField(id);
    var b := EscapeField(typ);
    var c := EscapeField(url);
    key := a + [SEPARATOR] + b + [SEPARATOR] + c;
  }

  // ---------------------------------------------------------------------------------------
  // Reading a key back

  /** A field up to the first separator that is not escaped, and what follows the separator. */
  function ReadField(s: Bytes): (Bytes, Option<Bytes>) {
    if s == [] then ([], None)
    else if s[0] == SEPARATOR then ([], Some(s[1..]))
    else if s[0] == ESCAPE && |s| > 1 then
      var (field, rest) := ReadField(s[2..]);
      ([s[1]] + field, rest)
    else
      var (field, rest) := ReadField(s[1..]);
      ([s[0]] + field, rest)
  }

  function ReadKey(s: Bytes): Option<(Bytes, Bytes, Bytes)> {
    match ReadField(s)
    case (_, None) => None
    case (id, Some(s1)) =>
      match ReadField(s1)
      case (_, None) => None
      case (typ, Some(s2)) =>
        match ReadField(s2)
        case (_, Some(_)) => None
        case (url, None) => Some((id, typ, url))
  }

  /** An escaped byte is read as the byte. */
  lemma {:induction false} ReadByte(b: byte, s: Bytes)
    ensures ReadField(EscapedByte(b) + s) == ([b] + ReadField(s).0, ReadField(s).1)
  {
    assert (EscapedByte(b) + s)[|EscapedByte(b)|..] == s;
  }

  lemma {:induction false} ReadEscaped(field: Bytes, end: Bytes)
    ensures ReadField(Escaped(field) + end) == (field + ReadField(end).0, ReadField(end).1)
  {
    if field == [] {
      assert [] + end == end;
      assert [] + ReadField(end).0 == ReadField(end).0;
    } else {
      ReadEscaped(field[1..], end);
      assert Escaped(field) + end == EscapedByte(field[0]) + (Escaped(field[1..]) + end);
      ReadByte(field[0], Escaped(field[1..]) + end);
      assert [field[0]] + (field[1..] + ReadField(end).0) == field + ReadField(end).0;
    }
  }

  lemma {:induction false} ReadFirst(field: Bytes, rest: Bytes)
    ensures ReadField(Escaped(field) + [SEPARATOR] + rest) == (field, Some(rest))
  {
    ReadEscaped(field, [SEPARATOR] + rest);
    assert ([SEPARATOR] + rest)[1..] == rest;
    assert Escaped(field) + [SEPARATOR] + rest == Escaped(field) + ([SEPARATOR] + rest);
    assert field + [] == field;
  }

  lemma {:induction false} ReadLast(field: Bytes)
    ensures ReadField(Escaped(field)) == (field, None)
  {
    ReadEscaped(field, []);
    assert Escaped(field) + [] == Escaped(field);
    assert field + [] == field;
  }

  /** The three fields are recovered from the key, whatever bytes they hold. */
  lemma {:induction false} KeyRoundTrip(id: Bytes, typ: Bytes, url: Bytes)
    ensures ReadKey(Key(id, typ, url)) == Some((id, typ, url))
  {
    ReadFirst(id, Escaped(typ) + [SEPARATOR] + Escaped(url));
    ReadFirst(typ, Escaped(url));
    ReadLast(url);
  }

  /** Fields with neither '@' nor '\' in them are joined by '@'. */
  lemma {:induction false} PlainKey(id: Bytes, typ: Bytes, url: Bytes)
    requires forall b :: b in id + typ + url ==> b != 64 && b != 92
    ensures Key(id, typ, url) == id + [64] + typ + [64] + url
  {
    var all := id + typ + url;
    assert forall b :: b in id ==> b in all;
    assert forall b :: b in typ ==> b in all;
    assert forall b :: b in url ==> b in all;
    NothingToEscape(id);
    NothingToEscape(typ);
    NothingToEscape(url);
  }

  /** Distinct configurations have distinct keys. */
  lemma {:induction false} KeyInjective(id: Bytes, typ: Bytes, url: Bytes, id': Bytes, typ': Bytes, url': Bytes)
    ensures Key(id, typ, url) == Key(id', typ', url') <==> id == id' && typ == typ' && url == url'
  {
    KeyRoundTrip(id, typ, url);
    KeyRoundTrip(id', typ', url');
  }
}
