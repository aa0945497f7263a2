/**
 Choosing the inputs and the change of a transfer (`prepareTransfer`, `parseInputIDs` and
 `genOutputs` in token/request.go). The vault, the selector and the wallet are answers.
 */
module Transfers {
  import opened Prelude
  import opened Sequences
  import opened Numerals
  import opened Quantities
  import opened Tokens

  datatype PublicParams = PublicParams(precision: nat, maxTokenValue: nat, graphHiding: bool)

  // ---------------------------------------------------------------------------------------
  // Inputs named by the caller

  function Amounts(tokens: seq<Token>): seq<string> {
    seq(|tokens|, i requires 0 <= i < |tokens| => tokens[i].quantity)
  }

  /** Once a token has a type, every later token has that type. */
  predicate OneType(tokens: seq<Token>) {
    forall i, j :: 0 <= i < j < |tokens| && tokens[i].typ != "" ==> tokens[j].typ == tokens[i].typ
  }

  function TypeOf(tokens: seq<Token>): string {
    if tokens == [] then "" else tokens[|tokens| - 1].typ
  }

  /** The sum is absent when the type mismatch is reported by wrapping an error that is nil. */
  datatype ParsedInputs = Failed | Parsed(ids: seq<ID>, sum: Option<Quantity>, typ: string)

  /** `parseInputIDs`; `wrapsNil` says whether wrapping a nil error yields nil. */
  method ParseInputIds(ids: seq<ID>, stored: Result<seq<Token>>, precision: nat, wrapsNil: bool)
    returns (result: ParsedInputs)
    requires precision < TWO64
    ensures result.Parsed? && result.sum.Some? <==>
            stored.Ok? && OneType(stored.value) && Summable(Amounts(stored.value), precision)
    ensures result.Parsed? && result.sum.Some? ==>
              && result.ids == ids && result.typ == TypeOf(stored.value)
              && result.sum.value == Exactly(Total(Amounts(stored.value)), precision)
              && Valid(result.sum.value)
    ensures result.Parsed? && result.sum.None? ==> wrapsNil && result.ids == [] && result.typ == ""
  {
    if stored.Err? {
      return Failed;
    }
    var tokens := stored.value;
    var typ := "";
    ghost var amounts := Amounts(tokens);
    var sum := ZeroQuantity(precision);
    LimitPositive(precision);
    for i := 0 to |tokens|
      invariant OneType(tokens[..i]) && typ == TypeOf(tokens[..i])
      invariant Summable(amounts[..i], precision)
      invariant Valid(sum) && Canonical(sum)
      invariant sum.value == Total(amounts[..i]) && PrecisionOf(sum) == precision
    {
      var tok := tokens[i];
      TypesNext(tokens, i);
      if |typ| == 0 {
        typ := tok.typ;
      }
      if typ != tok.typ {
        return if wrapsNil then Parsed([], None, "") else Failed;
      }
      var added := AddToken(sum, tok.quantity, precision);
      SummableNext(amounts, i, precision);
      if added.Err? {
        SummablePrefix(amounts, i + 1, precision);
        return Failed;
      }
      sum := added.value;
    }
    assert tokens[..|tokens|] == tokens && amounts[..|tokens|] == amounts;
    return Parsed(ids, Some(sum), typ);
  }

  lemma {:induction false} TypesNext(tokens: seq<Token>, i: nat)
    requires i < |tokens| && OneType(tokens[..i])
    ensures var typ := TypeOf(tokens[..i]);
            if typ == "" || typ == tokens[i].typ then OneType(tokens[..i + 1]) else !OneType(tokens)
    ensures TypeOf(tokens[..i + 1]) == tokens[i].typ
  {
    var prefix := tokens[..i];
    if i > 0 {
      assert prefix[i - 1] == tokens[i - 1];
      forall j | 0 <= j < i && tokens[j].typ != "" ensures tokens[j].typ == TypeOf(prefix) {
        assert prefix[j] == tokens[j];
      }
    }
    forall a, b | 0 <= a < b < i && tokens[a].typ != "" ensures tokens[b].typ == tokens[a].typ {
      assert prefix[a] == tokens[a] && prefix[b] == tokens[b];
    }
  }

  // ---------------------------------------------------------------------------------------
  // Requested outputs

  function SumOf(values: seq<nat>): nat {
    if values == [] then 0 else SumOf(values[..|values| - 1]) + values[|values| - 1]
  }

  /** Every requested value is within the maximum and their total within the precision. */
  ghost predicate Generable(pp: PublicParams, values: seq<nat>) {
    && ValidPrecision(pp.precision) && pp.maxTokenValue < Limit(pp.precision)
    && (forall i :: 0 <= i < |values| ==> values[i] <= pp.maxTokenValue)
    && SumOf(values) < Limit(pp.precision)
  }

  /** An output of a given owner, type and value, the value written in hexadecimal. */
  predicate Carries(token: Token, owner: Bytes, typ: string, value: nat) {
    token == Token(owner, typ, "0x" + Text(value, Sixteen))
  }

  ghost predicate Outputs(tokens: seq<Token>, owners: seq<Bytes>, typ: string, values: seq<nat>)
    requires |values| <= |owners|
  {
    && |tokens| == |values|
    && forall i :: 0 <= i < |values| ==> Carries(tokens[i], owners[i], typ, values[i])
  }

  predicate Words(values: seq<nat>) {
    forall i :: 0 <= i < |values| ==> values[i] < TWO64
  }

  /** One requested output. */
  method GenOutput(pp: PublicParams, max: Quantity, sum: Quantity, value: nat, owner: Bytes, typ: string)
    returns (result: Result<(Token, Quantity)>)
    requires pp.precision < TWO64 && value < TWO64
    requires ValidPrecision(pp.precision) && Valid(max) && Valid(sum) && Canonical(sum)
    requires PrecisionOf(sum) == pp.precision
    ensures result.Ok? <==> value < Limit(pp.precision) && value <= max.value && sum.value + value < Limit(pp.precision)
    ensures result.Ok? ==> Carries(result.value.0, owner, typ, value)
                           && result.value.1 == sum.(value := sum.value + value) && Valid(result.value.1)
  {
    UInt64ToQuantityRefines(value, pp.precision);
    var q := UInt64ToQuantity(value, pp.precision);
    if q.Err? {
      return Err;
    }
    CmpRefines(q.value, max);
    if Cmp(q.value, max) == 1 {
      return Err;
    }
    AddRefines(sum, q.value);
    var added := Add(sum, q.value);
    if added.Err? {
      return Err;
    }
    return Ok((Token(owner, typ, Hex(q.value)), added.value));
  }

  /** `genOutputs`. */
  method GenOutputs(pp: PublicParams, values: seq<nat>, owners: seq<Bytes>, typ: string)
    returns (result: Result<(seq<Token>, Quantity)>)
    requires pp.precision < TWO64 && pp.maxTokenValue < TWO64 && Words(values)
    requires |values| <= |owners|
    ensures result.Ok? <==> Generable(pp, values)
    ensures result.Ok? ==>
              && Outputs(result.value.0, owners, typ, values)
              && result.value.1 == Exactly(SumOf(values), pp.precision) && Valid(result.value.1)
  {
    UInt64ToQuantityRefines(pp.maxTokenValue, pp.precision);
    var max := UInt64ToQuantity(pp.maxTokenValue, pp.precision);
    if max.Err? {
      return Err;
    }
    var outputSum := ZeroQuantity(pp.precision);
    var tokens: seq<Token> := [];
    LimitPositive(pp.precision);
    for i := 0 to |values|
      invariant Outputs(tokens, owners, typ, values[..i])
      invariant Generable(pp, values[..i])
      invariant Valid(outputSum) && Canonical(outputSum) && PrecisionOf(outputSum) == pp.precision
      invariant outputSum.value == SumOf(values[..i])
    {
      var output := GenOutput(pp, max.value, outputSum, values[i], owners[i], typ);
      assert values[..i + 1][..i] == values[..i];
      if output.Err? {
        SumOfMonotone(values, i + 1);
        return Err;
      }
      tokens, outputSum := tokens + [output.value.0], output.value.1;
    }
    assert values[..|values|] == values;
    return Ok((tokens, outputSum));
  }

  lemma {:induction false} SumOfMonotone(values: seq<nat>, i: nat)
    requires i <= |values|
    ensures SumOf(values[..i]) <= SumOf(values)
  {
    if i == |values| {
      assert values[..i] == values;
    } else {
      SumOfMonotone(values[..|values| - 1], i);
      assert values[..|values| - 1][..i] == values[..i];
    }
  }

  // ---------------------------------------------------------------------------------------
  // The whole transfer

  /**
   The answers of the environment: the stored tokens of given IDs, the selection for a quantity and
   a type, the registration of a given change recipient, the wallet's own recipient identity, and
   the certification of inputs.
   */
  datatype Answers = Answers(stored: seq<ID> -> Result<seq<Token>>,
                             select: (string, string) -> Result<(seq<ID>, Quantity)>,
                             registers: bool, ownIdentity: Result<Bytes>, certifies: bool, wrapsNil: bool)

  datatype Options = Options(tokenIds: seq<Option<ID>>, rest: Option<Bytes>)

  /** The selector reports a sum that is a quantity. */
  ghost predicate SelectsQuantities(answers: Answers) {
    forall amount, typ :: answers.select(amount, typ).Ok? ==> Valid(answers.select(amount, typ).value.1)
  }

  function Cleanup(ids: seq<Option<ID>>): seq<ID> {
    if ids == [] then []
    else Cleanup(ids[..|ids| - 1]) + match ids[|ids| - 1] case None => [] case Some(id) => [id]
  }

  predicate IsNamed(id: Option<ID>) {
    id.Some?
  }

  predicate Holds(id: Option<ID>, m: nat, found: ID) {
    id == Some(found)
  }

  /** The named inputs are all kept, in order. */
  lemma {:induction false} CleanupKeepsAll(ids: seq<Option<ID>>) returns (at: seq<nat>)
    ensures Yields(ids, IsNamed, at, Holds, Cleanup(ids))
  {
    at := [];
    if ids != [] {
      var n := |ids| - 1;
      at := CleanupKeepsAll(ids[..n]);
      var before := Cleanup(ids[..n]);
      if ids[n].Some? {
        YieldsNext(ids, IsNamed, at, Holds, before, ids[n].value);
        at := at + [n];
      } else {
        YieldsNone(ids, IsNamed, at, Holds, before);
        assert before + [] == before;
      }
    }
  }

  /** `cleanupInputIDs`. */
  method CleanupInputIds(ids: seq<Option<ID>>) returns (cleaned: seq<ID>)
    ensures cleaned == Cleanup(ids)
    ensures exists at :: Yields(ids, IsNamed, at, Holds, cleaned)
  {
    cleaned := [];
    for i := 0 to |ids|
      invariant cleaned == Cleanup(ids[..i])
    {
      assert ids[..i + 1][..i] == ids[..i];
      if ids[i].Some? {
        cleaned := cleaned + [ids[i].value];
      }
    }
    assert ids[..|ids|] == ids;
    ghost var at := CleanupKeepsAll(ids);
  }

  lemma {:induction false} CleanupNone(ids: seq<Option<ID>>)
    ensures Cleanup(ids) == [] <==> forall i :: 0 <= i < |ids| ==> ids[i].None?
  {
    if ids != [] {
      CleanupNone(ids[..|ids| - 1]);
      assert forall i :: 0 <= i < |ids| - 1 ==> ids[..|ids| - 1][i] == ids[i];
    }
  }

  predicate OwnersOk(redeem: bool, owners: seq<Bytes>) {
    forall i :: 0 <= i < |owners| ==> (redeem <==> owners[i] == [])
  }

  function RestIdentity(opts: Options, answers: Answers): Result<Bytes> {
    match opts.rest
    case Some(identity) => if answers.registers then Ok(identity) else Err
    case None => answers.ownIdentity
  }

  /** The type of the transfer: that of the named inputs, or the requested one. */
  function EffectiveType(ids: seq<ID>, answers: Answers, tokenType: string): string {
    if ids == [] then tokenType
    else if answers.stored(ids).Err? then ""
    else TypeOf(answers.stored(ids).value)
  }

  function Selection(answers: Answers, values: seq<nat>, typ: string): Result<(seq<ID>, Quantity)> {
    answers.select(Text(SumOf(values), Ten), typ)
  }

  /** The inputs of the transfer and their total, if they can be used. */
  ghost function InputsOf(pp: PublicParams, ids: seq<ID>, answers: Answers, values: seq<nat>, typ: string)
    : Result<(seq<ID>, Quantity)>
  {
    if ids == [] then Selection(answers, values, typ)
    else NamedInputs(ids, answers.stored(ids), pp.precision)
  }

  ghost function NamedInputs(ids: seq<ID>, stored: Result<seq<Token>>, precision: nat): Result<(seq<ID>, Quantity)> {
    if stored.Ok? && OneType(stored.value) && Summable(Amounts(stored.value), precision)
    then Ok((ids, Exactly(Total(Amounts(stored.value)), precision)))
    else Err
  }

  ghost predicate Change(tokens: seq<Token>, opts: Options, answers: Answers, typ: string, diff: nat) {
    if diff == 0 then tokens == []
    else RestIdentity(opts, answers).Ok? && |tokens| == 1
         && Carries(tokens[0], RestIdentity(opts, answers).value, typ, diff)
  }

  /** The inputs cover the request, and any excess can be given back. */
  ghost predicate Covers(sum: Quantity, pp: PublicParams, values: seq<nat>, opts: Options, answers: Answers) {
    && SumOf(values) <= sum.value
    && (SumOf(values) < sum.value ==>
          SameForm(sum, ZeroQuantity(pp.precision))
          && if opts.rest.Some? then answers.registers else answers.ownIdentity.Ok?)
  }

  /** When a transfer can be prepared. */
  ghost predicate Preparable(pp: PublicParams, redeem: bool, tokenType: string, values: seq<nat>, owners: seq<Bytes>,
                             opts: Options, answers: Answers) {
    var ids := Cleanup(opts.tokenIds);
    var typ := EffectiveType(ids, answers, tokenType);
    var inputs := InputsOf(pp, ids, answers, values, typ);
    && OwnersOk(redeem, owners) && typ != "" && Generable(pp, values)
    && inputs.Ok? && Covers(inputs.value.1, pp, values, opts, answers)
    && (pp.graphHiding ==> answers.certifies)
  }

  /** What a prepared transfer of the given type spends and produces. */
  ghost predicate Prepared(typ: string, inputs: (seq<ID>, Quantity), values: seq<nat>, owners: seq<Bytes>,
                           opts: Options, answers: Answers, used: seq<ID>, outputs: seq<Token>)
    requires |values| <= |owners|
  {
    && used == inputs.0 && SumOf(values) <= inputs.1.value
    && OutputsAndChange(outputs, owners, typ, values, opts, answers, inputs.1.value - SumOf(values))
  }

  /** The requested outputs, then the change if there is any. */
  ghost predicate OutputsAndChange(outputs: seq<Token>, owners: seq<Bytes>, typ: string, values: seq<nat>,
                                   opts: Options, answers: Answers, diff: nat)
    requires |values| <= |owners|
  {
    && |values| <= |outputs|
    && Outputs(outputs[..|values|], owners, typ, values)
    && Change(outputs[|values|..], opts, answers, typ, diff)
  }

  /** What `PrepareTransfer` promises of a transfer it prepares. */
  ghost predicate IsPrepared(pp: PublicParams, redeem: bool, tokenType: string, values: seq<nat>, owners: seq<Bytes>,
                             opts: Options, answers: Answers, used: seq<ID>, outputs: seq<Token>) {
    var ids := Cleanup(opts.tokenIds);
    var typ := EffectiveType(ids, answers, tokenType);
    && |values| <= |owners| && Preparable(pp, redeem, tokenType, values, owners, opts, answers)
    && Prepared(typ, InputsOf(pp, ids, answers, values, typ).value, values, owners, opts, answers, used, outputs)
  }

  method CheckOwners(redeem: bool, owners: seq<Bytes>) returns (ok: bool)
    ensures ok <==> OwnersOk(redeem, owners)
  {
    for i := 0 to |owners|
      invariant forall j :: 0 <= j < i ==> (redeem <==> owners[j] == [])
    {
      if redeem {
        if owners[i] != [] {
          return false;
        }
      } else {
        if owners[i] == [] {
          return false;
        }
      }
    }
    return true;
  }

  /** The change output, if the inputs exceed the request. */
  method AssignRest(inputSum: Quantity, outputSum: Quantity, opts: Options, answers: Answers, typ: string)
    returns (result: Result<seq<Token>>)
    requires Valid(inputSum) && Valid(outputSum)
    ensures result.Ok? ==> outputSum.value <= inputSum.value
                           && Change(result.value, opts, answers, typ, inputSum.value - outputSum.value)
    ensures result.Ok? <==> && outputSum.value <= inputSum.value
                            && (outputSum.value < inputSum.value ==>
                                  SameForm(inputSum, outputSum) && RestIdentity(opts, answers).Ok?)
  {
    CmpRefines(inputSum, outputSum);
    SubRefines(inputSum, outputSum);
    match Cmp(inputSum, outputSum) {
      case 1 =>
        var diff := Sub(inputSum, outputSum);
        if diff.Err? {
          return Err;
        }
        var restIdentity := RestIdentity(opts, answers);
        if restIdentity.Err? {
          return Err;
        }
        return Ok([Token(restIdentity.value, typ, Hex(diff.value))]);
      case -1 =>
        return Err;
      case _ =>
        return Ok([]);
    }
  }

  /** `prepareTransfer`. */
  method PrepareTransfer(pp: PublicParams, redeem: bool, tokenType: string, values: seq<nat>, owners: seq<Bytes>,
                         opts: Options, answers: Answers)
    returns (result: Result<(seq<ID>, seq<Token>)>)
    requires pp.precision < TWO64 && pp.maxTokenValue < TWO64 && Words(values)
    requires |values| <= |owners|
    requires SelectsQuantities(answers)
    ensures result.Ok? <==> Preparable(pp, redeem, tokenType, values, owners, opts, answers)
    ensures result.Ok? ==>
              IsPrepared(pp, redeem, tokenType, values, owners, opts, answers, result.value.0, result.value.1)
  {
    var ownersOk := CheckOwners(redeem, owners);
    if !ownersOk {
      return Err;
    }
    var ids := CleanupInputIds(opts.tokenIds);
    if |ids| == 0 {
      result := Build(pp, tokenType, values, owners, None, opts, answers);
    } else {
      var parsed := ParseInputIds(ids, answers.stored(ids), pp.precision, answers.wrapsNil);
      if parsed.Failed? {
        return Err;
      }
      var named := if parsed.sum.Some? then Some((parsed.ids, parsed.sum.value)) else None;
      result := Build(pp, parsed.typ, values, owners, named, opts, answers);
    }
  }

  /** The named inputs, or what the selector finds for the requested total. */
  function Source(named: Option<(seq<ID>, Quantity)>, answers: Answers, values: seq<nat>, typ: string)
    : Result<(seq<ID>, Quantity)>
  {
    if named.Some? then Ok(named.value) else Selection(answers, values, typ)
  }

  /** From the type check on: outputs, selection if no input was named, change and certification. */
  method Build(pp: PublicParams, typ: string, values: seq<nat>, owners: seq<Bytes>,
               named: Option<(seq<ID>, Quantity)>, opts: Options, answers: Answers)
    returns (result: Result<(seq<ID>, seq<Token>)>)
    requires pp.precision < TWO64 && pp.maxTokenValue < TWO64 && Words(values)
    requires |values| <= |owners|
    requires SelectsQuantities(answers) && (named.Some? ==> Valid(named.value.1))
    ensures result.Ok? <==>
            var inputs := Source(named, answers, values, typ);
            && typ != "" && Generable(pp, values)
            && inputs.Ok? && Covers(inputs.value.1, pp, values, opts, answers)
            && (pp.graphHiding ==> answers.certifies)
    ensures result.Ok? ==>
              Prepared(typ, Source(named, answers, values, typ).value, values, owners, opts, answers,
                       result.value.0, result.value.1)
  {
    if typ == "" {
      return Err;
    }
    var generated := GenOutputs(pp, values, owners, typ);
    if generated.Err? {
      return Err;
    }
    var inputs := named;
    if inputs.None? {
      var selected := answers.select(Decimal(generated.value.1), typ);
      if selected.Err? {
        return Err;
      }
      inputs := Some(selected.value);
    }
    result := Complete(pp, generated.value.0, generated.value.1, inputs.value, opts, answers, typ);
    if result.Ok? {
      assert result.value.1[..|values|] == generated.value.0;
    }
  }

  /** The tail of `prepareTransfer`: change and certification. */
  method Complete(pp: PublicParams, outputTokens: seq<Token>, outputSum: Quantity, inputs: (seq<ID>, Quantity),
                  opts: Options, answers: Answers, typ: string)
    returns (result: Result<(seq<ID>, seq<Token>)>)
    requires Valid(inputs.1) && Valid(outputSum)
    ensures result.Ok? <==> && outputSum.value <= inputs.1.value
                            && (outputSum.value < inputs.1.value ==>
                                  SameForm(inputs.1, outputSum) && RestIdentity(opts, answers).Ok?)
                            && (pp.graphHiding ==> answers.certifies)
    ensures result.Ok? ==>
              && result.value.0 == inputs.0 && outputTokens <= result.value.1
              && Change(result.value.1[|outputTokens|..], opts, answers, typ, inputs.1.value - outputSum.value)
  {
    var rest := AssignRest(inputs.1, outputSum, opts, answers, typ);
    if rest.Err? {
      return Err;
    }
    if pp.graphHiding && !answers.certifies {
      return Err;
    }
    assert (outputTokens + rest.value)[|outputTokens|..] == rest.value;
    return Ok((inputs.0, outputTokens + rest.value));
  }

  // ---------------------------------------------------------------------------------------
  // Conservation

  lemma {:induction false} CarriesAmount(token: Token, owner: Bytes, typ: string, value: nat)
    requires Carries(token, owner, typ, value)
    ensures ParseInt(token.quantity) == Some(value) && Amount(token.quantity) == value
  {
    HexRoundTrip(value);
  }

  lemma {:induction false} OutputsTotal(tokens: seq<Token>, owners: seq<Bytes>, typ: string, values: seq<nat>)
    requires |values| <= |owners| && Outputs(tokens, owners, typ, values)
    ensures Total(Amounts(tokens)) == SumOf(values)
  {
    if values != [] {
      var n := |values| - 1;
      CarriesAmount(tokens[n], owners[n], typ, values[n]);
      OutputsTotal(tokens[..n], owners, typ, values[..n]);
      assert Amounts(tokens)[..n] == Amounts(tokens[..n]);
    }
  }

  lemma {:induction false} ChangeTotal(tokens: seq<Token>, opts: Options, answers: Answers, typ: string, diff: nat)
    requires Change(tokens, opts, answers, typ, diff)
    ensures Total(Amounts(tokens)) == diff
    ensures |tokens| == if diff == 0 then 0 else 1
  {
    if diff > 0 {
      CarriesAmount(tokens[0], RestIdentity(opts, answers).value, typ, diff);
      assert Amounts(tokens) == [tokens[0].quantity];
      assert Total(Amounts(tokens)[..0]) == 0;
    }
  }

  lemma {:induction false} AmountsSplit(tokens: seq<Token>, n: nat)
    requires n <= |tokens|
    ensures Total(Amounts(tokens)) == Total(Amounts(tokens[..n])) + Total(Amounts(tokens[n..]))
  {
    assert Amounts(tokens) == Amounts(tokens[..n]) + Amounts(tokens[n..]);
    TotalConcat(Amounts(tokens[..n]), Amounts(tokens[n..]));
  }

  lemma {:induction false} OutputsAndChangeTotal(outputs: seq<Token>, owners: seq<Bytes>, typ: string, values: seq<nat>,
                                                 opts: Options, answers: Answers, diff: nat)
    requires |values| <= |owners|
    requires OutputsAndChange(outputs, owners, typ, values, opts, answers, diff)
    ensures Total(Amounts(outputs)) == SumOf(values) + diff
    ensures |outputs| == |values| + if diff == 0 then 0 else 1
  {
    AmountsSplit(outputs, |values|);
    OutputsTotal(outputs[..|values|], owners, typ, values);
    ChangeTotal(outputs[|values|..], opts, answers, typ, diff);
  }

  /** The outputs read back add up to the inputs, and there is change exactly when the inputs exceed the request. */
  lemma {:induction false} ValueConserved(typ: string, inputs: (seq<ID>, Quantity), values: seq<nat>,
                                          owners: seq<Bytes>, opts: Options, answers: Answers, used: seq<ID>,
                                          outputs: seq<Token>)
    requires |values| <= |owners|
    requires Prepared(typ, inputs, values, owners, opts, answers, used, outputs)
    ensures Total(Amounts(outputs)) == inputs.1.value
    ensures |outputs| == |values| + if SumOf(values) < inputs.1.value then 1 else 0
  {
    OutputsAndChangeTotal(outputs, owners, typ, values, opts, answers, inputs.1.value - SumOf(values));
  }

  /** Each requested output reads back, at the precision in force, as its value, within the maximum. */
  lemma {:induction false} RequestedOutputReadsBack(pp: PublicParams, typ: string, inputs: (seq<ID>, Quantity),
                                                    values: seq<nat>, owners: seq<Bytes>, opts: Options,
                                                    answers: Answers, used: seq<ID>, outputs: seq<Token>, i: nat)
    requires |values| <= |owners| && i < |values|
    requires Generable(pp, values)
    requires Prepared(typ, inputs, values, owners, opts, answers, used, outputs)
    ensures outputs[i].owner == owners[i] && outputs[i].typ == typ
    ensures ToQuantity(outputs[i].quantity, pp.precision) == Ok(Exactly(values[i], pp.precision))
    ensures values[i] <= pp.maxTokenValue
  {
    assert outputs[i] == outputs[..|values|][i];
    CarriesAmount(outputs[i], owners[i], typ, values[i]);
    ToQuantityOf(outputs[i].quantity, values[i], pp.precision);
  }

  /**
   The change belongs to the recipient named for it, or else to the wallet itself, and reads back
   exactly when it fits in the precision.
   */
  lemma {:induction false} ChangeReadsBack(pp: PublicParams, typ: string, inputs: (seq<ID>, Quantity), values: seq<nat>,
                                           owners: seq<Bytes>, opts: Options, answers: Answers, used: seq<ID>,
                                           outputs: seq<Token>)
    requires |values| <= |owners| && |values| < |outputs|
    requires ValidPrecision(pp.precision)
    requires Prepared(typ, inputs, values, owners, opts, answers, used, outputs)
    ensures opts.rest.Some? ==> outputs[|values|].owner == opts.rest.value && answers.registers
    ensures opts.rest.None? ==> answers.ownIdentity == Ok(outputs[|values|].owner)
    ensures ToQuantity(outputs[|values|].quantity, pp.precision).Ok? <==>
            inputs.1.value - SumOf(values) < Limit(pp.precision)
  {
    var change := outputs[|values|..];
    assert outputs[|values|] == change[0];
    CarriesAmount(change[0], RestIdentity(opts, answers).value, typ, inputs.1.value - SumOf(values));
    ToQuantityRefines(change[0].quantity, pp.precision);
  }

  /** The change of named inputs always reads back, as the excess of the inputs over the request. */
  lemma {:induction false} NamedChangeReadsBack(pp: PublicParams, ids: seq<ID>, typ: string,
                                                inputs: (seq<ID>, Quantity), values: seq<nat>, owners: seq<Bytes>,
                                                opts: Options, answers: Answers, used: seq<ID>, outputs: seq<Token>)
    requires |values| <= |owners| && |values| < |outputs|
    requires NamedInputs(ids, answers.stored(ids), pp.precision) == Ok(inputs)
    requires ValidPrecision(pp.precision)
    requires Prepared(typ, inputs, values, owners, opts, answers, used, outputs)
    ensures ToQuantity(outputs[|values|].quantity, pp.precision).Ok?
  {
    ChangeReadsBack(pp, typ, inputs, values, owners, opts, answers, used, outputs);
  }

  /** If the caller names inputs, exactly those are spent, all of them, and their total is what comes out. */
  lemma {:induction false} NamedInputsSpent(pp: PublicParams, redeem: bool, tokenType: string, values: seq<nat>,
                                            owners: seq<Bytes>, opts: Options, answers: Answers, used: seq<ID>,
                                            outputs: seq<Token>)
    returns (at: seq<nat>)
    requires IsPrepared(pp, redeem, tokenType, values, owners, opts, answers, used, outputs)
    requires exists i :: 0 <= i < |opts.tokenIds| && opts.tokenIds[i].Some?
    ensures Yields(opts.tokenIds, IsNamed, at, Holds, used)
    ensures answers.stored(used).Ok? && Total(Amounts(answers.stored(used).value)) == Total(Amounts(outputs))
    ensures forall i, j :: 0 <= i < |outputs| && 0 <= j < |answers.stored(used).value| ==>
              answers.stored(used).value[j].typ == "" || answers.stored(used).value[j].typ == outputs[i].typ
  {
    at := CleanupKeepsAll(opts.tokenIds);
    CleanupNone(opts.tokenIds);
    assert used == Cleanup(opts.tokenIds);
    var tokens := answers.stored(used).value;
    var inputs := (used, Exactly(Total(Amounts(tokens)), pp.precision));
    InputsComeOut(inputs, TypeOf(tokens), values, owners, opts, answers, used, outputs);
    TypeOfAll(tokens);
  }

  lemma {:induction false} InputsComeOut(inputs: (seq<ID>, Quantity), typ: string, values: seq<nat>, owners: seq<Bytes>,
                                         opts: Options, answers: Answers, used: seq<ID>, outputs: seq<Token>)
    requires |values| <= |owners| && Prepared(typ, inputs, values, owners, opts, answers, used, outputs)
    ensures Total(Amounts(outputs)) == inputs.1.value
    ensures forall i :: 0 <= i < |outputs| ==> outputs[i].typ == typ
  {
    ValueConserved(typ, inputs, values, owners, opts, answers, used, outputs);
    OutputTypes(outputs, owners, typ, values, opts, answers, inputs.1.value - SumOf(values));
  }

  lemma {:induction false} TypeOfAll(tokens: seq<Token>)
    requires OneType(tokens)
    ensures forall j :: 0 <= j < |tokens| ==> tokens[j].typ == "" || tokens[j].typ == TypeOf(tokens)
  {
  }

  /** Otherwise the selector is asked for the requested total, and what it selects is spent. */
  lemma {:induction false} SelectedInputsSpent(pp: PublicParams, redeem: bool, tokenType: string, values: seq<nat>,
                                               owners: seq<Bytes>, opts: Options, answers: Answers, used: seq<ID>,
                                               outputs: seq<Token>)
    returns (amount: string, sum: Quantity)
    requires IsPrepared(pp, redeem, tokenType, values, owners, opts, answers, used, outputs)
    requires forall i :: 0 <= i < |opts.tokenIds| ==> opts.tokenIds[i].None?
    ensures ParseInt(amount) == Some(SumOf(values))
    ensures answers.select(amount, tokenType) == Ok((used, sum)) && sum.value == Total(Amounts(outputs))
    ensures forall i :: 0 <= i < |outputs| ==> outputs[i].typ == tokenType
  {
    CleanupNone(opts.tokenIds);
    var inputs := Selection(answers, values, tokenType).value;
    amount, sum := Text(SumOf(values), Ten), inputs.1;
    DecimalRoundTrip(SumOf(values));
    InputsComeOut(inputs, tokenType, values, owners, opts, answers, used, outputs);
  }

  lemma {:induction false} OutputTypes(outputs: seq<Token>, owners: seq<Bytes>, typ: string, values: seq<nat>,
                                       opts: Options, answers: Answers, diff: nat)
    requires |values| <= |owners|
    requires OutputsAndChange(outputs, owners, typ, values, opts, answers, diff)
    ensures forall i :: 0 <= i < |outputs| ==> outputs[i].typ == typ
  {
    forall i | 0 <= i < |outputs| ensures outputs[i].typ == typ {
      if i < |values| {
        assert outputs[i] == outputs[..|values|][i];
      } else {
        assert outputs[i] == outputs[|values|..][i - |values|];
      }
    }
  }

  /** A token without a type may come first, before tokens of one type, but not after them. */
  lemma {:induction false} LeadingEmptyType(ids: seq<ID>, untyped: Token, typed: Token, precision: nat)
    requires untyped.typ == "" && typed.typ != "" && Summable([untyped.quantity, typed.quantity], precision)
    ensures NamedInputs(ids, Ok([untyped, typed]), precision)
         == Ok((ids, Exactly(Total([untyped.quantity, typed.quantity]), precision)))
    ensures TypeOf([untyped, typed]) == typed.typ
    ensures NamedInputs(ids, Ok([typed, untyped]), precision).Err?
  {
    TwoTokens(untyped, typed);
    TwoTokens(typed, untyped);
  }

  lemma {:induction false} TwoTokens(a: Token, b: Token)
    ensures OneType([a, b]) <==> a.typ == "" || a.typ == b.typ
    ensures TypeOf([a, b]) == b.typ
    ensures Amounts([a, b]) == [a.quantity, b.quantity]
  {
    assert [a, b][0] == a && [a, b][1] == b;
  }

  /** Any two values within the precision make such a pair. */
  lemma {:induction false} TwoAmounts(v: nat, v': nat, precision: nat)
    requires ValidPrecision(precision) && v + v' < Limit(precision)
    ensures var amounts := ["0x" + Text(v, Sixteen), "0x" + Text(v', Sixteen)];
            Summable(amounts, precision) && Total(amounts) == v + v'
  {
    var a, a' := "0x" + Text(v, Sixteen), "0x" + Text(v', Sixteen);
    HexRoundTrip(v);
    HexRoundTrip(v');
    ToQuantityOf(a, v, precision);
    ToQuantityOf(a', v', precision);
    assert [a, a'][..1] == [a] && [a][..0] == [];
    assert Total([a]) == v;
  }

  /** Named inputs with two different non-empty types never make a transfer, whatever a wrapped nil error is. */
  lemma {:induction false} MixedTypesRefused(pp: PublicParams, redeem: bool, tokenType: string, values: seq<nat>,
                                             owners: seq<Bytes>, opts: Options, answers: Answers, i: nat, j: nat)
    requires var ids := Cleanup(opts.tokenIds);
             && ids != [] && answers.stored(ids).Ok?
             && i < |answers.stored(ids).value| && j < |answers.stored(ids).value|
             && answers.stored(ids).value[i].typ != "" && answers.stored(ids).value[j].typ != ""
             && answers.stored(ids).value[i].typ != answers.stored(ids).value[j].typ
    ensures !Preparable(pp, redeem, tokenType, values, owners, opts, answers)
  {
    var tokens := answers.stored(Cleanup(opts.tokenIds)).value;
    assert !OneType(tokens) by {
      if i < j {
        assert tokens[i].typ != tokens[j].typ;
      } else {
        assert tokens[j].typ != tokens[i].typ;
      }
    }
  }
}
