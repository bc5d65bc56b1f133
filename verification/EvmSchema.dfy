// Compiling a reviewed EVM method into the v2 schema body a delegate signs, and
// reading such a body back.
module EvmSchema {
  import opened Basics
  import opened Bytes
  import opened Strings
  import opened Hex
  import opened Codec

  datatype Chain = Ethereum | Solana
  datatype Source = Sourcify | Erc7730Registry | AnchorIdl | ProgramRegistry

  // Strings the source may find missing are empty here.
  datatype AbiInput = AbiInput(name: string, kind: string)
  datatype Field = Field(path: string, caption: string, format: string, hasParams: bool, visible: string,
      encrypted: bool)
  datatype Display = Display(
    intent: string, interpolatedIntent: string, hasIncludes: bool, requiredOrExcluded: bool, fieldsTruncated: bool,
      fields: seq<Field>)
  datatype Candidate = Candidate(
    source: Source, selector: string, name: string, signature: string, inputs: seq<AbiInput>, display: Option<Display>)
  datatype Shape = Shape(primaryType: string, selector: string, chainId: int, contract: string, calldataLength: int)

  datatype CompileError =
    | NotEthereum | TypedData | BadSource | TooManyArguments
    | NoDisplay | DisplayRules | FieldCount | IndirectField | NoCaption | FieldRules | BadFieldFormat
    | BadMethodName | BadChainId | BadContract | SelectorMismatch | LengthMismatch | BadSelector
    | BadArgumentName | BadArgumentType

  // ---- ABI types ----

  // The digits of a multiple of 8 from 8 to 256.
  predicate IsIntegerWidth(digits: string) {
    exists k | 1 <= k <= 32 :: digits == Numeral(8 * k)
  }

  predicate IsBytesWidth(digits: string) {
    exists k | 1 <= k <= 32 :: digits == Numeral(k)
  }

  function IntegerSuffix(kind: string): Option<string> {
    if "uint" <= kind then Some(kind[4..]) else if "int" <= kind then Some(kind[3..]) else None
  }

  function EvmFormat(kind: string): Option<Byte> {
    var suffix := IntegerSuffix(kind);
    if kind == "address" then Some(1)
    else if suffix.Some? && (suffix.value == "" || IsIntegerWidth(suffix.value)) then Some(2)
    else if ("bytes" <= kind && IsBytesWidth(kind[5..])) || kind == "bool" then Some(3)
    else None
  }

  ghost predicate IsInteger(kind: string) {
    || kind == "int" || kind == "uint"
    || exists k :: 1 <= k <= 32 && (kind == "int" + Numeral(8 * k) || kind == "uint" + Numeral(8 * k))
  }

  ghost predicate IsFixedBytes(kind: string) {
    exists k :: 1 <= k <= 32 && kind == "bytes" + Numeral(k)
  }

  // What each format is for: an address; an integer of a whole number of bytes;
  // up to 32 fixed bytes, or a bool. Nothing else has one.
  lemma FormatMeans(kind: string)
    ensures EvmFormat(kind) == Some(1) <==> kind == "address"
    ensures EvmFormat(kind) == Some(2) <==> IsInteger(kind)
    ensures EvmFormat(kind) == Some(3) <==> IsFixedBytes(kind) || kind == "bool"
    ensures EvmFormat(kind).Some? ==> EvmFormat(kind).value in {1, 2, 3}
  {
    IntegerMeans(kind);
    BytesMeans(kind);
    FirstLetter(kind);
    hide IntegerSuffix, IsIntegerWidth, IsBytesWidth, IsInteger, IsFixedBytes;
  }

  lemma IntegerMeans(kind: string)
    ensures IsInteger(kind)
      <==> IntegerSuffix(kind).Some? && (IntegerSuffix(kind).value == "" || IsIntegerWidth(IntegerSuffix(kind).value))
  {
    hide Numeral;
    if k :| 1 <= k <= 32 && (kind == "int" + Numeral(8 * k) || kind == "uint" + Numeral(8 * k)) {
      var digits := Numeral(8 * k);
      if kind == "uint" + digits {
        assert kind[4..] == digits;
      } else {
        assert kind[0] == 'i' && kind[3..] == digits;
      }
      assert IntegerSuffix(kind) == Some(digits);
    }
    if "uint" <= kind {
      assert kind == "uint" + kind[4..];
    } else if "int" <= kind {
      assert kind == "int" + kind[3..];
    }
  }

  lemma BytesMeans(kind: string)
    ensures IsFixedBytes(kind) <==> "bytes" <= kind && IsBytesWidth(kind[5..])
  {
    hide Numeral;
    if k :| 1 <= k <= 32 && kind == "bytes" + Numeral(k) {
      assert kind[5..] == Numeral(k);
    }
    if "bytes" <= kind {
      assert kind == "bytes" + kind[5..];
    }
  }

  lemma FirstLetter(kind: string)
    ensures IntegerSuffix(kind).Some? ==> kind != "" && (kind[0] == 'i' || kind[0] == 'u')
    ensures IsInteger(kind) ==> IntegerSuffix(kind).Some?
  {
    IntegerMeans(kind);
  }

  // ---- ERC-7730 displays ----

  function FieldPath(path: string): string {
    if "#." <= path then path[2..] else if "#" <= path then path[1..] else path
  }

  predicate FormatFaithful(kind: string, format: string) {
    || (kind == "address" && (format == "addressName" || format == "raw"))
    || (IntegerSuffix(kind).Some? && AllDigits(IntegerSuffix(kind).value) && format == "amount")
  }

  function ApplyField(input: AbiInput, field: Field): Result<AbiInput, CompileError> {
    var path := FieldPath(field.path);
    if input.name == "" || path != input.name || '.' in path then Err(IndirectField)
    else if field.caption == "" then Err(NoCaption)
    else if field.hasParams || field.encrypted
      || (field.visible != "" && field.visible != "always") then Err(FieldRules)
    else if !FormatFaithful(input.kind, field.format) then Err(BadFieldFormat)
    else Ok(input.(name := field.caption))
  }

  function ApplyFields(inputs: seq<AbiInput>, fields: seq<Field>): (r: Result<seq<AbiInput>, CompileError>)
    requires |inputs| == |fields|
    ensures r.Ok? ==> |r.value| == |inputs|
  {
    if inputs == [] then Ok([])
    else
      var first := ApplyField(inputs[0], fields[0]);
      if first.Err? then Err(first.error)
      else
        var others := ApplyFields(inputs[1..], fields[1..]);
        if others.Err? then others else Ok([first.value] + others.value)
  }

  datatype Prepared = Prepared(title: string, inputs: seq<AbiInput>)

  function Prepare(chain: Chain, c: Candidate, shape: Shape): (r: Result<Prepared, CompileError>)
    ensures r.Ok? ==> |r.value.inputs| == |c.inputs| <= 8
  {
    if chain != Ethereum then Err(NotEthereum)
    else if shape.primaryType != "" && shape.selector == "" then Err(TypedData)
    else if (c.source != Sourcify && c.source != Erc7730Registry) || c.signature == "" then Err(BadSource)
    else if |c.inputs| > 8 then Err(TooManyArguments)
    else if c.source == Sourcify then Ok(Prepared(c.name, c.inputs))
    else if c.display.None? || c.display.value.intent == "" then Err(NoDisplay)
    else
      var d := c.display.value;
      if d.hasIncludes || d.interpolatedIntent != "" || d.requiredOrExcluded || d.fieldsTruncated then Err(DisplayRules)
      else if |d.fields| != |c.inputs| then Err(FieldCount)
      else
        var inputs := ApplyFields(c.inputs, d.fields);
        if inputs.Err? then Err(inputs.error) else Ok(Prepared(d.intent, inputs.value))
  }

  // ---- The schema and its bytes ----

  datatype Arg = Arg(name: string, format: Byte)
  datatype Schema = Schema(chainId: nat, contract: Buffer, selector: Buffer, title: string, args: seq<Arg>)

  const METHOD_MAX: nat := 64
  const NAME_MAX: nat := 32
  const TRAILER: Buffer := [1, 0, 0, 0, 0, 0x80]

  ghost predicate SchemaShaped(s: Schema) {
    && s.chainId < U32_LIMIT && |s.contract| == 20 && |s.selector| == 4
    && IsPlain(s.title, METHOD_MAX)
    && |s.args| <= 8
    && forall i :: 0 <= i < |s.args| ==> IsPlain(s.args[i].name, NAME_MAX)
  }

  function EncodeArg(a: Arg): Buffer {
    [|a.name| % 256] + (Ascii(a.name) + [a.format])
  }

  function SchemaHead(chainId: nat, contract: Buffer, selector: Buffer, title: string): (r: Buffer)
    requires chainId < U32_LIMIT && |contract| == 20 && |selector| == 4 && |title| < U16_LIMIT
    ensures |r| == 31
  {
    [2] + U32(chainId) + contract + selector + U16(|title|)
  }

  function SchemaBytes(s: Schema): Buffer
    requires s.chainId < U32_LIMIT && |s.contract| == 20 && |s.selector| == 4 && |s.title| < U16_LIMIT && |s.args| < 256
  {
    SchemaHead(s.chainId, s.contract, s.selector, s.title)
    + (Ascii(s.title) + ([|s.args|] + (EncodeAll(EncodeArg, s.args) + TRAILER)))
  }

  // ---- Compiling ----

  function CompileArg(input: AbiInput, position: nat): Result<Arg, CompileError> {
    var name := if input.name == "" then "arg" + Numeral(position + 1) else input.name;
    if !IsPlain(name, NAME_MAX) then Err(BadArgumentName)
    else if EvmFormat(input.kind).None? then Err(BadArgumentType)
    else Ok(Arg(name, EvmFormat(input.kind).value))
  }

  // The first i arguments.
  function CompileArgs(inputs: seq<AbiInput>, i: nat): (r: Result<seq<Arg>, CompileError>)
    requires i <= |inputs|
    ensures r.Ok? ==> |r.value| == i && forall k :: 0 <= k < i ==> IsPlain(r.value[k].name, NAME_MAX)
  {
    if i == 0 then Ok([])
    else
      var before := CompileArgs(inputs, i - 1);
      if before.Err? then before
      else
        var arg := CompileArg(inputs[i - 1], i - 1);
        if arg.Err? then Err(arg.error) else Ok(before.value + [arg.value])
  }

  function CompileSchema(chain: Chain, c: Candidate, shape: Shape): (r: Result<Schema, CompileError>)
    ensures r.Ok? ==> SchemaShaped(r.value)
  {
    var prepared := Prepare(chain, c, shape);
    if prepared.Err? then Err(prepared.error)
    else
      var p := prepared.value;
      if !IsPlain(p.title, METHOD_MAX) then Err(BadMethodName)
      else if !(1 <= shape.chainId < U32_LIMIT) then Err(BadChainId)
      else if ExactHex(Lower(shape.contract), 20).None? then Err(BadContract)
      else if Lower(shape.selector) != Lower(c.selector) then Err(SelectorMismatch)
      else if shape.calldataLength != 4 + 32 * |p.inputs| then Err(LengthMismatch)
      else if ExactHex(c.selector, 4).None? then Err(BadSelector)
      else
        var args := CompileArgs(p.inputs, |p.inputs|);
        if args.Err? then Err(args.error)
        else
          ExactHexSize(Lower(shape.contract), 20);
          ExactHexSize(c.selector, 4);
          Ok(Schema(shape.chainId, ExactHex(Lower(shape.contract), 20).value, ExactHex(c.selector, 4).value, p.title,
            args.value))
  }

  function Compile(chain: Chain, c: Candidate, shape: Shape): Result<Buffer, CompileError> {
    var s := CompileSchema(chain, c, shape);
    if s.Err? then Err(s.error) else Ok(SchemaBytes(s.value))
  }

  method CompileUnsignedBody(chain: Chain, c: Candidate, shape: Shape) returns (r: Result<Buffer, CompileError>)
    ensures r == Compile(chain, c, shape)
  {
    hide IsPlain, EvmFormat, ApplyFields, Lower, HexDecode, WithoutPrefix, IsHex, SchemaHead, EncodeArg, Ascii;
    var prepared := Prepare(chain, c, shape);
    if prepared.Err? {
      return Err(prepared.error);
    }
    var title, inputs := prepared.value.title, prepared.value.inputs;
    if !IsPlain(title, METHOD_MAX) {
      return Err(BadMethodName);
    }
    if shape.chainId < 1 || shape.chainId > 0xffff_ffff {
      return Err(BadChainId);
    }
    var contract := ExactHex(Lower(shape.contract), 20);
    if contract.None? {
      return Err(BadContract);
    }
    if Lower(shape.selector) != Lower(c.selector) {
      return Err(SelectorMismatch);
    }
    if shape.calldataLength != 4 + 32 * |inputs| {
      return Err(LengthMismatch);
    }
    var selector := ExactHex(c.selector, 4);
    if selector.None? {
      return Err(BadSelector);
    }
    ExactHexSize(Lower(shape.contract), 20);
    ExactHexSize(c.selector, 4);
    TextBack(title, METHOD_MAX);
    var head := SchemaHead(shape.chainId, contract.value, selector.value, title);
    var parts := head + Ascii(title) + [|inputs|];
    var arguments := EncodeArguments(inputs);
    if arguments.Err? {
      return Err(arguments.error);
    }
    Regroup(head, Ascii(title), [|inputs|], arguments.value, TRAILER);
    return Ok(parts + arguments.value + TRAILER);
  }

  method EncodeArguments(inputs: seq<AbiInput>) returns (r: Result<Buffer, CompileError>)
    ensures r == match CompileArgs(inputs, |inputs|)
      case Err(e) => Err(e)
      case Ok(args) => Ok(EncodeAll(EncodeArg, args))
  {
    hide IsPlain, CompileArg, EncodeArg;
    var parts: Buffer := [];
    ghost var args := [];
    for i := 0 to |inputs|
      invariant CompileArgs(inputs, i) == Ok(args)
      invariant parts == EncodeAll(EncodeArg, args)
    {
      var arg := CompileArg(inputs[i], i);
      if arg.Err? {
        ErrorSticks(inputs, i + 1, |inputs|);
        return Err(arg.error);
      }
      EncodeAllSnoc(EncodeArg, args, arg.value);
      parts := parts + EncodeArg(arg.value);
      args := args + [arg.value];
    }
    return Ok(parts);
  }

  lemma Regroup(a: Buffer, b: Buffer, c: Buffer, d: Buffer, e: Buffer)
    ensures a + b + c + d + e == a + (b + (c + (d + e)))
  {
  }

  lemma TextBack(s: string, max: nat)
    requires IsPlain(s, max)
    ensures 1 <= |s| <= max && Text(Ascii(s)) == s
  {
  }

  // Once an argument is refused, so is the list.
  lemma {:induction false} ErrorSticks(inputs: seq<AbiInput>, i: nat, j: nat)
    requires i <= j <= |inputs| && CompileArgs(inputs, i).Err?
    ensures CompileArgs(inputs, j) == CompileArgs(inputs, i)
  {
    if i < j {
      ErrorSticks(inputs, i, j - 1);
    }
  }

  // ---- Reading a schema ----

  function ReadArg(b: Buffer): Read<Arg> {
    if b == [] then Fail
    else
      var name := ReadBytes(b[1..], b[0]);
      if name.Fail? || name.rest == [] then Fail else Got(Arg(Text(name.value), name.rest[0]), name.rest[1..])
  }

  function ReadArgs(b: Buffer): Option<seq<Arg>> {
    if b == [] then None
    else
      var args := ReadMany(ReadArg, b[0], b[1..]);
      if args.Fail? || args.rest != TRAILER then None else Some(args.value)
  }

  function ReadSchema(b: Buffer): Option<Schema> {
    if |b| < 31 || b[0] != 2 then None
    else
      var title := ReadBytes(b[31..], ReadU16(b, 29));
      if title.Fail? then None
      else
        var args := ReadArgs(title.rest);
        if args.None? then None
        else Some(Schema(ReadU32(b, 1), b[5..25], b[25..29], Text(title.value), args.value))
  }

  lemma ArgBack(a: Arg, rest: Buffer)
    requires IsPlain(a.name, NAME_MAX)
    ensures ReadArg(EncodeArg(a) + rest) == Got(a, rest)
  {
    TextBack(a.name, NAME_MAX);
    hide Ascii, Text, IsPlain;
    var tail := [a.format] + rest;
    assert (EncodeArg(a) + rest)[1..] == Ascii(a.name) + tail;
    ReadBytesBack(Ascii(a.name), tail);
    assert tail[1..] == rest;
  }

  lemma ArgUndone(a: Arg)
    requires IsPlain(a.name, NAME_MAX)
    ensures Undoes(ReadArg, EncodeArg, a)
  {
    forall rest ensures ReadArg(EncodeArg(a) + rest) == Got(a, rest) {
      ArgBack(a, rest);
    }
  }

  lemma ArgsBack(args: seq<Arg>)
    requires |args| < 256 && forall i :: 0 <= i < |args| ==> IsPlain(args[i].name, NAME_MAX)
    ensures ReadArgs([|args|] + (EncodeAll(EncodeArg, args) + TRAILER)) == Some(args)
  {
    forall i | 0 <= i < |args| ensures Undoes(ReadArg, EncodeArg, args[i]) {
      ArgUndone(args[i]);
    }
    hide IsPlain, Undoes, ReadArg, EncodeArg;
    var tail := EncodeAll(EncodeArg, args) + TRAILER;
    ReadManyBack(ReadArg, EncodeArg, args, TRAILER);
    assert ([|args|] + tail)[1..] == tail;
  }

  lemma HeadFields(chainId: nat, contract: Buffer, selector: Buffer, title: string, rest: Buffer)
    requires chainId < U32_LIMIT && |contract| == 20 && |selector| == 4 && |title| < U16_LIMIT
    ensures var b := SchemaHead(chainId, contract, selector, title) + rest;
      && b[0] == 2 && ReadU32(b, 1) == chainId && b[5..25] == contract && b[25..29] == selector
      && ReadU16(b, 29) == |title| && b[31..] == rest
  {
    var b := SchemaHead(chainId, contract, selector, title) + rest;
    assert b[1..5] == U32(chainId);
    assert b[29..31] == U16(|title|);
    U32Read(chainId, b, 1);
    U16Read(|title|, b, 29);
  }

  lemma SchemaReadsBack(s: Schema)
    requires SchemaShaped(s)
    ensures ReadSchema(SchemaBytes(s)) == Some(s)
    ensures |SchemaBytes(s)| >= 39
    ensures SchemaBytes(s)[0] == 2 && SchemaBytes(s)[|SchemaBytes(s)| - 6..] == [1, 0, 0, 0, 0, 0x80]
  {
    TextBack(s.title, METHOD_MAX);
    ArgsBack(s.args);
    hide IsPlain, SchemaHead, EncodeArg, Ascii, Text, ReadArgs;
    var args := [|s.args|] + (EncodeAll(EncodeArg, s.args) + TRAILER);
    HeadFields(s.chainId, s.contract, s.selector, s.title, Ascii(s.title) + args);
    ReadBytesBack(Ascii(s.title), args);
  }

  // The device side of the contract: what compiles is at least 39 bytes, spells
  // the observed chain, contract and selector, and names each argument with a
  // format for its own ABI type, in order; together they cover the calldata.
  lemma CompiledReadsBack(chain: Chain, c: Candidate, shape: Shape)
    requires Compile(chain, c, shape).Ok?
    ensures var b := Compile(chain, c, shape).value;
      && |b| >= 39
      && ReadSchema(b) == Some(CompileSchema(chain, c, shape).value)
      && var s := ReadSchema(b).value;
      && s.chainId == shape.chainId
      && HexEncode(s.contract) == Lower(WithoutPrefix(Lower(shape.contract)))
      && HexEncode(s.selector) == Lower(WithoutPrefix(c.selector))
      && Lower(c.selector) == Lower(shape.selector)
      && |s.args| == |c.inputs|
      && shape.calldataLength == 4 + 32 * |s.args|
      && forall i :: 0 <= i < |s.args| ==> EvmFormat(c.inputs[i].kind) == Some(s.args[i].format)
  {
    SchemaReadsBack(CompileSchema(chain, c, shape).value);
    hide ReadSchema, SchemaBytes, IsPlain, EvmFormat, Lower, WithoutPrefix, HexEncode, IsHex, HexDecode, SchemaShaped,
      CompileArgs;
    ExactHexSize(Lower(shape.contract), 20);
    ExactHexSize(c.selector, 4);
    KindsKept(chain, c, shape);
    var inputs := Prepare(chain, c, shape).value.inputs;
    ArgFormats(inputs, |inputs|);
  }

  lemma KindsKept(chain: Chain, c: Candidate, shape: Shape)
    requires Prepare(chain, c, shape).Ok?
    ensures var inputs := Prepare(chain, c, shape).value.inputs;
      |inputs| == |c.inputs| && forall i :: 0 <= i < |inputs| ==> inputs[i].kind == c.inputs[i].kind
  {
    if c.source == Erc7730Registry {
      FieldsApplied(c.inputs, c.display.value.fields);
    }
  }

  // A display that is accepted renames every argument, in ABI order, and
  // changes nothing else about it.
  lemma {:induction false} FieldsApplied(inputs: seq<AbiInput>, fields: seq<Field>)
    requires |inputs| == |fields| && ApplyFields(inputs, fields).Ok?
    ensures var r := ApplyFields(inputs, fields).value;
      forall i :: 0 <= i < |inputs| ==>
        && r[i].kind == inputs[i].kind && r[i].name == fields[i].caption != ""
        && FieldPath(fields[i].path) == inputs[i].name && FormatFaithful(inputs[i].kind, fields[i].format)
  {
    hide FormatFaithful, FieldPath;
    if inputs != [] {
      FieldsApplied(inputs[1..], fields[1..]);
    }
  }

  lemma {:induction false} ArgFormats(inputs: seq<AbiInput>, i: nat)
    requires i <= |inputs| && CompileArgs(inputs, i).Ok?
    ensures var args := CompileArgs(inputs, i).value;
      forall k :: 0 <= k < i ==>
        && EvmFormat(inputs[k].kind) == Some(args[k].format)
        && args[k].name == if inputs[k].name == "" then "arg" + Numeral(k + 1) else inputs[k].name
  {
    hide EvmFormat, IsPlain;
    if i > 0 {
      ArgFormats(inputs, i - 1);
    }
  }
}
