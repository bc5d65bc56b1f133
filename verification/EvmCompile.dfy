// What the EVM compiler accepts, and what it makes of it, told from the observed
// shape and the candidate alone.
module EvmCompile {
  import opened Basics
  import opened Bytes
  import opened Strings
  import opened Hex
  import opened EvmSchema

  // s spells the n bytes b, in any case, with or without a prefix.
  ghost predicate SpellsHex(s: string, b: Buffer, n: nat) {
    |b| == n && IsHex(WithoutPrefix(s)) && HexEncode(b) == Lower(WithoutPrefix(s))
  }

  lemma {:induction false} HexEncodeSize(b: Buffer)
    ensures |HexEncode(b)| == 2 * |b|
  {
    if b != [] {
      HexEncodeSize(b[1..]);
    }
  }

  lemma ExactHexIff(s: string, b: Buffer, n: nat)
    ensures ExactHex(s, n) == Some(b) <==> SpellsHex(s, b, n)
  {
    hide IsHex, WithoutPrefix, HexEncode, HexDecode, Lower;
    HexEncodeSize(b);
    if ExactHex(s, n).Some? {
      ExactHexSize(s, n);
    }
    if SpellsHex(s, b, n) {
      SameHexText(b, WithoutPrefix(s));
    }
  }

  // ---- One argument ----

  // The field shows the argument as it is: by its own path and with a format that
  // is faithful to its type.
  ghost predicate Shows(field: Field, input: AbiInput) {
    && input.name != "" && '.' !in input.name
    && (field.path == "#" + input.name || field.path == "#." + input.name
        || (field.path == input.name && !("#" <= input.name)))
    && field.caption != "" && !field.hasParams && !field.encrypted && (field.visible == "" || field.visible == "always")
    && ((input.kind == "address" && (field.format == "addressName" || field.format == "raw"))
        || (IsIntegerLike(input.kind) && field.format == "amount"))
  }

  // int or uint, with any digits.
  ghost predicate IsIntegerLike(kind: string) {
    exists digits :: AllDigits(digits) && (kind == "int" + digits || kind == "uint" + digits)
  }

  lemma IntegerLikeIff(kind: string)
    ensures IsIntegerLike(kind) <==> IntegerSuffix(kind).Some? && AllDigits(IntegerSuffix(kind).value)
  {
    if digits :| AllDigits(digits) && (kind == "int" + digits || kind == "uint" + digits) {
      if kind == "uint" + digits {
        assert kind[4..] == digits;
      } else {
        assert kind[0] == 'i' && kind[3..] == digits;
      }
    }
    if "uint" <= kind {
      assert kind == "uint" + kind[4..];
    } else if "int" <= kind {
      assert kind == "int" + kind[3..];
    }
  }

  lemma PathIff(path: string, name: string)
    requires name != "" && '.' !in name
    ensures FieldPath(path) == name
      <==> path == "#" + name || path == "#." + name || (path == name && !("#" <= name))
  {
    assert name[0] in name;
    if "#." <= path {
      assert path == "#." + path[2..];
    } else if "#" <= path {
      assert path == "#" + path[1..];
    }
    assert ("#" + name)[1..] == name && ("#." + name)[2..] == name;
    assert ("#" + name)[1] == name[0];
  }

  lemma ApplyFieldIff(input: AbiInput, field: Field)
    ensures ApplyField(input, field).Ok? <==> Shows(field, input)
    ensures ApplyField(input, field).Ok? ==> ApplyField(input, field).value == AbiInput(field.caption, input.kind)
  {
    if input.name != "" && '.' !in input.name {
      PathIff(field.path, input.name);
    }
    IntegerLikeIff(input.kind);
    hide FieldPath, IsIntegerLike, IntegerSuffix, AllDigits;
  }

  lemma {:induction false} ApplyFieldsIff(inputs: seq<AbiInput>, fields: seq<Field>)
    requires |inputs| == |fields|
    ensures ApplyFields(inputs, fields).Ok? <==> forall i :: 0 <= i < |inputs| ==> Shows(fields[i], inputs[i])
    ensures ApplyFields(inputs, fields).Ok? ==> forall i :: 0 <= i < |inputs| ==>
      ApplyFields(inputs, fields).value[i] == AbiInput(fields[i].caption, inputs[i].kind)
  {
    hide Shows, ApplyField;
    if inputs != [] {
      ApplyFieldIff(inputs[0], fields[0]);
      ApplyFieldsIff(inputs[1..], fields[1..]);
      assert forall i :: 0 < i < |inputs| ==> inputs[i] == inputs[1..][i - 1] && fields[i] == fields[1..][i - 1];
    }
  }

  // ---- Titles and names ----

  // What the candidate calls the method, and each argument.
  ghost predicate Named(c: Candidate, title: string, names: seq<string>) {
    && |names| == |c.inputs|
    && match c.source
       case Sourcify => title == c.name && forall i :: 0 <= i < |names| ==> names[i] == c.inputs[i].name
       case Erc7730Registry =>
         && c.display.Some?
         && var d := c.display.value;
            && title == d.intent != "" && d.interpolatedIntent == ""
            && !d.hasIncludes && !d.requiredOrExcluded && !d.fieldsTruncated
            && |d.fields| == |c.inputs|
            && forall i :: 0 <= i < |names| ==> Shows(d.fields[i], c.inputs[i]) && names[i] == d.fields[i].caption
       case _ => false
  }

  function NamesOf(inputs: seq<AbiInput>): (r: seq<string>)
    ensures |r| == |inputs| && forall i :: 0 <= i < |r| ==> r[i] == inputs[i].name
  {
    seq(|inputs|, i requires 0 <= i < |inputs| => inputs[i].name)
  }

  ghost predicate SameKinds(inputs: seq<AbiInput>, c: Candidate) {
    |inputs| == |c.inputs| && forall i :: 0 <= i < |inputs| ==> inputs[i].kind == c.inputs[i].kind
  }

  lemma PrepareIff(c: Candidate, shape: Shape, title: string, names: seq<string>)
    ensures (Prepare(Ethereum, c, shape).Ok? && Prepare(Ethereum, c, shape).value.title == title
             && NamesOf(Prepare(Ethereum, c, shape).value.inputs) == names)
      <==> (shape.primaryType == "" || shape.selector != "") && c.signature != "" && |c.inputs| <= 8
           && Named(c, title, names)
    ensures Prepare(Ethereum, c, shape).Ok? ==> SameKinds(Prepare(Ethereum, c, shape).value.inputs, c)
  {
    if c.source == Erc7730Registry && c.display.Some? && |c.display.value.fields| == |c.inputs| {
      ApplyFieldsIff(c.inputs, c.display.value.fields);
    }
    hide ApplyFields, Shows;
  }

  // ---- The schema ----

  // s is the schema of the candidate's method for the observed shape.
  ghost predicate Describes(c: Candidate, shape: Shape, s: Schema) {
    && (shape.primaryType == "" || shape.selector != "") && c.signature != "" && |c.inputs| <= 8
    && 1 <= shape.chainId < 0x1_0000_0000 && s.chainId == shape.chainId
    && SpellsHex(Lower(shape.contract), s.contract, 20) && SpellsHex(c.selector, s.selector, 4)
    && Lower(shape.selector) == Lower(c.selector) && shape.calldataLength == 4 + 32 * |c.inputs|
    && IsPlain(s.title, 64) && |s.args| == |c.inputs|
    && exists names ::
      Named(c, s.title, names) && forall i :: 0 <= i < |s.args| ==> ArgIs(s.args[i], names[i], c.inputs[i].kind, i)
  }

  // The argument's name, or its number if it has none, and the format for its type.
  ghost predicate ArgIs(a: Arg, name: string, kind: string, i: nat) {
    && a.name == (if name == "" then "arg" + Numeral(i + 1) else name) && IsPlain(a.name, 32)
    && (a.format == 1 <==> kind == "address") && (a.format == 2 <==> IsInteger(kind))
    && (a.format == 3 <==> IsFixedBytes(kind) || kind == "bool") && a.format in {1, 2, 3}
  }

  lemma ArgIff(input: AbiInput, i: nat, a: Arg)
    ensures CompileArg(input, i) == Ok(a) <==> ArgIs(a, input.name, input.kind, i)
  {
    FormatMeans(input.kind);
    hide IsPlain, EvmFormat, IsInteger, IsFixedBytes, Numeral;
  }

  lemma {:induction false} ArgsIff(inputs: seq<AbiInput>, n: nat, args: seq<Arg>)
    requires n <= |inputs|
    ensures CompileArgs(inputs, n) == Ok(args)
      <==> |args| == n && forall i :: 0 <= i < n ==> ArgIs(args[i], inputs[i].name, inputs[i].kind, i)
  {
    hide CompileArg, ArgIs, IsPlain;
    if n > 0 && args != [] {
      ArgsIff(inputs, n - 1, Front(args));
      ArgIff(inputs[n - 1], n - 1, Last(args));
      assert args == Front(args) + [Last(args)];
      if CompileArgs(inputs, n) == Ok(args) {
        assert |args| == n;
      }
    }
  }

  lemma PartsIff(c: Candidate, shape: Shape, s: Schema)
    ensures CompileSchema(Ethereum, c, shape) == Ok(s) <==>
      var p := Prepare(Ethereum, c, shape);
      && p.Ok? && IsPlain(s.title, 64) && s.title == p.value.title
      && 1 <= shape.chainId < 0x1_0000_0000 && s.chainId == shape.chainId
      && ExactHex(Lower(shape.contract), 20) == Some(s.contract)
      && Lower(shape.selector) == Lower(c.selector) && shape.calldataLength == 4 + 32 * |c.inputs|
      && ExactHex(c.selector, 4) == Some(s.selector)
      && CompileArgs(p.value.inputs, |p.value.inputs|) == Ok(s.args)
  {
    hide Prepare, IsPlain, ExactHex, Lower, CompileArgs;
  }

  lemma NamedSize(c: Candidate, title: string)
    ensures forall names :: Named(c, title, names) ==> |names| == |c.inputs|
  {
    hide Shows;
  }

  lemma CompiledDescribes(c: Candidate, shape: Shape, s: Schema)
    requires CompileSchema(Ethereum, c, shape) == Ok(s)
    ensures Describes(c, shape, s)
  {
    hide CompileSchema, Prepare, IsPlain, ExactHex, SpellsHex, Lower, CompileArgs, Named, ArgIs, SameKinds;
    PartsIff(c, shape, s);
    ExactHexIff(Lower(shape.contract), s.contract, 20);
    ExactHexIff(c.selector, s.selector, 4);
    var inputs := Prepare(Ethereum, c, shape).value.inputs;
    var names := NamesOf(inputs);
    PrepareIff(c, shape, s.title, names);
    ArgsIff(inputs, |inputs|, s.args);
    KindsAre(inputs, c);
    assert forall i :: 0 <= i < |s.args| ==> ArgIs(s.args[i], names[i], c.inputs[i].kind, i);
  }

  // The compiler accepts exactly what describes a schema, and gives that schema;
  // and only for an Ethereum promotion.
  lemma CompileIff(chain: Chain, c: Candidate, shape: Shape, s: Schema)
    ensures CompileSchema(chain, c, shape) == Ok(s) <==> chain == Ethereum && Describes(c, shape, s)
  {
    if chain == Solana {
      OnlyEthereum(c, shape);
    }
    hide CompileSchema, Prepare, IsPlain, ExactHex, SpellsHex, Lower, CompileArgs, Named, ArgIs, SameKinds;
    if CompileSchema(Ethereum, c, shape) == Ok(s) {
      CompiledDescribes(c, shape, s);
    }
    if chain == Ethereum && Describes(c, shape, s) {
      PartsIff(c, shape, s);
      ExactHexIff(Lower(shape.contract), s.contract, 20);
      ExactHexIff(c.selector, s.selector, 4);
      NamedSize(c, s.title);
      var names :|
        Named(c, s.title, names) && forall i :: 0 <= i < |s.args| ==> ArgIs(s.args[i], names[i], c.inputs[i].kind, i);
      PrepareIff(c, shape, s.title, names);
      var inputs := Prepare(Ethereum, c, shape).value.inputs;
      ArgsIff(inputs, |inputs|, s.args);
      KindsAre(inputs, c);
      assert forall i :: 0 <= i < |names| ==> inputs[i].name == names[i];
    }
  }

  lemma KindsAre(inputs: seq<AbiInput>, c: Candidate)
    requires SameKinds(inputs, c)
    ensures |inputs| == |c.inputs| && forall i :: 0 <= i < |inputs| ==> inputs[i].kind == c.inputs[i].kind
  {
  }

  lemma OnlyEthereum(c: Candidate, shape: Shape)
    ensures CompileSchema(Solana, c, shape) == Err(NotEthereum)
  {
  }
}
