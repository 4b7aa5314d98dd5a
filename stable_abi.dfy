/**
  The decisions the `StableAbi` derive makes when it turns a type
  declaration into the layout description of its `SharedStableAbi` impl.

  The input is the parsed declaration (`DataStructure`) together with the
  options read from its attributes (`StableAbiOptions`); the output is the
  content of the generated impl: the implementing type, its `Kind`, the
  arguments of its `StaticEquivalent`, the zero-size assertions of a
  transparent type and the `TypeLayout` parameters (name, data shape,
  generics). A panic of the derive is an `Err`.
*/
module StableAbi {
  import opened Wrappers
  import Fmt

  // ---------------------------------------------------------------------
  // Input: the declaration.

  /** Whether a function-pointer entry is a parameter or a return value. */
  datatype ParamOrReturn = Param | Return

  /** A parameter or return of a function pointer found in a field's type. */
  datatype FnParam = FnParam(paramOrRet: ParamOrReturn, ty: string, lifetimeRefs: seq<nat>)

  /** A function pointer found in a field's type. */
  datatype FnInfo = FnInfo(params: seq<FnParam>, rets: seq<FnParam>)

  /**
    A declared field: its identifier (the position, for a tuple field), its
    type with the lifetimes replaced, the lifetimes it references and the
    function pointers in its type.
  */
  datatype Field = Field(ident: string, ty: string, referencedLifetimes: seq<nat>, functions: seq<FnInfo>)

  /** A variant: the one variant of a struct or union, or one variant of an enum. */
  datatype Variant = Variant(name: string, fields: seq<Field>)

  datatype DataVariant = StructData | EnumData | UnionData

  /** The generic parameters of the declaration, each list in declaration order. */
  datatype Generics = Generics(lifetimes: seq<string>, typeParams: seq<string>, constParams: seq<string>)

  datatype DataStructure = DataStructure(
    name: string,
    dataVariant: DataVariant,
    variants: seq<Variant>,
    generics: Generics)

  /** A struct or union is parsed into exactly one variant. */
  predicate WellFormed(ds: DataStructure)
  {
    ds.dataVariant != EnumData ==> |ds.variants| == 1
  }

  // ---------------------------------------------------------------------
  // Input: the options read from the attributes.

  /**
    Which field an option refers to: the options key fields by their
    address, that is, by their position in the declaration.
  */
  datatype FieldId = FieldId(variant: nat, field: nat)

  /** A type in the generated code. */
  datatype TypeExpr =
    | Tokens(text: string)
    | EmptyTuple
    | StaticEquivalentOf(param: string)

  /** A type parameter declared unconstrained, with its optional `'static` equivalent. */
  datatype UnconstrainedTyParam = UnconstrainedTyParam(staticEquivalent: Option<TypeExpr>)

  /** The options of a prefix type: its generated prefix struct and the first suffix field. */
  datatype PrefixConfig = PrefixConfig(prefixStruct: string, firstSuffixField: nat)

  datatype StabilityKind = Value | Prefix(prefix: PrefixConfig)

  datatype StableAbiOptions = StableAbiOptions(
    kind: StabilityKind,
    reprTransparent: bool,
    renamedFields: map<FieldId, string>,
    opaqueFields: set<FieldId>,
    unconstrainedTypeParams: map<string, UnconstrainedTyParam>)

  // ---------------------------------------------------------------------
  // Output: the layout description.

  /** The bound through which a field's layout is obtained. */
  datatype Flavor = StableAbiBound | UnsafeOpaqueFieldBound

  /**
    A synthetic sub-field for one parameter or return of a function pointer.
    Its flavour is always `StableAbiBound`, even inside an opaque field.
  */
  datatype SubField = SubField(name: string, lifetimeRefs: seq<nat>, ty: string, flavor: Flavor)

  /** A `TLField`: name, referenced lifetimes, type, flavour and sub-fields. */
  datatype FieldLayout = FieldLayout(
    name: string,
    lifetimes: seq<nat>,
    ty: string,
    flavor: Flavor,
    subfields: seq<SubField>)

  /** A `TLEnumVariant`. */
  datatype VariantLayout = VariantLayout(name: string, fields: seq<FieldLayout>)

  /** `TLData`: the shape of the type. */
  datatype Data =
    | Struct(fields: seq<FieldLayout>)
    | Enum(variants: seq<VariantLayout>)
    | ReprTransparent(ty: string)
    | PrefixType(lastPrefixField: nat, fields: seq<FieldLayout>)

  /** The associated `Kind` type. */
  datatype AbiKind = ValueKind | PrefixKind

  /** One generic argument of `StaticEquivalent`. */
  datatype GenericArg = StaticLifetime | TypeArg(ty: TypeExpr) | ConstArg(name: string)

  /** The generics descriptor of the layout. */
  datatype GenericsLayout = GenericsLayout(lifetimes: seq<string>, typeParams: seq<string>, constParams: seq<string>)

  /** The content of the generated `SharedStableAbi` impl. */
  datatype SharedStableAbiImpl = SharedStableAbiImpl(
    implName: string,
    kind: AbiKind,
    staticEquivalent: seq<GenericArg>,
    zeroSizedAssertions: seq<string>,
    layoutName: string,
    data: Data,
    generics: GenericsLayout)

  /** The panics of the derive. */
  datatype DeriveError =
    | TransparentEnum        // "repr(transparent) enums are not yet supported"
    | EnumPrefixType         // "enum prefix types not supported"
    | TransparentPrefixType  // "repr(transparent) prefix types not supported"
    | IndexOutOfBounds       // indexing a variant or field list that is too short

  // ---------------------------------------------------------------------
  // Function-pointer sub-fields.

  /** `fn_{fnIndex}_p_{i}` for a parameter, `fn_{fnIndex}_returns` for a return. */
  function SubFieldName(fnIndex: nat, i: nat, kind: ParamOrReturn): string
  {
    "fn_" + Fmt.Decimal(fnIndex) + "_" + NameTail(i, kind)
  }

  function NameTail(i: nat, kind: ParamOrReturn): string
  {
    match kind
    case Param => "p_" + Fmt.Decimal(i)
    case Return => "returns"
  }

  /** The parameters, then the returns, of a function pointer. */
  function Entries(f: FnInfo): (r: seq<FnParam>)
    ensures |r| == |f.params| + |f.rets|
    ensures forall i :: 0 <= i < |f.params| ==> r[i] == f.params[i]
    ensures forall i :: 0 <= i < |f.rets| ==> r[|f.params| + i] == f.rets[i]
  {
    f.params + f.rets
  }

  /** The sub-fields of the function pointer at position `fnIndex`. */
  function FnSubFields(fnIndex: nat, f: FnInfo): (r: seq<SubField>)
  {
    seq(|Entries(f)|, i requires 0 <= i < |Entries(f)| =>
      SubField(SubFieldName(fnIndex, i, Entries(f)[i].paramOrRet), Entries(f)[i].lifetimeRefs, Entries(f)[i].ty, StableAbiBound))
  }

  /** The sub-fields of a field: those of each function pointer, in order. */
  function SubFieldsOf(fns: seq<FnInfo>): seq<SubField>
    decreases |fns|
  {
    if fns == [] then []
    else SubFieldsOf(fns[..|fns| - 1]) + FnSubFields(|fns| - 1, fns[|fns| - 1])
  }

  /** The number of parameters and returns of all the function pointers. */
  function EntryCount(fns: seq<FnInfo>): nat
    decreases |fns|
  {
    if fns == [] then 0 else EntryCount(fns[..|fns| - 1]) + |Entries(fns[|fns| - 1])|
  }

  /**
    Sub-fields come one per parameter and per return, parameters first:
    entry `i` of function pointer `k` sits after the entries of the
    function pointers before it and is named after `k` and `i`.
  */
  lemma {:induction false} SubFieldAt(fns: seq<FnInfo>, k: nat, i: nat)
    requires k < |fns| && i < |Entries(fns[k])|
    ensures EntryCount(fns[..k]) + i < |SubFieldsOf(fns)|
    ensures SubFieldsOf(fns)[EntryCount(fns[..k]) + i] ==
      SubField(SubFieldName(k, i, Entries(fns[k])[i].paramOrRet), Entries(fns[k])[i].lifetimeRefs, Entries(fns[k])[i].ty, StableAbiBound)
    decreases |fns|
  {
    var last := |fns| - 1;
    var init := fns[..last];
    var front := SubFieldsOf(init);
    var back := FnSubFields(last, fns[last]);
    assert SubFieldsOf(fns) == front + back;
    if k < last {
      assert init[..k] == fns[..k];
      assert init[k] == fns[k];
      SubFieldAt(init, k, i);
    } else {
      assert fns[..k] == init;
      SubFieldCount(init);
      assert (front + back)[|front| + i] == back[i];
    }
  }

  /** A field has one sub-field per parameter and per return of its function pointers. */
  lemma {:induction false} SubFieldCount(fns: seq<FnInfo>)
    ensures |SubFieldsOf(fns)| == EntryCount(fns)
    decreases |fns|
  {
    if fns != [] {
      SubFieldCount(fns[..|fns| - 1]);
    }
  }

  // ---------------------------------------------------------------------
  // Reading a sub-field name back.

  /** Splits a string into its leading run of digits and the rest. */
  function SplitDigits(s: string): (r: (string, string))
    ensures r.0 + r.1 == s && Fmt.AllDigits(r.0)
    ensures r.1 != [] ==> !Fmt.IsDigit(r.1[0])
  {
    if s == [] || !Fmt.IsDigit(s[0]) then ([], s)
    else
      var rest := SplitDigits(s[1..]);
      var digits := [s[0]] + rest.0;
      assert digits + rest.1 == [s[0]] + (rest.0 + rest.1);
      assert forall j :: 1 <= j < |digits| ==> digits[j] == rest.0[j - 1];
      (digits, rest.1)
  }

  /** Where a sub-field name says its entry comes from. */
  datatype SubFieldOrigin = ParamOf(fnIndex: nat, index: nat) | ReturnOf(fnIndex: nat)

  /** Reads the function index and the entry index back out of a sub-field name. */
  function ParseSubFieldName(s: string): Option<SubFieldOrigin>
  {
    if |s| < 3 || s[..3] != "fn_" then None else ParseAfterPrefix(s[3..])
  }

  /** Reads `{fn_i}_{tail}`. */
  function ParseAfterPrefix(s: string): Option<SubFieldOrigin>
  {
    var split := SplitDigits(s);
    var digits, rest := split.0, split.1;
    if digits == [] || rest == [] || rest[0] != '_' then None
    else ParseTail(Fmt.DigitsValue(digits), rest[1..])
  }

  /** Reads `p_{i}` or `returns`. */
  function ParseTail(fnIndex: nat, tail: string): Option<SubFieldOrigin>
  {
    if tail == "returns" then Some(ReturnOf(fnIndex))
    else if |tail| > 2 && tail[..2] == "p_" && Fmt.AllDigits(tail[2..]) then
      Some(ParamOf(fnIndex, Fmt.DigitsValue(tail[2..])))
    else None
  }

  lemma {:induction false} SplitDigitsPrefix(d: string, rest: string)
    requires Fmt.AllDigits(d) && rest != [] && !Fmt.IsDigit(rest[0])
    ensures SplitDigits(d + rest) == (d, rest)
    decreases |d|
  {
    if d == [] {
      assert d + rest == rest;
    } else {
      assert (d + rest)[0] == d[0] && Fmt.IsDigit(d[0]);
      assert (d + rest)[1..] == d[1..] + rest;
      SplitDigitsPrefix(d[1..], rest);
      assert [d[0]] + d[1..] == d;
    }
  }

  /**
    A sub-field name records which function pointer and which entry it was
    made for: parameter names read back as their pair of indices, return
    names as their function index.
  */
  lemma SubFieldNameRoundTrip(fnIndex: nat, i: nat, kind: ParamOrReturn)
    ensures ParseSubFieldName(SubFieldName(fnIndex, i, kind)) ==
      match kind
      case Param => Some(ParamOf(fnIndex, i))
      case Return => Some(ReturnOf(fnIndex))
  {
    var d := Fmt.Decimal(fnIndex);
    var tail := NameTail(i, kind);
    var s := SubFieldName(fnIndex, i, kind);
    assert s == "fn_" + (d + ("_" + tail));
    assert s[..3] == "fn_" && s[3..] == d + ("_" + tail);
    AfterPrefixRoundTrip(fnIndex, tail);
    TailRoundTrip(fnIndex, i, kind);
  }

  lemma AfterPrefixRoundTrip(fnIndex: nat, tail: string)
    ensures ParseAfterPrefix(Fmt.Decimal(fnIndex) + ("_" + tail)) == ParseTail(fnIndex, tail)
  {
    var d := Fmt.Decimal(fnIndex);
    SplitDigitsPrefix(d, "_" + tail);
    assert ("_" + tail)[1..] == tail;
    Fmt.DecimalRoundTrip(fnIndex);
  }

  lemma TailRoundTrip(k: nat, i: nat, kind: ParamOrReturn)
    ensures ParseTail(k, NameTail(i, kind)) == match kind
      case Param => Some(ParamOf(k, i))
      case Return => Some(ReturnOf(k))
  {
    if kind == Param {
      var t := NameTail(i, kind);
      assert t[..2] == "p_" && t[2..] == Fmt.Decimal(i);
      assert t[2] != 'e';
      Fmt.DecimalRoundTrip(i);
    }
  }

  /** Distinct parameter entries get distinct sub-field names. */
  lemma ParamSubFieldNamesDistinct(k1: nat, i1: nat, k2: nat, i2: nat)
    requires (k1, i1) != (k2, i2)
    ensures SubFieldName(k1, i1, Param) != SubFieldName(k2, i2, Param)
  {
    SubFieldNameRoundTrip(k1, i1, Param);
    SubFieldNameRoundTrip(k2, i2, Param);
  }

  // ---------------------------------------------------------------------
  // Fields and variants.

  /** The name a field is emitted under: its rename when one is configured. */
  function FieldName(config: StableAbiOptions, id: FieldId, field: Field): string
  {
    if id in config.renamedFields then config.renamedFields[id] else field.ident
  }

  /** The flavour of a field; every field implements the `StableAbi` bound. */
  function FieldFlavor(config: StableAbiOptions, id: FieldId): Flavor
  {
    var implsSabi := true;
    match (id in config.opaqueFields, implsSabi)
    case (false, false) => StableAbiBound
    case (false, true) => StableAbiBound
    case (true, _) => UnsafeOpaqueFieldBound
  }

  function DescribeField(config: StableAbiOptions, id: FieldId, field: Field): FieldLayout
  {
    FieldLayout(FieldName(config, id, field), field.referencedLifetimes, field.ty,
      FieldFlavor(config, id), SubFieldsOf(field.functions))
  }

  /** The fields of variant `variant`, one layout per declared field, in order. */
  function FieldLayouts(config: StableAbiOptions, variant: nat, fields: seq<Field>): (r: seq<FieldLayout>)
    ensures |r| == |fields|
    ensures forall i :: 0 <= i < |r| ==>
      r[i].ty == fields[i].ty && r[i].lifetimes == fields[i].referencedLifetimes
  {
    seq(|fields|, i requires 0 <= i < |fields| => DescribeField(config, FieldId(variant, i), fields[i]))
  }

  /** The variants of an enum, one layout per declared variant, in order. */
  function VariantLayouts(config: StableAbiOptions, variants: seq<Variant>): (r: seq<VariantLayout>)
    ensures |r| == |variants|
    ensures forall i :: 0 <= i < |r| ==>
      r[i].name == variants[i].name && |r[i].fields| == |variants[i].fields|
  {
    seq(|variants|, i requires 0 <= i < |variants| =>
      VariantLayout(variants[i].name, FieldLayouts(config, i, variants[i].fields)))
  }

  /**
    Each field is emitted under its configured rename, or else its
    identifier, and with the opaque flavour exactly when it is marked
    opaque; its sub-fields are those of its function pointers.
  */
  lemma FieldLayoutsAt(config: StableAbiOptions, variant: nat, fields: seq<Field>, i: nat)
    requires i < |fields|
    ensures |FieldLayouts(config, variant, fields)| == |fields|
    ensures FieldId(variant, i) in config.renamedFields ==>
      FieldLayouts(config, variant, fields)[i].name == config.renamedFields[FieldId(variant, i)]
    ensures FieldId(variant, i) !in config.renamedFields ==>
      FieldLayouts(config, variant, fields)[i].name == fields[i].ident
    ensures FieldLayouts(config, variant, fields)[i].flavor == UnsafeOpaqueFieldBound
      <==> FieldId(variant, i) in config.opaqueFields
    ensures FieldLayouts(config, variant, fields)[i].ty == fields[i].ty
    ensures FieldLayouts(config, variant, fields)[i].subfields == SubFieldsOf(fields[i].functions)
  {
  }

  // ---------------------------------------------------------------------
  // The shape of the type.

  /**
    The `TLData` of the layout, by (transparent, enum, prefix): a plain
    struct over the fields of its one variant; an enum over its variants; a
    transparent struct as its first field's type; a prefix type over its
    fields with `last_prefix_field` set to the first suffix field. The other
    combinations panic; the arms are tried in the order of `derive`'s `match` arms.
  */
  function DataOf(ds: DataStructure, config: StableAbiOptions): Result<Data, DeriveError>
    requires WellFormed(ds)
  {
    var isTransparent := config.reprTransparent;
    var isEnum := ds.dataVariant == EnumData;
    if !isTransparent && !isEnum && config.kind.Value? then
      Ok(Struct(FieldLayouts(config, 0, ds.variants[0].fields)))
    else if !isTransparent && isEnum && config.kind.Value? then
      Ok(Enum(VariantLayouts(config, ds.variants)))
    else if isTransparent && !isEnum && config.kind.Value? then
      if ds.variants[0].fields == [] then Err(IndexOutOfBounds)
      else Ok(ReprTransparent(ds.variants[0].fields[0].ty))
    else if isTransparent && isEnum then
      Err(TransparentEnum)
    else if !isTransparent && !isEnum then
      Ok(PrefixType(config.kind.prefix.firstSuffixField, FieldLayouts(config, 0, ds.variants[0].fields)))
    else if isEnum then
      Err(EnumPrefixType)
    else
      Err(TransparentPrefixType)
  }

  /**
    The zero-size assertions: none for a non-transparent type, otherwise
    one per field of the first variant after the first. Slicing off the
    first field of a first variant that has none panics.
  */
  function ReprTransparentAssertions(ds: DataStructure, config: StableAbiOptions): (r: Result<seq<string>, DeriveError>)
    ensures r.Err? <==> config.reprTransparent && (ds.variants == [] || ds.variants[0].fields == [])
    ensures r.Ok? && !config.reprTransparent ==> r.value == []
    ensures r.Ok? && config.reprTransparent ==>
      |r.value| + 1 == |ds.variants[0].fields| &&
      forall i :: 0 <= i < |r.value| ==> r.value[i] == ds.variants[0].fields[i + 1].ty
  {
    if !config.reprTransparent then Ok([])
    else if ds.variants == [] || ds.variants[0].fields == [] then Err(IndexOutOfBounds)
    else
      var rest := ds.variants[0].fields[1..];
      Ok(seq(|rest|, i requires 0 <= i < |rest| => rest[i].ty))
  }

  // ---------------------------------------------------------------------
  // Generics and `StaticEquivalent`.

  /** The type parameters listed in the generics descriptor: those not declared unconstrained. */
  function TypeParamsForGenerics(typeParams: seq<string>, unconstrained: map<string, UnconstrainedTyParam>)
    : (r: seq<string>)
    ensures |r| <= |typeParams|
    ensures forall i :: 0 <= i < |r| ==> r[i] !in unconstrained
    decreases |typeParams|
  {
    if typeParams == [] then []
    else if typeParams[0] in unconstrained then TypeParamsForGenerics(typeParams[1..], unconstrained)
    else [typeParams[0]] + TypeParamsForGenerics(typeParams[1..], unconstrained)
  }

  /**
    The type-parameter filter distributes over concatenation, so the
    parameters it keeps stay in declaration order.
  */
  lemma {:induction false} TypeParamsForGenericsFilter(a: seq<string>, b: seq<string>, unconstrained: map<string, UnconstrainedTyParam>)
    ensures TypeParamsForGenerics(a + b, unconstrained) ==
      TypeParamsForGenerics(a, unconstrained) + TypeParamsForGenerics(b, unconstrained)
    decreases |a|
  {
    if a == [] {
      assert a + b == b;
    } else {
      var t := a[1..];
      assert (a + b)[0] == a[0] && (a + b)[1..] == t + b;
      TypeParamsForGenericsFilter(t, b, unconstrained);
      if a[0] in unconstrained {
        assert TypeParamsForGenerics(a + b, unconstrained) == TypeParamsForGenerics(t + b, unconstrained);
        assert TypeParamsForGenerics(a, unconstrained) == TypeParamsForGenerics(t, unconstrained);
      } else {
        assert TypeParamsForGenerics(a + b, unconstrained) == [a[0]] + TypeParamsForGenerics(t + b, unconstrained);
        assert TypeParamsForGenerics(a, unconstrained) == [a[0]] + TypeParamsForGenerics(t, unconstrained);
        SeqAssoc([a[0]], TypeParamsForGenerics(t, unconstrained), TypeParamsForGenerics(b, unconstrained));
      }
    }
  }

  lemma SeqAssoc<T>(x: seq<T>, y: seq<T>, z: seq<T>)
    ensures x + (y + z) == (x + y) + z
  {
  }

  /** A type parameter is kept iff it is declared and not unconstrained. */
  lemma {:induction false} TypeParamsForGenericsKeeps(a: seq<string>, unconstrained: map<string, UnconstrainedTyParam>)
    ensures forall x :: x in TypeParamsForGenerics(a, unconstrained) <==> x in a && x !in unconstrained
    decreases |a|
  {
    if a != [] {
      TypeParamsForGenericsKeeps(a[1..], unconstrained);
      assert a == [a[0]] + a[1..];
    }
  }

  /**
    The `StaticEquivalent` argument for a type parameter: the configured
    equivalent of an unconstrained parameter (`()` when none is given),
    `StaticEquivalent<T>` for every other.
  */
  function StaticTypeArg(ty: string, config: StableAbiOptions): TypeExpr
  {
    if ty in config.unconstrainedTypeParams then
      match config.unconstrainedTypeParams[ty].staticEquivalent
      case Some(t) => t
      case None => EmptyTuple
    else StaticEquivalentOf(ty)
  }

  /** The arguments of `StaticEquivalent`: lifetimes, type parameters, const parameters. */
  function StaticEquivalentArgs(g: Generics, config: StableAbiOptions): (r: seq<GenericArg>)
    ensures |r| == |g.lifetimes| + |g.typeParams| + |g.constParams|
  {
    seq(|g.lifetimes|, _ => StaticLifetime)
    + seq(|g.typeParams|, i requires 0 <= i < |g.typeParams| => TypeArg(StaticTypeArg(g.typeParams[i], config)))
    + seq(|g.constParams|, i requires 0 <= i < |g.constParams| => ConstArg(g.constParams[i]))
  }

  function AssociatedKind(kind: StabilityKind): (r: AbiKind)
    ensures r == PrefixKind <==> kind.Prefix?
  {
    match kind
    case Value => ValueKind
    case Prefix(_) => PrefixKind
  }

  /** The implementing type: the declared type, or the generated prefix struct. */
  function ImplName(ds: DataStructure, kind: StabilityKind): (r: string)
    ensures kind.Value? ==> r == ds.name
    ensures kind.Prefix? ==> r == kind.prefix.prefixStruct
  {
    match kind
    case Value => ds.name
    case Prefix(prefix) => prefix.prefixStruct
  }

  // ---------------------------------------------------------------------
  // The derive.

  /**
    `derive`: the zero-size assertions are emitted before the data shape,
    so a panic of the former wins; either panic yields no impl.
  */
  function Derive(ds: DataStructure, config: StableAbiOptions): (r: Result<SharedStableAbiImpl, DeriveError>)
    requires WellFormed(ds)
    ensures r.Ok? ==> DataOf(ds, config).Ok? && r.value.data == DataOf(ds, config).value
    ensures r.Ok? ==> (r.value.kind == PrefixKind <==> config.kind.Prefix?)
  {
    match ReprTransparentAssertions(ds, config)
    case Err(e) => Err(e)
    case Ok(assertions) =>
      match DataOf(ds, config)
      case Err(e) => Err(e)
      case Ok(data) =>
        var g := ds.generics;
        Ok(SharedStableAbiImpl(
          ImplName(ds, config.kind),
          AssociatedKind(config.kind),
          StaticEquivalentArgs(g, config),
          assertions,
          ds.name,
          data,
          GenericsLayout(g.lifetimes, TypeParamsForGenerics(g.typeParams, config.unconstrainedTypeParams), g.constParams)))
  }

  // ---------------------------------------------------------------------
  // Properties of the derive.

  /**
    The derive produces an impl exactly when the combination is supported:
    a transparent type must be a non-prefix struct with at least one field,
    and an enum cannot be a prefix type.
  */
  lemma DeriveAccepts(ds: DataStructure, config: StableAbiOptions)
    requires WellFormed(ds)
    ensures var isEnum := ds.dataVariant == EnumData;
      Derive(ds, config).Ok? <==>
        (if config.reprTransparent
         then !isEnum && config.kind.Value? && ds.variants[0].fields != []
         else !(isEnum && config.kind.Prefix?))
  {
  }

  /**
    The unsupported combinations and the panic each one raises: transparent
    enums (with or without a prefix), enum prefix types and transparent
    prefix types; a transparent type whose first variant has no field
    fails on the zero-size assertions first.
  */
  lemma DeriveRejects(ds: DataStructure, config: StableAbiOptions)
    requires WellFormed(ds)
    ensures var isEnum := ds.dataVariant == EnumData;
      var hasField := ds.variants != [] && ds.variants[0].fields != [];
      (config.reprTransparent && !hasField ==> Derive(ds, config) == Err(IndexOutOfBounds)) &&
      (config.reprTransparent && isEnum && hasField ==> Derive(ds, config) == Err(TransparentEnum)) &&
      (!config.reprTransparent && isEnum && config.kind.Prefix? ==> Derive(ds, config) == Err(EnumPrefixType)) &&
      (config.reprTransparent && !isEnum && config.kind.Prefix? && hasField ==>
         Derive(ds, config) == Err(TransparentPrefixType))
  {
  }

  /**
    The shape of an accepted type: a plain struct is a `Struct` over the
    fields of its one variant; an enum is an `Enum` with one entry per
    declared variant, in order, each over its own fields; a transparent
    struct is `ReprTransparent` of its first field's type; a prefix struct
    is a `PrefixType` whose `last_prefix_field` is the configured first
    suffix field and whose fields are all the struct's fields.
  */
  lemma DeriveShape(ds: DataStructure, config: StableAbiOptions)
    requires WellFormed(ds) && Derive(ds, config).Ok?
    ensures var data := Derive(ds, config).value.data;
      var isEnum := ds.dataVariant == EnumData;
      (!config.reprTransparent && !isEnum && config.kind.Value? ==>
         data == Struct(FieldLayouts(config, 0, ds.variants[0].fields))) &&
      (!config.reprTransparent && isEnum ==>
         data.Enum? && |data.variants| == |ds.variants| &&
         forall i :: 0 <= i < |ds.variants| ==>
           data.variants[i] == VariantLayout(ds.variants[i].name, FieldLayouts(config, i, ds.variants[i].fields))) &&
      (config.reprTransparent ==> data == ReprTransparent(ds.variants[0].fields[0].ty)) &&
      (config.kind.Prefix? ==>
         data == PrefixType(config.kind.prefix.firstSuffixField, FieldLayouts(config, 0, ds.variants[0].fields)))
  {
  }

  /**
    A transparent type asserts that every field after the first is
    zero-sized, one assertion per field in order; other types assert nothing.
  */
  lemma ZeroSizedAssertions(ds: DataStructure, config: StableAbiOptions)
    requires WellFormed(ds) && Derive(ds, config).Ok?
    ensures var a := Derive(ds, config).value.zeroSizedAssertions;
      (!config.reprTransparent ==> a == []) &&
      (config.reprTransparent ==>
         |a| == |ds.variants[0].fields| - 1 &&
         forall i :: 1 <= i < |ds.variants[0].fields| ==> a[i - 1] == ds.variants[0].fields[i].ty)
  {
  }

  /**
    The generics descriptor lists every lifetime and const parameter, and
    exactly the type parameters that are not unconstrained.
  */
  lemma DeriveGenerics(ds: DataStructure, config: StableAbiOptions)
    requires WellFormed(ds) && Derive(ds, config).Ok?
    ensures var r := Derive(ds, config).value;
      r.generics.lifetimes == ds.generics.lifetimes &&
      r.generics.constParams == ds.generics.constParams &&
      forall x :: x in r.generics.typeParams <==>
        x in ds.generics.typeParams && x !in config.unconstrainedTypeParams
  {
    TypeParamsForGenericsKeeps(ds.generics.typeParams, config.unconstrainedTypeParams);
  }

  /**
    `Kind` is the prefix kind exactly when a prefix is configured, and the
    impl is then for the generated prefix struct instead of the declared type.
  */
  lemma DeriveKind(ds: DataStructure, config: StableAbiOptions)
    requires WellFormed(ds) && Derive(ds, config).Ok?
    ensures var r := Derive(ds, config).value;
      (r.kind == PrefixKind <==> config.kind.Prefix?) &&
      r.implName == (if config.kind.Prefix? then config.kind.prefix.prefixStruct else ds.name) &&
      r.layoutName == ds.name
  {
  }

  /**
    `StaticEquivalent` keeps the generic arity: every lifetime becomes
    `'static`, an unconstrained type parameter becomes its configured
    equivalent or `()`, every other type parameter `T` becomes
    `StaticEquivalent<T>`, and the const parameters follow unchanged.
  */
  lemma StaticEquivalentShape(g: Generics, config: StableAbiOptions)
    ensures |StaticEquivalentArgs(g, config)| == |g.lifetimes| + |g.typeParams| + |g.constParams|
    ensures forall i :: 0 <= i < |g.lifetimes| ==> StaticEquivalentArgs(g, config)[i] == StaticLifetime
    ensures forall j :: 0 <= j < |g.typeParams| ==>
      StaticEquivalentArgs(g, config)[|g.lifetimes| + j] == TypeArg(
        if g.typeParams[j] !in config.unconstrainedTypeParams then StaticEquivalentOf(g.typeParams[j])
        else if config.unconstrainedTypeParams[g.typeParams[j]].staticEquivalent.None? then EmptyTuple
        else config.unconstrainedTypeParams[g.typeParams[j]].staticEquivalent.value)
    ensures forall j :: 0 <= j < |g.constParams| ==>
      StaticEquivalentArgs(g, config)[|g.lifetimes| + |g.typeParams| + j] == ConstArg(g.constParams[j])
  {
    var args := StaticEquivalentArgs(g, config);
    var nl, nt := |g.lifetimes|, |g.typeParams|;
    var lts := seq(|g.lifetimes|, _ => StaticLifetime);
    var tys := seq(|g.typeParams|, i requires 0 <= i < |g.typeParams| => TypeArg(StaticTypeArg(g.typeParams[i], config)));
    var cps := seq(|g.constParams|, i requires 0 <= i < |g.constParams| => ConstArg(g.constParams[i]));
    assert args == (lts + tys) + cps;
    assert |lts + tys| == nl + nt;
    forall i | 0 <= i < nl
      ensures args[i] == StaticLifetime
    {
      assert args[i] == (lts + tys)[i] == lts[i];
    }
    forall j | 0 <= j < nt
      ensures args[nl + j] == TypeArg(StaticTypeArg(g.typeParams[j], config))
    {
      assert args[nl + j] == (lts + tys)[nl + j] == tys[j];
    }
    forall j | 0 <= j < |g.constParams|
      ensures args[nl + nt + j] == ConstArg(g.constParams[j])
    {
      assert args[nl + nt + j] == cps[j];
    }
  }

  // ---------------------------------------------------------------------
  // The tokenizer loops.

  /** A `usize` can index every function pointer and every entry of each. */
  predicate UsizeIndexed(fns: seq<FnInfo>)
  {
    |fns| < Fmt.UsizeLimit && forall f :: f in fns ==> |Entries(f)| < Fmt.UsizeLimit
  }

  /**
    The inner loops of `fields_tokenizer`: for each function pointer and
    each of its parameters and returns, the name is written into a reused
    64-byte `ArrayString` and a sub-field is appended. The buffer never
    overflows, so every name is complete.
  */
  method TokenizeSubFields(fns: seq<FnInfo>) returns (subs: seq<SubField>)
    requires UsizeIndexed(fns)
    ensures subs == SubFieldsOf(fns)
  {
    var buffer := new Fmt.ArrayString(64);
    subs := [];
    for fnIndex := 0 to |fns|
      invariant buffer.Valid() && buffer.capacity == 64
      invariant subs == SubFieldsOf(fns[..fnIndex])
    {
      assert fns[fnIndex] in fns;
      var more := TokenizeFnSubFields(buffer, fnIndex, fns[fnIndex]);
      subs := subs + more;
      assert fns[..fnIndex + 1][..fnIndex] == fns[..fnIndex];
    }
    assert fns[..|fns|] == fns;
  }

  /** The loop over one function pointer's parameters and returns, reusing the buffer. */
  method TokenizeFnSubFields(buffer: Fmt.ArrayString, fnIndex: nat, f: FnInfo) returns (subs: seq<SubField>)
    requires buffer.Valid() && buffer.capacity == 64
    requires fnIndex < Fmt.UsizeLimit && |Entries(f)| < Fmt.UsizeLimit
    modifies buffer
    ensures buffer.Valid() && buffer.capacity == 64
    ensures subs == FnSubFields(fnIndex, f)
  {
    var entries := Entries(f);
    ghost var expected := FnSubFields(fnIndex, f);
    subs := [];
    for i := 0 to |entries|
      invariant buffer.Valid() && buffer.capacity == 64
      invariant |subs| == i
      invariant forall j :: 0 <= j < i ==> subs[j] == expected[j]
    {
      var pr := entries[i];
      buffer.Clear();
      WriteSubFieldName(buffer, fnIndex, i, pr.paramOrRet);
      subs := subs + [SubField(buffer.text, pr.lifetimeRefs, pr.ty, StableAbiBound)];
    }
  }

  /** `write!(buffer, "fn_{}_", fn_i)` followed by `p_{}` or `returns`, into an empty buffer. */
  method WriteSubFieldName(buffer: Fmt.ArrayString, fnIndex: nat, i: nat, kind: ParamOrReturn)
    requires buffer.Valid() && buffer.capacity == 64 && buffer.text == []
    requires fnIndex < Fmt.UsizeLimit && i < Fmt.UsizeLimit
    modifies buffer
    ensures buffer.Valid() && buffer.text == SubFieldName(fnIndex, i, kind)
  {
    WriteNameHead(buffer, fnIndex);
    WriteNameTail(buffer, i, kind);
  }

  /** `write!(buffer, "fn_{}_", fn_i)` into an empty buffer. */
  method WriteNameHead(buffer: Fmt.ArrayString, fnIndex: nat)
    requires buffer.Valid() && buffer.capacity == 64 && buffer.text == []
    requires fnIndex < Fmt.UsizeLimit
    modifies buffer
    ensures buffer.Valid() && buffer.text == "fn_" + Fmt.Decimal(fnIndex) + "_"
    ensures |buffer.text| <= 24
  {
    Fmt.UsizeDecimalLength(fnIndex);
    var head := ["fn_", Fmt.Decimal(fnIndex), "_"];
    Fmt.ConcatSmall("fn_", Fmt.Decimal(fnIndex), "_");
    Fmt.AllPiecesWritten(0, head, 64);
    assert head[..|head|] == head;
    var _ := buffer.WriteFmt(head);
  }

  /** `write!(buffer, "p_{}", i)` or `write!(buffer, "returns")` after the head. */
  method WriteNameTail(buffer: Fmt.ArrayString, i: nat, kind: ParamOrReturn)
    requires buffer.Valid() && buffer.capacity == 64 && |buffer.text| <= 24
    requires i < Fmt.UsizeLimit
    modifies buffer
    ensures buffer.Valid() && buffer.text == old(buffer.text) + NameTail(i, kind)
  {
    Fmt.UsizeDecimalLength(i);
    var tail := match kind case Param => ["p_", Fmt.Decimal(i)] case Return => ["returns"];
    Fmt.ConcatSmall(tail[0], if kind == Param then Fmt.Decimal(i) else "", "");
    Fmt.AllPiecesWritten(|buffer.text|, tail, 64);
    assert tail[..|tail|] == tail;
    var _ := buffer.WriteFmt(tail);
  }

  /** `fields_tokenizer`: one field layout per declared field, in order. */
  method FieldsTokenizer(config: StableAbiOptions, variant: nat, fields: seq<Field>) returns (out: seq<FieldLayout>)
    requires forall f :: f in fields ==> UsizeIndexed(f.functions)
    ensures out == FieldLayouts(config, variant, fields)
  {
    out := [];
    for i := 0 to |fields|
      invariant |out| == i
      invariant forall j :: 0 <= j < i ==> out[j] == DescribeField(config, FieldId(variant, j), fields[j])
    {
      var field := fields[i];
      assert field in fields;
      var name := if FieldId(variant, i) in config.renamedFields
        then config.renamedFields[FieldId(variant, i)] else field.ident;
      var isOpaqueField := FieldId(variant, i) in config.opaqueFields;
      var flavor := if isOpaqueField then UnsafeOpaqueFieldBound else StableAbiBound;
      var subs := TokenizeSubFields(field.functions);
      out := out + [FieldLayout(name, field.referencedLifetimes, field.ty, flavor, subs)];
    }
  }

  /** `variants_tokenizer`: one variant entry per declared variant, in order. */
  method VariantsTokenizer(ds: DataStructure, config: StableAbiOptions) returns (out: seq<VariantLayout>)
    requires forall v, f :: v in ds.variants && f in v.fields ==> UsizeIndexed(f.functions)
    ensures out == VariantLayouts(config, ds.variants)
  {
    out := [];
    for i := 0 to |ds.variants|
      invariant |out| == i
      invariant forall j :: 0 <= j < i ==>
        out[j] == VariantLayout(ds.variants[j].name, FieldLayouts(config, j, ds.variants[j].fields))
    {
      var variant := ds.variants[i];
      assert variant in ds.variants;
      var fields := FieldsTokenizer(config, i, variant.fields);
      out := out + [VariantLayout(variant.name, fields)];
    }
  }

  /** `repr_transparent_assertions`: the loop over the fields after the first. */
  method EmitReprTransparentAssertions(ds: DataStructure, config: StableAbiOptions)
    returns (r: Result<seq<string>, DeriveError>)
    ensures r == ReprTransparentAssertions(ds, config)
  {
    if !config.reprTransparent {
      return Ok([]);
    }
    if ds.variants == [] || ds.variants[0].fields == [] {
      return Err(IndexOutOfBounds);
    }
    var rest := ds.variants[0].fields[1..];
    var ts := [];
    for i := 0 to |rest|
      invariant |ts| == i
      invariant forall j :: 0 <= j < i ==> ts[j] == rest[j].ty
    {
      ts := ts + [rest[i].ty];
    }
    assert ts == seq(|rest|, i requires 0 <= i < |rest| => rest[i].ty);
    r := Ok(ts);
  }

  /** `type_params_s`: the `StaticEquivalent` argument of each type parameter, in order. */
  method TypeParamsStatic(typeParams: seq<string>, config: StableAbiOptions) returns (out: seq<TypeExpr>)
    ensures |out| == |typeParams|
    ensures forall j :: 0 <= j < |typeParams| ==> out[j] == StaticTypeArg(typeParams[j], config)
  {
    out := [];
    for i := 0 to |typeParams|
      invariant |out| == i
      invariant forall j :: 0 <= j < i ==> out[j] == StaticTypeArg(typeParams[j], config)
    {
      var ty := typeParams[i];
      if ty in config.unconstrainedTypeParams {
        var unconstrained := config.unconstrainedTypeParams[ty];
        out := out + [if unconstrained.staticEquivalent.Some? then unconstrained.staticEquivalent.value else EmptyTuple];
      } else {
        out := out + [StaticEquivalentOf(ty)];
      }
    }
  }

  /**
    The assembled impl: the zero-size assertions, then the data shape
    (through the field and variant tokenizers), then the generics and the
    `StaticEquivalent` arguments, exactly as `Derive` describes them.
  */
  method EmitDerive(ds: DataStructure, config: StableAbiOptions) returns (r: Result<SharedStableAbiImpl, DeriveError>)
    requires WellFormed(ds)
    requires forall v, f :: v in ds.variants && f in v.fields ==> UsizeIndexed(f.functions)
    ensures r == Derive(ds, config)
  {
    var assertions := EmitReprTransparentAssertions(ds, config);
    if assertions.Err? {
      return Err(assertions.error);
    }
    var isTransparent := config.reprTransparent;
    var isEnum := ds.dataVariant == EnumData;
    var data: Data;
    if !isTransparent && !isEnum && config.kind.Value? {
      assert ds.variants[0] in ds.variants;
      var fields := FieldsTokenizer(config, 0, ds.variants[0].fields);
      data := Struct(fields);
    } else if !isTransparent && isEnum && config.kind.Value? {
      var variants := VariantsTokenizer(ds, config);
      data := Enum(variants);
    } else if isTransparent && !isEnum && config.kind.Value? {
      if ds.variants[0].fields == [] {
        return Err(IndexOutOfBounds);
      }
      data := ReprTransparent(ds.variants[0].fields[0].ty);
    } else if isTransparent && isEnum {
      return Err(TransparentEnum);
    } else if !isTransparent && !isEnum {
      assert ds.variants[0] in ds.variants;
      var fields := FieldsTokenizer(config, 0, ds.variants[0].fields);
      data := PrefixType(config.kind.prefix.firstSuffixField, fields);
    } else if isEnum {
      return Err(EnumPrefixType);
    } else {
      return Err(TransparentPrefixType);
    }
    var g := ds.generics;
    var typeArgs := TypeParamsStatic(g.typeParams, config);
    var staticEquivalent := seq(|g.lifetimes|, _ => StaticLifetime)
      + seq(|typeArgs|, i requires 0 <= i < |typeArgs| => TypeArg(typeArgs[i]))
      + seq(|g.constParams|, i requires 0 <= i < |g.constParams| => ConstArg(g.constParams[i]));
    assert staticEquivalent == StaticEquivalentArgs(g, config);
    var kind := if config.kind.Value? then ValueKind else PrefixKind;
    var implName := if config.kind.Value? then ds.name else config.kind.prefix.prefixStruct;
    r := Ok(SharedStableAbiImpl(
      implName, kind, staticEquivalent, assertions.value, ds.name, data,
      GenericsLayout(g.lifetimes, TypeParamsForGenerics(g.typeParams, config.unconstrainedTypeParams), g.constParams)));
  }
}
