# abi_stable: inline storage and the `StableAbi` derive, in Dafny

This project models two parts of the `abi_stable` crates. Both let modules that are compiled separately agree on data layout across a dynamic-loading boundary.

- **Inline storage** (`inline_storage.dfy`, module `InlineStorage`). The closed set of buffer types that implement `InlineStorage`:
  - arrays of `u8`, `u32`, `u64` and `usize` up to fixed lengths;
  - the `AlignToN` and `AlignToUsize` wrappers, with their Rust layouts.

  It also models the scratch slot `ScratchSpace<T, Inline>`, which is built by `uninit`, `new` and `new_unchecked`. These constructors run the fit check: alignment first, then size. `new_unchecked` uses the compile-time form of the check, in both of its variants. A Rust type appears only as its `Layout` (size and alignment). A panic is an `Err`.
- **The `StableAbi` derive** (`stable_abi.dfy`, module `StableAbi`). The decisions the derive makes when it turns a parsed declaration and its attribute options into a `SharedStableAbi` impl:
  - the data shape (`Struct`, `Enum`, `ReprTransparent`, `PrefixType`) and the rejected combinations;
  - `last_prefix_field`;
  - field names, honouring renames;
  - field flavours (opaque or `StableAbi`);
  - the synthetic function-pointer sub-field names;
  - the generics descriptor;
  - the `StaticEquivalent` arguments, `Kind` and the implementing type;
  - the zero-size assertions of a transparent type.

  The tokenizer loops are methods. Each is proved equal to a pure function, and `EmitDerive` assembles them into exactly what `Derive` describes.
- **Formatting support** (`fmt.dfy`, module `Fmt`). What the derive needs from `core::fmt` and `arrayvec`:
  - the decimal rendering of a `usize`;
  - `ArrayString<[u8; 64]>`, a fixed-capacity buffer. It is a class whose `write!` pushes the formatted pieces one at a time and stops at the first piece that does not fit.
- `wrappers.dfy` holds `Option` and `Result`.

Three points of the derive that a reader might not expect:
- A transparent type keeps its `Kind` and gets the data shape `ReprTransparent`.
- The generics descriptor drops unconstrained type parameters. Only `StaticEquivalent` keeps the full arity.
- `last_prefix_field` is given `first_suffix_field`.

## Model

| member | source | states |
|---|---|---|
| InlineStorage.ArrayStorageBounds | abi_stable/src/inline_storage.rs:17-67 | for the arrays, `IsInlineStorage` (the impl list) says: `[u8; n]` is inline storage iff n ≤ 64, `[u32; n]` iff n ≤ 48, `[u64; n]` iff n ≤ 24, `[usize; n]` iff n ≤ 48, and no other array is; such an array holds at most that many elements |
| InlineStorage.StorageLayout | abi_stable/src/inline_storage.rs:69-113 | every storage type has alignment ≥ 1 and a size that is a multiple of its alignment |
| InlineStorage.StorageAlignIsPow2 | abi_stable/src/inline_storage.rs:69-113 | every inline-storage type is aligned to a power of two |
| InlineStorage.AlignToAlignment | abi_stable/src/inline_storage.rs:69-101 | `AlignToN<I>` is inline storage (`IsInlineStorage`) iff N is one of 1, 2, 4, …, 128 and `I` is inline storage; its alignment is then a multiple of N and at least N, and it is no smaller than `I` |
| InlineStorage.AlignToUsizeAlignment | abi_stable/src/inline_storage.rs:103-113 | `AlignToUsize<I>` is inline storage (`IsInlineStorage`) iff `I` is; its alignment is then is a multiple of the pointer size (2/4/8/16 bytes for 16/32/64/128-bit pointers); it is no smaller than `I` |
| InlineStorage.AssertFitsWithinStorage | abi_stable/src/inline_storage.rs:159-177 | the runtime check passes iff align(T) ≤ align(Inline) and size(T) ≤ size(Inline); when the alignment is violated, the alignment assertion is the one that fails, even if the size is violated too |
| InlineStorage.ScratchUninit | abi_stable/src/inline_storage.rs:132-143 | `uninit` succeeds iff `T` fits; on success the slot holds no value; on failure it reports the check's failure |
| InlineStorage.ScratchNew | abi_stable/src/inline_storage.rs:145-157 | `new(v)` succeeds iff `T` fits; on success the slot holds exactly `v`; on failure it reports the check's failure |
| InlineStorage.AssertFitsConst | abi_stable/src/inline_storage.rs:180-211 | before Rust 1.57 the only way the constant check fails is indexing `[()]` at 1; from 1.57 on it fails only with an assertion panic |
| InlineStorage.ConstCheckAgreesWithRuntime | abi_stable/src/inline_storage.rs:179-211 | both variants of the compile-time check (the out-of-bounds index on `[()]`, and `concat_assert!`) reject exactly the pairs the runtime check rejects, and name the same failing assertion |
| InlineStorage.ScratchNewUnchecked | abi_stable/src/inline_storage.rs:214-228 | `new_unchecked(v)` still runs the compile-time fit check: it succeeds iff `T` fits, and then holds exactly `v` |
| InlineStorage.NewUncheckedMatchesNew | abi_stable/src/inline_storage.rs:145-228 | on an inline-storage type, `new_unchecked` succeeds exactly when `new` does and builds the same slot |
| Fmt.DecimalRoundTrip | abi_stable_derive_lib/src/stable_abi.rs:376-379 | reading the decimal rendering of an index back gives that index |
| Fmt.DecimalInjective | abi_stable_derive_lib/src/stable_abi.rs:376-379 | distinct indices render differently |
| Fmt.UsizeDecimalLength | abi_stable_derive_lib/src/stable_abi.rs:372-381 | a `usize` renders in at most 20 digits |
| Fmt.ArrayString.Clear | abi_stable_derive_lib/src/stable_abi.rs:375 | `buffer.clear()` empties the buffer and keeps its capacity |
| Fmt.ArrayString.TryPushStr | abi_stable_derive_lib/src/stable_abi.rs:376-381 | a push succeeds iff the string fits in the remaining capacity; a push that does not fit leaves the buffer unchanged |
| Fmt.ArrayString.WriteFmt | abi_stable_derive_lib/src/stable_abi.rs:376-381 | `write!` appends the pieces up to the first one that does not fit, and reports success iff all were written |
| Fmt.AllPiecesWritten | abi_stable_derive_lib/src/stable_abi.rs:376-381 | when all the pieces together fit in the buffer, `write!` writes all of them |
| StableAbi.SubFieldCount | abi_stable_derive_lib/src/stable_abi.rs:372-403 | the sub-fields of a field number exactly one per parameter and per return of each of its function pointers |
| StableAbi.SubFieldAt | abi_stable_derive_lib/src/stable_abi.rs:372-403 | entry i of function k (params first, then returns) is the sub-field just after the entries of the earlier functions, named `fn_k_p_i` for a param or `fn_k_returns` for a return, with that entry's lifetimes and type, and always the `StableAbi` bound as its flavour |
| StableAbi.SubFieldNameRoundTrip | abi_stable_derive_lib/src/stable_abi.rs:375-382 | a parameter sub-field name reads back as its (function, parameter) indices; a return name reads back as its function index |
| StableAbi.ParamSubFieldNamesDistinct | abi_stable_derive_lib/src/stable_abi.rs:373-382 | distinct (function, parameter) pairs get distinct sub-field names |
| StableAbi.WriteSubFieldName | abi_stable_derive_lib/src/stable_abi.rs:375-382 | clearing the 64-byte buffer and writing `fn_{fn_i}_` then `p_{i}` or `returns` leaves exactly the sub-field name in the buffer, never a truncated one |
| StableAbi.TokenizeFnSubFields | abi_stable_derive_lib/src/stable_abi.rs:374-403 | the inner loop over one function pointer's params and returns emits exactly that function's sub-fields, `FnSubFields` |
| StableAbi.TokenizeSubFields | abi_stable_derive_lib/src/stable_abi.rs:369-406 | the nested loops over function pointers and their entries, with the reused buffer, emit exactly the sub-fields `SubFieldsOf` describes |
| StableAbi.FieldLayouts | abi_stable_derive_lib/src/stable_abi.rs:325-353 | one layout per declared field, in order, with the field's own type and lifetimes |
| StableAbi.VariantLayouts | abi_stable_derive_lib/src/stable_abi.rs:279-291 | one entry per declared variant, in order, with the variant's name and one field layout per declared field |
| StableAbi.FieldLayoutsAt | abi_stable_derive_lib/src/stable_abi.rs:325-353 | there is one field layout per declared field, in order. Its name is the configured rename if there is one, otherwise the identifier. Its flavour is the opaque-field bound iff the field is marked opaque. Its type and sub-fields are the field's |
| StableAbi.FieldsTokenizer | abi_stable_derive_lib/src/stable_abi.rs:319-411 | the per-field loop emits exactly the field layouts of the declared fields, in order |
| StableAbi.VariantsTokenizer | abi_stable_derive_lib/src/stable_abi.rs:273-293 | the per-variant loop emits one entry per declared variant, in order. Each entry has the variant's name and its own fields |
| StableAbi.DeriveAccepts | abi_stable_derive_lib/src/stable_abi.rs:62-135 | the derive produces an impl iff one of two things holds: the type is not transparent and is not an enum prefix type; or it is a transparent non-prefix struct with at least one field |
| StableAbi.DeriveRejects | abi_stable_derive_lib/src/stable_abi.rs:96-135 | these combinations are rejected with their own panic: transparent enums (with or without a prefix), enum prefix types and transparent prefix types. A transparent type without a first field fails on the assertion slice first. No impl is produced in any of these cases |
| StableAbi.DeriveShape | abi_stable_derive_lib/src/stable_abi.rs:62-111 | the accepted shapes: `Struct` over variant 0's fields; `Enum` with one entry per declared variant, in order; `ReprTransparent` of the first field's type; `PrefixType` whose `last_prefix_field` is the configured first suffix field and whose fields are all the struct's fields |
| StableAbi.ZeroSizedAssertions | abi_stable_derive_lib/src/stable_abi.rs:121-135 | a transparent type gets one zero-size assertion for each field after the first, in order; a non-transparent type gets none |
| StableAbi.ReprTransparentAssertions | abi_stable_derive_lib/src/stable_abi.rs:121-135 | a non-transparent type gets no zero-size assertion; a transparent one panics when variant 0 has no field, and otherwise gets one assertion per field after the first, with that field's type, in order |
| StableAbi.EmitReprTransparentAssertions | abi_stable_derive_lib/src/stable_abi.rs:121-135 | the assertion loop emits exactly the types of the fields after the first; it panics when the first variant has no field |
| StableAbi.TypeParamsForGenerics | abi_stable_derive_lib/src/stable_abi.rs:144-145 | the filter keeps no more parameters than are declared, and none of them is unconstrained |
| StableAbi.TypeParamsForGenericsFilter | abi_stable_derive_lib/src/stable_abi.rs:144-145 | the type-parameter filter distributes over concatenation, so it preserves declaration order |
| StableAbi.TypeParamsForGenericsKeeps | abi_stable_derive_lib/src/stable_abi.rs:144-145 | a type parameter is kept iff it is declared and not unconstrained |
| StableAbi.DeriveGenerics | abi_stable_derive_lib/src/stable_abi.rs:140-145 | the generics descriptor lists all lifetimes and const params. It lists exactly the type params that are not unconstrained |
| StableAbi.StaticEquivalentArgs | abi_stable_derive_lib/src/stable_abi.rs:149-164 | `StaticEquivalent` takes one argument per declared lifetime, type param and const param |
| StableAbi.StaticEquivalentShape | abi_stable_derive_lib/src/stable_abi.rs:149-164 | `StaticEquivalent` keeps the arity: each lifetime becomes `'static`; an unconstrained type param becomes its configured equivalent, or `()` if none is given; any other `T` becomes `StaticEquivalent<T>`; the const params follow unchanged |
| StableAbi.TypeParamsStatic | abi_stable_derive_lib/src/stable_abi.rs:150-163 | the loop over type params emits one `StaticEquivalent` argument per type param, in order |
| StableAbi.AssociatedKind | abi_stable_derive_lib/src/stable_abi.rs:40-43 | `Kind` is the prefix kind iff a prefix is configured |
| StableAbi.ImplName | abi_stable_derive_lib/src/stable_abi.rs:45-48 | the impl is for the declared type, or for the prefix struct when a prefix is configured |
| StableAbi.DeriveKind | abi_stable_derive_lib/src/stable_abi.rs:40-48 | `Kind` is the prefix kind iff a prefix is configured; the impl is then for the prefix struct, otherwise for the declared type; the layout keeps the declared name |
| StableAbi.Derive | abi_stable_derive_lib/src/stable_abi.rs:188-236 | an impl carries the data shape that `DataOf` selects, and its `Kind` is the prefix kind iff a prefix is configured |
| StableAbi.EmitDerive | abi_stable_derive_lib/src/stable_abi.rs:28-245 | assembling the impl from the tokenizer loops gives exactly `Derive`, panics included. The zero-size assertions are evaluated before the data shape |

## Left out

- Token-stream construction (`syn`, `quote`, `proc_macro2`, `to_stream!`, `surround`, `ToTokenFnMut`): the output is an abstract `SharedStableAbiImpl` value, not tokens.
- `parse_attrs_for_stable_abi`, `DataStructure::new`, `prefix_type_tokenizer` and `lifetime_refs_tokenizer` are not part of this model. Their results are inputs: the declaration, the options, and each entry's lifetime references. Because `prefix_type_tokenizer` is left out, its own checks and its output for prefix types are left out too.
- The compile environment: `env!("CARGO_PKG_NAME")`, `file!()`, `line!()`, `package_version_strings!`, the generated module name, the `use crate as abi_stable` switch, the where-clause bounds (`stable_abi_bounded`, `extra_bounds`), `IsNonZeroType` and the empty `phantom_fields`.
- `debug_print`, which panics with the token dump. It is a diagnostic side channel.
- `ManuallyDrop` and the aliasing of the union's raw and typed views. The slot is modelled as `Uninit | Holds(v)`.
- The Rust compiler's own `size_of`/`align_of` for `T`. It is a given `Layout`.
- `ElementLayout` fixes `u64` at 8-byte alignment. Some 32-bit targets align `u64` to 4 bytes.
- A transparent derive with no fields also panics in the `fields[0]` index of the data shape. The assertions are evaluated first, so only their panic (`IndexOutOfBounds`) is modelled.
- Which of a derive's panics fires when several could is modelled only as far as the order in which the impl's parts are generated.
- `TokenizeSubFields`, `FieldsTokenizer`, `VariantsTokenizer`, `EmitDerive`: they require every function-pointer index to fit in a 64-bit `usize` (`UsizeIndexed`). A Rust `Vec` cannot be longer, so this excludes no real input.
- String lengths are counted in characters, whereas `ArrayString` counts UTF-8 bytes. The derive writes only ASCII into its buffer, so the two agree on every name it builds.
- `abi_stable/src/std_types.rs` holds only module declarations.
- The comparison of two layouts is not part of this model.
