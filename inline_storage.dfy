/**
  The closed family of inline-storage buffer types and the scratch slot that
  places a value of some type `T` inside one of them.

  A Rust type is seen here only through its layout: its size and its
  alignment in bytes. The buffer types are arrays of `u8`, `u32`, `u64` or
  `usize` and the `AlignToN` / `AlignToUsize` wrappers around them; the
  scratch slot is the union of "a `T`" and "the raw storage", built by
  constructors that refuse (panic) when `T` does not fit.
*/
module InlineStorage {
  import opened Wrappers

  /** `size_of` and `align_of` of a type. */
  datatype Layout = Layout(size: nat, align: nat)

  /** The `target_pointer_width` configurations `AlignToUsize` knows about. */
  datatype PointerWidth = W16 | W32 | W64 | W128

  function PointerBytes(w: PointerWidth): (r: nat)
  {
    match w
    case W16 => 2
    case W32 => 4
    case W64 => 8
    case W128 => 16
  }

  /** Element types of the arrays that implement `InlineStorage`. */
  datatype Element = U8 | U32 | U64 | Usize

  /** Storage types: `[elem; len]`, `AlignToN<inner>` and `AlignToUsize<inner>`. */
  datatype Storage =
    | Array(elem: Element, len: nat)
    | AlignTo(alignment: nat, inner: Storage)
    | AlignToUsize(inner: Storage)

  /** The `N` of the eight `AlignToN` wrappers that are declared. */
  const Alignments: set<nat> := {1, 2, 4, 8, 16, 32, 64, 128}

  /** The largest array length with an `InlineStorage` impl, per element type. */
  function MaxArrayLen(e: Element): nat
  {
    match e
    case U8 => 64
    case U32 => 48
    case U64 => 24
    case Usize => 48
  }

  /** Whether `InlineStorage` is implemented for a storage type. */
  predicate IsInlineStorage(s: Storage)
  {
    match s
    case Array(e, n) => n <= MaxArrayLen(e)
    case AlignTo(n, inner) => n in Alignments && IsInlineStorage(inner)
    case AlignToUsize(inner) => IsInlineStorage(inner)
  }

  predicate IsPow2(n: nat)
  {
    n == 1 || (n > 1 && n % 2 == 0 && IsPow2(n / 2))
  }

  function Max(a: nat, b: nat): nat
  {
    if a < b then b else a
  }

  /** The primitive element layouts (every primitive's size equals its alignment). */
  function ElementLayout(e: Element, w: PointerWidth): (r: Layout)
    ensures r.size == r.align && r.align >= 1
  {
    match e
    case U8 => Layout(1, 1)
    case U32 => Layout(4, 4)
    case U64 => Layout(8, 8)
    case Usize => Layout(PointerBytes(w), PointerBytes(w))
  }

  /** `n` rounded up to the next multiple of `a`. */
  function RoundUp(n: nat, a: nat): (r: nat)
    requires a >= 1
    ensures r % a == 0 && n <= r < n + a
  {
    var q := (n + a - 1) / a;
    MultipleMod(q, a);
    q * a
  }

  lemma {:induction false} MulAtLeast(d: int, a: int)
    requires d >= 1 && a >= 1
    ensures d * a >= a
  {
    if d > 1 {
      MulAtLeast(d - 1, a);
      assert d * a == (d - 1) * a + a;
    }
  }

  /** Quotient and remainder are unique. */
  lemma DivModUnique(x: int, a: int, q: int, r: int)
    requires a >= 1 && 0 <= r < a && x == q * a + r
    ensures x / a == q && x % a == r
  {
    var q', r' := x / a, x % a;
    assert x == q' * a + r';
    if q' > q {
      assert q' * a - q * a == (q' - q) * a;
      MulAtLeast(q' - q, a);
    } else if q' < q {
      assert q * a - q' * a == (q - q') * a;
      MulAtLeast(q - q', a);
    }
  }

  lemma MultipleMod(q: nat, a: nat)
    requires a >= 1
    ensures (q * a) % a == 0
    ensures (q * a) / a == q
  {
    DivModUnique(q * a, a, q, 0);
  }

  /**
    The layout Rust gives each storage type: an array is `len` elements
    back to back; a `#[repr(C, align(k))]` wrapper of one field raises the
    alignment to at least `k` and pads the size up to that alignment.
  */
  function StorageLayout(s: Storage, w: PointerWidth): (r: Layout)
    ensures r.align >= 1 && r.size % r.align == 0
  {
    match s
    case Array(e, n) =>
      var el := ElementLayout(e, w);
      MultipleMod(n, el.size);
      Layout(n * el.size, el.align)
    case AlignTo(k, inner) =>
      var il := StorageLayout(inner, w);
      var a := Max(k, il.align);
      Layout(RoundUp(il.size, a), a)
    case AlignToUsize(inner) =>
      var il := StorageLayout(inner, w);
      var a := Max(PointerBytes(w), il.align);
      Layout(RoundUp(il.size, a), a)
  }

  lemma SmallPowersOfTwo()
    ensures IsPow2(1) && IsPow2(2) && IsPow2(4) && IsPow2(8)
    ensures IsPow2(16) && IsPow2(32) && IsPow2(64) && IsPow2(128)
  {
  }

  /** Of two powers of two, the larger is a multiple of the smaller. */
  lemma {:induction false} Pow2Divides(a: nat, b: nat)
    requires IsPow2(a) && IsPow2(b) && a <= b
    ensures b % a == 0
  {
    if a > 1 {
      Pow2Divides(a / 2, b / 2);
      var k := (b / 2) / (a / 2);
      assert b / 2 == k * (a / 2);
      assert b == k * a;
      MultipleMod(k, a);
    }
  }

  /** Every inline-storage type is aligned to a power of two. */
  lemma {:induction false} StorageAlignIsPow2(s: Storage, w: PointerWidth)
    requires IsInlineStorage(s)
    ensures IsPow2(StorageLayout(s, w).align)
  {
    SmallPowersOfTwo();
    match s
    case Array(e, n) =>
    case AlignTo(k, inner) =>
      StorageAlignIsPow2(inner, w);
    case AlignToUsize(inner) =>
      StorageAlignIsPow2(inner, w);
  }

  /**
    `AlignToN<I>` is inline storage exactly when `N` is one of the declared
    alignments and `I` is inline storage; its alignment is then a multiple
    of `N` and it is at least as large as `I`.
  */
  lemma AlignToAlignment(k: nat, inner: Storage, w: PointerWidth)
    ensures IsInlineStorage(AlignTo(k, inner)) <==> k in Alignments && IsInlineStorage(inner)
    ensures IsInlineStorage(AlignTo(k, inner)) ==>
      var l := StorageLayout(AlignTo(k, inner), w);
      l.align % k == 0 && l.align >= k && l.size >= StorageLayout(inner, w).size
  {
    var il := StorageLayout(inner, w);
    var a := Max(k, il.align);
    assert StorageLayout(AlignTo(k, inner), w) == Layout(RoundUp(il.size, a), a);
    if IsInlineStorage(AlignTo(k, inner)) {
      RaisedAlignment(k, il.align, inner, w);
    }
  }

  /** Raising an inline-storage alignment `ia` to at least `k` gives a multiple of `k`. */
  lemma RaisedAlignment(k: nat, ia: nat, inner: Storage, w: PointerWidth)
    requires k in Alignments && IsInlineStorage(inner) && ia == StorageLayout(inner, w).align
    ensures Max(k, ia) % k == 0
  {
    if k < ia {
      SmallPowersOfTwo();
      StorageAlignIsPow2(inner, w);
      Pow2Divides(k, ia);
    } else {
      assert Max(k, ia) == k;
    }
  }

  /**
    `AlignToUsize<I>` is inline storage exactly when `I` is, and it is
    aligned to a multiple of the pointer size (16, 8, 4 or 2 bytes for
    128-, 64-, 32- and 16-bit pointers).
  */
  lemma AlignToUsizeAlignment(inner: Storage, w: PointerWidth)
    ensures IsInlineStorage(AlignToUsize(inner)) <==> IsInlineStorage(inner)
    ensures IsInlineStorage(AlignToUsize(inner)) ==>
      var l := StorageLayout(AlignToUsize(inner), w);
      l.align % PointerBytes(w) == 0 && l.align >= PointerBytes(w) && l.size >= StorageLayout(inner, w).size
  {
    var il := StorageLayout(inner, w);
    var a := Max(PointerBytes(w), il.align);
    assert StorageLayout(AlignToUsize(inner), w) == Layout(RoundUp(il.size, a), a);
    if IsInlineStorage(inner) {
      assert PointerBytes(w) in Alignments;
      RaisedAlignment(PointerBytes(w), il.align, inner, w);
    }
  }

  /**
    An array is inline storage only for the element types and lengths that
    have an impl, and then it holds at most that many elements.
  */
  lemma ArrayStorageBounds(e: Element, n: nat, w: PointerWidth)
    ensures IsInlineStorage(Array(e, n)) <==>
      (e == U8 && n <= 64) || (e == U32 && n <= 48) ||
      (e == U64 && n <= 24) || (e == Usize && n <= 48)
    ensures IsInlineStorage(Array(e, n)) ==>
      StorageLayout(Array(e, n), w).size <= MaxArrayLen(e) * ElementLayout(e, w).size
  {
    if IsInlineStorage(Array(e, n)) {
      MulMonotonic(n, MaxArrayLen(e), ElementLayout(e, w).size);
    }
  }

  lemma MulMonotonic(a: nat, b: nat, c: nat)
    requires a <= b
    ensures a * c <= b * c
  {
  }

  // ---------------------------------------------------------------------
  // The scratch slot.

  /** Which of the two assertions of the fit check failed. */
  datatype FitCheck = AlignmentCheck | SizeCheck

  /**
    The panic of the fit check: the assertion that failed and the two
    numbers its message prints (the storage's, then the value's).
  */
  datatype FitFailure = FitFailure(check: FitCheck, storage: nat, value: nat)

  /** `T` fits in `Inline`: no stricter alignment and no larger size. */
  predicate Fits(value: Layout, storage: Layout)
  {
    value.align <= storage.align && value.size <= storage.size
  }

  /**
    The runtime check `assert_fits_within_storage`: the alignment
    assertion first, then the size assertion; `None` when both pass.
  */
  function AssertFitsWithinStorage(value: Layout, storage: Layout): (r: Option<FitFailure>)
    ensures r.None? <==> Fits(value, storage)
    ensures value.align > storage.align ==>
      r == Some(FitFailure(AlignmentCheck, storage.align, value.align))
    ensures value.align <= storage.align && value.size > storage.size ==>
      r == Some(FitFailure(SizeCheck, storage.size, value.size))
  {
    if !(value.align <= storage.align) then
      Some(FitFailure(AlignmentCheck, storage.align, value.align))
    else if !(value.size <= storage.size) then
      Some(FitFailure(SizeCheck, storage.size, value.size))
    else
      None
  }

  /** The union's content: nothing written yet, or a value of type `T`. */
  datatype Slot<T> = Uninit | Holds(value: T)

  /** A scratch slot: the layouts of `T` and of the storage, and the content. */
  datatype ScratchSpace<T> = ScratchSpace(valueLayout: Layout, storage: Layout, slot: Slot<T>)

  /** `ScratchSpace::uninit`: an empty slot, after the fit check. */
  function ScratchUninit<T>(value: Layout, inline: Storage, w: PointerWidth)
    : (r: Result<ScratchSpace<T>, FitFailure>)
    requires IsInlineStorage(inline)
    ensures r.Ok? <==> Fits(value, StorageLayout(inline, w))
    ensures r.Ok? ==> r.value == ScratchSpace(value, StorageLayout(inline, w), Uninit)
    ensures r.Err? ==> Some(r.error) == AssertFitsWithinStorage(value, StorageLayout(inline, w))
  {
    var storage := StorageLayout(inline, w);
    match AssertFitsWithinStorage(value, storage)
    case Some(failure) => Err(failure)
    case None => Ok(ScratchSpace(value, storage, Uninit))
  }

  /** `ScratchSpace::new`: a slot holding `v`, after the fit check. */
  function ScratchNew<T>(value: Layout, v: T, inline: Storage, w: PointerWidth)
    : (r: Result<ScratchSpace<T>, FitFailure>)
    requires IsInlineStorage(inline)
    ensures r.Ok? <==> Fits(value, StorageLayout(inline, w))
    ensures r.Ok? ==> r.value == ScratchSpace(value, StorageLayout(inline, w), Holds(v))
    ensures r.Err? ==> Some(r.error) == AssertFitsWithinStorage(value, StorageLayout(inline, w))
  {
    var storage := StorageLayout(inline, w);
    match AssertFitsWithinStorage(value, storage)
    case Some(failure) => Err(failure)
    case None => Ok(ScratchSpace(value, storage, Holds(v)))
  }

  /** A failed compile-time evaluation of the constant fit check. */
  datatype ConstEvalError =
    | IndexOutOfBounds(check: FitCheck, index: nat, len: nat)
    | ConstPanic(failure: FitFailure)

  /** `cond as usize`. */
  function BoolAsUsize(b: bool): nat
  {
    if b then 1 else 0
  }

  /** Indexing the one-element array `[()]`: only index 0 is in bounds. */
  function IndexUnitArray(check: FitCheck, index: nat): Option<ConstEvalError>
  {
    if index < 1 then None else Some(IndexOutOfBounds(check, index, 1))
  }

  /**
    `assert_fits_within_storage_const`. Without the `rust_1_57` feature it
    indexes `[()]` with `(align_val > align_storage) as usize` and then with
    `(size_val > size_storage) as usize`, so the evaluation fails exactly
    when a comparison is true; with the feature it runs the same two
    assertions as the runtime check.
  */
  function AssertFitsConst(value: Layout, storage: Layout, rust157: bool): (r: Option<ConstEvalError>)
    ensures !rust157 && r.Some? ==> r.value.IndexOutOfBounds? && r.value.index == 1 && r.value.len == 1
    ensures rust157 && r.Some? ==> r.value.ConstPanic?
  {
    if !rust157 then
      var first := IndexUnitArray(AlignmentCheck, BoolAsUsize(value.align > storage.align));
      if first.Some? then first
      else IndexUnitArray(SizeCheck, BoolAsUsize(value.size > storage.size))
    else
      match AssertFitsWithinStorage(value, storage)
      case Some(failure) => Some(ConstPanic(failure))
      case None => None
  }

  /**
    Both forms of the constant check reject exactly the pairs the runtime
    check rejects, and name the same failing assertion.
  */
  lemma ConstCheckAgreesWithRuntime(value: Layout, storage: Layout, rust157: bool)
    ensures AssertFitsConst(value, storage, rust157).None? <==> Fits(value, storage)
    ensures !Fits(value, storage) ==>
      var c := AssertFitsConst(value, storage, rust157).value;
      var f := AssertFitsWithinStorage(value, storage).value;
      (if c.IndexOutOfBounds? then c.check else c.failure.check) == f.check
  {
  }

  /**
    `ScratchSpace::new_unchecked`: despite its name it still runs the
    constant fit check, and it accepts any `Inline` type, not only the
    inline-storage ones.
  */
  function ScratchNewUnchecked<T>(value: Layout, v: T, storage: Layout, rust157: bool)
    : (r: Result<ScratchSpace<T>, ConstEvalError>)
    ensures r.Ok? <==> Fits(value, storage)
    ensures r.Ok? ==> r.value == ScratchSpace(value, storage, Holds(v))
  {
    ConstCheckAgreesWithRuntime(value, storage, rust157);
    match AssertFitsConst(value, storage, rust157)
    case Some(e) => Err(e)
    case None => Ok(ScratchSpace(value, storage, Holds(v)))
  }

  /** On an inline-storage type `new_unchecked` builds exactly what `new` builds. */
  lemma NewUncheckedMatchesNew<T>(value: Layout, v: T, inline: Storage, w: PointerWidth, rust157: bool)
    requires IsInlineStorage(inline)
    ensures ScratchNewUnchecked(value, v, StorageLayout(inline, w), rust157).Ok?
        <==> ScratchNew(value, v, inline, w).Ok?
    ensures ScratchNew(value, v, inline, w).Ok? ==>
      ScratchNewUnchecked(value, v, StorageLayout(inline, w), rust157).value
        == ScratchNew(value, v, inline, w).value
  {
  }
}
