/**
  The two pieces of `core::fmt` / `arrayvec` behaviour the derive relies on
  when it names function-pointer sub-fields: the decimal rendering of a
  `usize`, and writing formatted pieces into a fixed-capacity
  `ArrayString`.
*/
module Fmt {

  /** One more than the largest `usize` on a 64-bit host. */
  const UsizeLimit: nat := 0x1_0000_0000_0000_0000

  predicate IsDigit(c: char)
  {
    '0' <= c <= '9'
  }

  predicate AllDigits(s: string)
  {
    forall i :: 0 <= i < |s| ==> IsDigit(s[i])
  }

  function DigitChar(d: nat): (c: char)
    requires d < 10
    ensures IsDigit(c)
  {
    ('0' as int + d) as char
  }

  function DigitValue(c: char): nat
    requires IsDigit(c)
  {
    (c - '0') as nat
  }

  /** The `Display` rendering of an unsigned integer: its decimal digits, no leading zero. */
  function Decimal(n: nat): (s: string)
    ensures |s| >= 1 && AllDigits(s)
    ensures s[0] == '0' ==> n == 0
  {
    if n < 10 then [DigitChar(n)] else Decimal(n / 10) + [DigitChar(n % 10)]
  }

  /** The number a string of decimal digits denotes. */
  function DigitsValue(s: string): nat
    requires AllDigits(s)
  {
    if s == [] then 0 else DigitsValue(s[..|s| - 1]) * 10 + DigitValue(s[|s| - 1])
  }

  /** Reading back the rendering of `n` gives `n`. */
  lemma {:induction false} DecimalRoundTrip(n: nat)
    ensures DigitsValue(Decimal(n)) == n
  {
    var s := Decimal(n);
    if n >= 10 {
      DecimalRoundTrip(n / 10);
      assert s == Decimal(n / 10) + [DigitChar(n % 10)];
      assert s[..|s| - 1] == Decimal(n / 10);
      assert DigitValue(s[|s| - 1]) == n % 10;
      assert n == (n / 10) * 10 + n % 10;
    }
  }

  /** Distinct numbers render differently. */
  lemma DecimalInjective(a: nat, b: nat)
    requires Decimal(a) == Decimal(b)
    ensures a == b
  {
    DecimalRoundTrip(a);
    DecimalRoundTrip(b);
  }

  function Pow10(k: nat): (r: nat)
    ensures r >= 1
  {
    if k == 0 then 1 else 10 * Pow10(k - 1)
  }

  /** A number below `10^k` (with `k >= 1`) renders in at most `k` digits. */
  lemma {:induction false} DecimalLength(n: nat, k: nat)
    requires k >= 1 && n < Pow10(k)
    ensures |Decimal(n)| <= k
  {
    if n >= 10 {
      assert k >= 2;
      DecimalLength(n / 10, k - 1);
    }
  }

  /** A `usize` renders in at most 20 digits. */
  lemma UsizeDecimalLength(n: nat)
    requires n < UsizeLimit
    ensures |Decimal(n)| <= 20
  {
    assert Pow10(1) == 10;
    assert Pow10(2) == 100;
    assert Pow10(3) == 1000;
    assert Pow10(4) == 10000;
    assert Pow10(5) == 100000;
    assert Pow10(6) == 1000000;
    assert Pow10(7) == 10000000;
    assert Pow10(8) == 100000000;
    assert Pow10(9) == 1000000000;
    assert Pow10(10) == 10000000000;
    assert Pow10(11) == 100000000000;
    assert Pow10(12) == 1000000000000;
    assert Pow10(13) == 10000000000000;
    assert Pow10(14) == 100000000000000;
    assert Pow10(15) == 1000000000000000;
    assert Pow10(16) == 10000000000000000;
    assert Pow10(17) == 100000000000000000;
    assert Pow10(18) == 1000000000000000000;
    assert Pow10(19) == 10000000000000000000;
    assert Pow10(20) == 100000000000000000000;
    DecimalLength(n, 20);
  }

  function Concat(pieces: seq<string>): (s: string)
  {
    if pieces == [] then [] else Concat(pieces[..|pieces| - 1]) + pieces[|pieces| - 1]
  }

  /**
    Where `core::fmt::write`, having pushed `pieces[..i]` into a buffer of
    `capacity` bytes that now holds `used`, stops: at the first piece that
    does not fit whole, or at the end.
  */
  function StopIndex(used: nat, pieces: seq<string>, i: nat, capacity: nat): (k: nat)
    requires i <= |pieces|
    ensures i <= k <= |pieces|
    decreases |pieces| - i
  {
    if i == |pieces| || used + |pieces[i]| > capacity then i
    else StopIndex(used + |pieces[i]|, pieces, i + 1, capacity)
  }

  /** How many of `pieces` `core::fmt::write` pushes into a buffer already holding `used` bytes. */
  function PiecesWritten(used: nat, pieces: seq<string>, capacity: nat): (n: nat)
    ensures n <= |pieces|
  {
    StopIndex(used, pieces, 0, capacity)
  }

  /**
    `ArrayString<[u8; N]>`: a string buffer of fixed capacity. A push that
    would not fit is refused and leaves the buffer as it was.
  */
  class ArrayString {
    const capacity: nat
    var text: string

    ghost predicate Valid()
      reads this
    {
      |text| <= capacity
    }

    constructor (capacity: nat)
      ensures Valid() && this.capacity == capacity && text == []
    {
      this.capacity := capacity;
      text := [];
    }

    /** `ArrayString::clear`. */
    method Clear()
      requires Valid()
      modifies this
      ensures Valid() && text == []
    {
      text := [];
    }

    /** `ArrayString::try_push_str`, which the `fmt::Write` impl calls for each piece. */
    method TryPushStr(s: string) returns (ok: bool)
      requires Valid()
      modifies this
      ensures Valid()
      ensures ok <==> |old(text)| + |s| <= capacity
      ensures text == if ok then old(text) + s else old(text)
    {
      ok := |text| + |s| <= capacity;
      if ok {
        text := text + s;
      }
    }

    /**
      `write!(buffer, ...)`: the formatted pieces are pushed one by one and
      writing stops at the first piece that is refused.
    */
    method WriteFmt(pieces: seq<string>) returns (ok: bool)
      requires Valid()
      modifies this
      ensures Valid()
      ensures var n := PiecesWritten(|old(text)|, pieces, capacity);
        text == old(text) + Concat(pieces[..n]) && (ok <==> n == |pieces|)
    {
      ghost var start := text;
      ghost var n := PiecesWritten(|start|, pieces, capacity);
      var i := 0;
      while i < |pieces|
        invariant Valid()
        invariant 0 <= i <= n
        invariant text == start + Concat(pieces[..i])
        invariant StopIndex(|text|, pieces, i, capacity) == n
      {
        ConcatSnoc(pieces, i);
        var pushed := TryPushStr(pieces[i]);
        if !pushed {
          assert n == i;
          return false;
        }
        i := i + 1;
      }
      ok := true;
    }
  }

  lemma ConcatSnoc(pieces: seq<string>, i: nat)
    requires i < |pieces|
    ensures Concat(pieces[..i + 1]) == Concat(pieces[..i]) + pieces[i]
  {
    assert pieces[..i + 1][..i] == pieces[..i];
  }

  lemma ConcatSmall(a: string, b: string, c: string)
    ensures Concat([a]) == a
    ensures Concat([a, b]) == a + b
    ensures Concat([a, b, c]) == a + b + c
  {
    assert [a, b, c][..2] == [a, b];
    assert [a, b][..1] == [a];
    assert [a][..0] == [];
  }

  /** When the pieces fit together, `write!` pushes all of them. */
  lemma AllPiecesWritten(used: nat, pieces: seq<string>, capacity: nat)
    requires used + |Concat(pieces)| <= capacity
    ensures PiecesWritten(used, pieces, capacity) == |pieces|
  {
    assert pieces[0..] == pieces;
    AllFromWritten(used, pieces, 0, capacity);
  }

  lemma {:induction false} AllFromWritten(used: nat, pieces: seq<string>, i: nat, capacity: nat)
    requires i <= |pieces| && used + |Concat(pieces[i..])| <= capacity
    ensures StopIndex(used, pieces, i, capacity) == |pieces|
    decreases |pieces| - i
  {
    if i < |pieces| {
      ConcatFront(pieces[i..]);
      assert pieces[i..][1..] == pieces[i + 1..];
      AllFromWritten(used + |pieces[i]|, pieces, i + 1, capacity);
    }
  }

  lemma {:induction false} ConcatFront(pieces: seq<string>)
    requires pieces != []
    ensures Concat(pieces) == pieces[0] + Concat(pieces[1..])
    decreases |pieces|
  {
    if |pieces| > 1 {
      ConcatFront(pieces[..|pieces| - 1]);
      assert pieces[..|pieces| - 1][1..] == pieces[1..][..|pieces[1..]| - 1];
    } else {
      assert pieces[..0] == [];
    }
  }
}
