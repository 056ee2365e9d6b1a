/**
 * The `Range` request header each part sends: `bytes=S-E`, a single
 * int-range of section 14.1.2 of RFC 9110, whose first-pos S and last-pos E
 * are both inclusive offsets into the object. The header is written by
 * Rust's `format!("bytes={}-{}", ..)`; the object store reads it back.
 */
module RangeHeader {
  import opened Wrappers

  /** An inclusive byte range `first ..= last` of one object. */
  datatype ByteRange = ByteRange(first: nat, last: nat)

  predicate IsDigit(c: char) {
    '0' <= c <= '9'
  }

  predicate AllDigits(s: string) {
    forall i :: 0 <= i < |s| ==> IsDigit(s[i])
  }

  function DigitChar(d: nat): (c: char)
    requires d < 10
    ensures IsDigit(c) && c as int - '0' as int == d
  {
    ('0' as int + d) as char
  }

  /** The decimal text of `n` as `{}` formats a `usize`: no sign, no leading zero. */
  function Decimal(n: nat): (s: string)
    ensures |s| > 0 && AllDigits(s)
    ensures |s| > 1 ==> s[0] != '0'
    decreases n
  {
    if n < 10 then [DigitChar(n)] else Decimal(n / 10) + [DigitChar(n % 10)]
  }

  /** The number a string of decimal digits denotes (the empty string denotes 0). */
  function ValueOf(s: string): nat
    requires AllDigits(s)
  {
    if s == [] then 0 else ValueOf(s[..|s| - 1]) * 10 + (s[|s| - 1] as int - '0' as int)
  }

  /** Reading back the decimal text of `n` gives `n`. */
  lemma {:induction false} ValueOfDecimal(n: nat)
    ensures ValueOf(Decimal(n)) == n
  {
    if n >= 10 {
      var s := Decimal(n);
      assert s[..|s| - 1] == Decimal(n / 10);
      ValueOfDecimal(n / 10);
    }
  }

  /** The position of the first `c` in `s`, or `|s|` when there is none. */
  function Find(s: string, c: char): (i: nat)
    ensures i <= |s|
    ensures i < |s| ==> s[i] == c
    ensures forall k :: 0 <= k < i ==> s[k] != c
  {
    if s == [] then 0 else if s[0] == c then 0 else 1 + Find(s[1..], c)
  }

  /** The header text of src/s3.rs:75-79. */
  function Render(r: ByteRange): string {
    "bytes=" + Decimal(r.first) + "-" + Decimal(r.last)
  }

  /**
   * How the server reads a `bytes=S-E` header. Anything else, and a range
   * whose last-pos is below its first-pos (invalid by section 14.1.2 of
   * RFC 9110), is `None`.
   */
  function Parse(h: string): (r: Option<ByteRange>)
    ensures r.Some? ==> r.value.first <= r.value.last
  {
    if |h| < 6 || h[..6] != "bytes=" then None
    else
      var spec := h[6..];
      var dash := Find(spec, '-');
      if dash == |spec| then None
      else
        var a, b := spec[..dash], spec[dash + 1..];
        if a == [] || b == [] || !AllDigits(a) || !AllDigits(b) then None
        else if ValueOf(b) < ValueOf(a) then None
        else Some(ByteRange(ValueOf(a), ValueOf(b)))
  }

  /** A rendered range parses back to itself exactly when it is a valid range. */
  lemma ParseRender(r: ByteRange)
    ensures Parse(Render(r)) == if r.first <= r.last then Some(r) else None
  {
    var a, b := Decimal(r.first), Decimal(r.last);
    var h := Render(r);
    assert h[..6] == "bytes=";
    var spec := h[6..];
    assert spec == a + "-" + b;
    assert forall k :: 0 <= k < |a| ==> spec[k] == a[k] && IsDigit(a[k]);
    assert spec[|a|] == '-' && !IsDigit('-');
    assert Find(spec, '-') == |a|;
    assert spec[..|a|] == a;
    assert spec[|a| + 1..] == b;
    ValueOfDecimal(r.first);
    ValueOfDecimal(r.last);
  }
}
