/**
 * The base62 digit codec of Sid.cs and the digit sequences built on it.
 * Digit values 0-61 map to '0'-'9', 'A'-'Z', 'a'-'z' in that order.
 */
module Base62 {
  import opened Results
  import opened Ordinal


  predicate IsBase62Char(c: char)
  {
    '0' <= c <= '9' || 'A' <= c <= 'Z' || 'a' <= c <= 'z'
  }

  predicate IsDigit(d: int)
  {
    0 <= d < 62
  }

  predicate IsDigitSeq(ds: seq<int>)
  {
    forall i :: 0 <= i < |ds| ==> IsDigit(ds[i])
  }

  /** `EncodeDigit`: every callsite in Sid.cs passes a value in [0, 61]. */
  function EncodeDigit(d: int): (c: char)
    requires IsDigit(d)
    ensures IsBase62Char(c)
  {
    if d < 10 then ('0' as int + d) as char
    else if d < 36 then ('A' as int + (d - 10)) as char
    else ('a' as int + (d - 36)) as char
  }

  /** `DecodeDigit`: the exception for a character outside the alphabet is `Err(c)`. */
  function DecodeDigit(c: char): (r: Result<int, char>)
    ensures r.Ok? <==> IsBase62Char(c)
    ensures r.Ok? ==> IsDigit(r.value)
    ensures r.Err? ==> r.error == c
  {
    if '0' <= c <= '9' then Ok(c as int - '0' as int)
    else if 'A' <= c <= 'Z' then Ok(10 + (c as int - 'A' as int))
    else if 'a' <= c <= 'z' then Ok(36 + (c as int - 'a' as int))
    else Err(c)
  }

  lemma EncodeDecodeDigit(c: char)
    requires IsBase62Char(c)
    ensures EncodeDigit(DecodeDigit(c).value) == c
  {
  }

  lemma DecodeEncodeDigit(d: int)
    requires IsDigit(d)
    ensures DecodeDigit(EncodeDigit(d)) == Ok(d)
  {
  }

  /** The alphabet is listed in ascending character order, so encoding preserves the order of digits. */
  lemma EncodeDigitMonotonic(d1: int, d2: int)
    requires IsDigit(d1) && IsDigit(d2)
    ensures d1 < d2 <==> EncodeDigit(d1) < EncodeDigit(d2)
  {
  }

  function Pow62(n: nat): (r: nat)
    ensures r > 0
  {
    if n == 0 then 1 else 62 * Pow62(n - 1)
  }

  lemma Pow62Values()
    ensures Pow62(2) == 3844
    ensures Pow62(6) == 56800235584
    ensures Pow62(7) == 3521614606208
  {
    assert Pow62(1) == 62;
    assert Pow62(2) == 3844;
    assert Pow62(3) == 238328;
    assert Pow62(4) == 14776336;
    assert Pow62(5) == 916132832;
    assert Pow62(6) == 56800235584;
  }

  /** The numeric value of a digit sequence, most significant digit first. */
  function ValueOf(ds: seq<int>): (v: int)
  {
    if ds == [] then 0 else ValueOf(ds[..|ds| - 1]) * 62 + ds[|ds| - 1]
  }

  /**
   * The `width` least significant base62 digits of `v`, most significant
   * first, with leading zero digits: the fixed-width encoding.
   */
  function FixedDigits(v: nat, width: nat): (ds: seq<int>)
    ensures |ds| == width && IsDigitSeq(ds)
  {
    if width == 0 then [] else FixedDigits(v / 62, width - 1) + [v % 62]
  }

  /**
   * The shortest base62 representation of `v`, most significant first, and
   * empty for 0: the digits a loop `while v > 0 { ...v % 62...; v /= 62 }`
   * produces.
   */
  function Digits(v: nat): (ds: seq<int>)
    ensures IsDigitSeq(ds)
  {
    if v == 0 then [] else Digits(v / 62) + [v % 62]
  }

  function EncodeDigits(ds: seq<int>): (s: string)
    requires IsDigitSeq(ds)
    ensures |s| == |ds|
    ensures forall i :: 0 <= i < |s| ==> IsBase62Char(s[i])
  {
    seq(|ds|, i requires 0 <= i < |ds| => EncodeDigit(ds[i]))
  }

  /**
   * Left-to-right accumulation `v := v * 62 + DecodeDigit(c)`, failing with
   * the first character that is not a base62 digit.
   */
  function DecodeDigits(s: string): (r: Result<nat, char>)
    ensures r.Ok? <==> forall i :: 0 <= i < |s| ==> IsBase62Char(s[i])
    ensures r.Ok? ==> r.value < Pow62(|s|)
  {
    if s == [] then Ok(0)
    else
      match DecodeDigits(s[..|s| - 1])
      case Err(c) => Err(c)
      case Ok(high) =>
        match DecodeDigit(s[|s| - 1])
        case Err(c) => Err(c)
        case Ok(d) =>
          assert high * 62 + d < Pow62(|s|) by {
            assert high <= Pow62(|s| - 1) - 1;
            assert high * 62 <= Pow62(|s|) - 62;
          }
          Ok(high * 62 + d)
  }

  /**
   * One step of a left-to-right decoding loop: after the first `k` characters
   * decoded to `v`, the next one either extends the value or is the error
   * the whole string fails with.
   */
  lemma DecodeStep(s: string, k: nat, v: nat)
    requires k < |s| && DecodeDigits(s[..k]) == Ok(v)
    ensures IsBase62Char(s[k]) ==> DecodeDigits(s[..k + 1]) == Ok(v * 62 + DecodeDigit(s[k]).value)
    ensures !IsBase62Char(s[k]) ==> DecodeDigits(s) == Err(s[k])
  {
    if IsBase62Char(s[k]) {
      DecodeExtend(s[..k + 1], s[..k], s[k], v);
    } else {
      DecodeStopsAt(s, k);
    }
  }

  lemma DecodeExtend(t: string, init: string, c: char, v: nat)
    requires t == init + [c] && DecodeDigits(init) == Ok(v) && IsBase62Char(c)
    ensures DecodeDigits(t) == Ok(v * 62 + DecodeDigit(c).value)
  {
    assert t[..|t| - 1] == init && t[|t| - 1] == c;
  }

  /** Decoding fails with the first character outside the alphabet. */
  lemma {:induction false} DecodeStopsAt(s: string, k: nat)
    requires k < |s| && DecodeDigits(s[..k]).Ok? && !IsBase62Char(s[k])
    ensures DecodeDigits(s) == Err(s[k])
    decreases |s|
  {
    var init := s[..|s| - 1];
    if k < |s| - 1 {
      assert init[..k] == s[..k] && init[k] == s[k];
      DecodeStopsAt(init, k);
    } else {
      assert init == s[..k];
    }
  }

  // ---- arithmetic helpers --------------------------------------------------

  lemma MulAtLeast(m: int, k: int)
    requires m > 0 && k >= 1
    ensures m * k >= m
  {
    var j := k - 1;
    assert m * k == m * j + m;
  }

  /** Division and remainder are determined by any decomposition `v == m * a + b` with `0 <= b < m`. */
  lemma DivModUnique(v: int, m: int, a: int, b: int)
    requires m > 0 && 0 <= b < m && v == m * a + b
    ensures v / m == a && v % m == b
  {
    var q, r := v / m, v % m;
    assert v == m * q + r;
    var k := a - q;
    assert m * k == r - b by {
      assert m * a == m * q + m * k;
    }
    if k >= 1 {
      MulAtLeast(m, k);
    } else if k <= -1 {
      assert m * (-k) == -(m * k);
      MulAtLeast(m, -k);
    }
  }

  lemma DivMul(v: nat, p: nat)
    requires p > 0
    ensures v / 62 < p <==> v < 62 * p
  {
    assert v == 62 * (v / 62) + v % 62;
  }

  /**
   * Splitting `v` into its last digit and the rest: `v == 62 * (p * a + b) + r`
   * with `b < p` and `r < 62`.
   */
  lemma SplitLow(v: nat, p: nat)
    requires p > 0
    ensures v / 62 / p == v / (62 * p)
    ensures (v / 62) % p * 62 + v % 62 == v % (62 * p)
  {
    var q, r := v / 62, v % 62;
    var a, b := q / p, q % p;
    assert v == 62 * q + r;
    assert q == p * a + b;
    assert 62 * q == (62 * p) * a + 62 * b by {
      assert 62 * (p * a) == (62 * p) * a;
    }
    assert 62 * b + r < 62 * p;
    DivModUnique(v, 62 * p, a, 62 * b + r);
  }

  // ---- digit sequences -----------------------------------------------------

  /** The fixed-width encoding holds `v` modulo 62^width. */
  lemma {:induction false} FixedDigitsValue(v: nat, width: nat)
    ensures ValueOf(FixedDigits(v, width)) == v % Pow62(width)
  {
    if width > 0 {
      var ds := FixedDigits(v, width);
      assert ds[..width - 1] == FixedDigits(v / 62, width - 1);
      FixedDigitsValue(v / 62, width - 1);
      SplitLow(v, Pow62(width - 1));
    }
  }

  /** Prepending the next more significant digit widens the encoding by one. */
  lemma {:induction false} FixedDigitsFront(v: nat, width: nat)
    ensures FixedDigits(v, width + 1) == [v / Pow62(width) % 62] + FixedDigits(v, width)
  {
    if width > 0 {
      FixedDigitsFront(v / 62, width - 1);
      SplitLow(v, Pow62(width - 1));
    }
  }

  /** The shortest representation is the fixed-width encoding at its own length. */
  lemma {:induction false} DigitsAreFixed(v: nat)
    ensures Digits(v) == FixedDigits(v, |Digits(v)|)
  {
    if v > 0 {
      DigitsAreFixed(v / 62);
    }
  }

  /** `v` has at most `width` significant digits exactly when it is below 62^width. */
  lemma {:induction false} DigitsLength(v: nat, width: nat)
    ensures |Digits(v)| <= width <==> v < Pow62(width)
    decreases v
  {
    if v > 0 {
      if width == 0 {
        assert |Digits(v)| >= 1;
      } else {
        DigitsLength(v / 62, width - 1);
        DivMul(v, Pow62(width - 1));
      }
    }
  }

  lemma {:induction false} EncodeDigitsSnoc(ds: seq<int>, d: int)
    requires IsDigitSeq(ds) && IsDigit(d)
    ensures IsDigitSeq(ds + [d])
    ensures EncodeDigits(ds + [d]) == EncodeDigits(ds) + [EncodeDigit(d)]
  {
    assert IsDigitSeq(ds + [d]) by {
      forall i | 0 <= i < |ds + [d]| ensures IsDigit((ds + [d])[i]) {
        if i < |ds| { assert (ds + [d])[i] == ds[i]; }
      }
    }
  }

  /** Decoding undoes encoding: the round trip yields the sequence's value. */
  lemma {:induction false} DecodeEncode(ds: seq<int>)
    requires IsDigitSeq(ds)
    ensures DecodeDigits(EncodeDigits(ds)) == Ok(ValueOf(ds))
  {
    if ds != [] {
      var init := ds[..|ds| - 1];
      var last := ds[|ds| - 1];
      assert ds == init + [last];
      EncodeDigitsSnoc(init, last);
      var s := EncodeDigits(ds);
      assert s[..|s| - 1] == EncodeDigits(init);
      DecodeEncode(init);
      DecodeEncodeDigit(last);
    }
  }

  lemma FixedRoundTrip(v: nat, width: nat)
    ensures DecodeDigits(EncodeDigits(FixedDigits(v, width))) == Ok(v % Pow62(width))
  {
    DecodeEncode(FixedDigits(v, width));
    FixedDigitsValue(v, width);
  }

  /** Encoding undoes decoding: a string that decodes is the fixed-width encoding of its value. */
  lemma {:induction false} EncodeDecode(s: string)
    requires DecodeDigits(s).Ok?
    ensures s == EncodeDigits(FixedDigits(DecodeDigits(s).value, |s|))
  {
    if s != [] {
      var init := s[..|s| - 1];
      var high := DecodeDigits(init).value;
      var d := DecodeDigit(s[|s| - 1]).value;
      var v := DecodeDigits(s).value;
      assert v == high * 62 + d;
      assert v / 62 == high && v % 62 == d;
      EncodeDecode(init);
      EncodeDigitsSnoc(FixedDigits(high, |s| - 1), d);
      assert s == init + [s[|s| - 1]];
    }
  }

  /** Fixed-width encodings of different values sort in the order of the values. */
  lemma {:induction false} FixedOrder(v1: nat, v2: nat, width: nat)
    requires v1 < v2 < Pow62(width)
    ensures OrdinalLess(EncodeDigits(FixedDigits(v1, width)), EncodeDigits(FixedDigits(v2, width)))
  {
    assert width > 0;
    var q1, q2 := v1 / 62, v2 / 62;
    var d1, d2 := v1 % 62, v2 % 62;
    DivMul(v2, Pow62(width - 1));
    var e1, e2 := EncodeDigits(FixedDigits(q1, width - 1)), EncodeDigits(FixedDigits(q2, width - 1));
    EncodeDigitsSnoc(FixedDigits(q1, width - 1), d1);
    EncodeDigitsSnoc(FixedDigits(q2, width - 1), d2);
    if q1 < q2 {
      FixedOrder(q1, q2, width - 1);
      AppendSameLength(e1, e2, [EncodeDigit(d1)], [EncodeDigit(d2)]);
    } else {
      assert q1 == q2 && d1 < d2;
      EncodeDigitMonotonic(d1, d2);
      CommonPrefix(e1, [EncodeDigit(d1)], [EncodeDigit(d2)]);
    }
  }
}
