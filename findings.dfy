/**
 * Two places where Sid.cs departs from the identifier format it is meant to
 * produce, each shown on the code as written together with the corrected
 * definition and the property it was meant to have.
 */
module Findings {
  import opened Results
  import opened Ordinal
  import opened Base62
  import opened Sids

  // ---- 1. The timestamp is not zero-padded ---------------------------------

  /**
   * As written, a timestamp below 62^6 leaves '\0' in the first timestamp
   * position, outside the alphabet, and `Parse` rejects the identifier.
   */
  lemma {:induction false} SmallTimestampUnparseable(prefix: string, timestamp: int, counter: nat, random: seq<int>)
    requires |random| == RandomCharCount && IsDigitSeq(random)
    requires timestamp < Pow62(TimestampCharCount - 1)
    ensures Layout(prefix, timestamp, counter, random).Ok?
    ensures Layout(prefix, timestamp, counter, random).value[|prefix|] == '\0'
    ensures Parsed(Some(Layout(prefix, timestamp, counter, random).value)) == Err(InvalidChar('\0'))
  {
    var ds := TimestampDigits(timestamp);
    if timestamp > 0 {
      DigitsLength(timestamp, TimestampCharCount - 1);
    }
    var s := Layout(prefix, timestamp, counter, random).value;
    var head := (prefix + Nuls(TimestampCharCount))[..|prefix| + TimestampCharCount - |ds|];
    assert s[|prefix|] == head[|prefix|] == '\0';
    var field := s[|prefix|..|prefix| + TimestampCharCount];
    assert field[0] == '\0' && field[..0] == [];
    DecodeStopsAt(field, 0);
  }

  /**
   * As written, a timestamp of 62^7 or more has more than 7 digits and the
   * extra ones overwrite the end of the prefix; a prefix whose last
   * character is not a base62 digit then does not survive.
   */
  lemma LargeTimestampOverwritesPrefix(prefix: string, timestamp: int, counter: nat, random: seq<int>)
    requires |random| == RandomCharCount && IsDigitSeq(random)
    requires Pow62(TimestampCharCount) <= timestamp < Pow62(|prefix| + TimestampCharCount)
    requires prefix != [] && !IsBase62Char(prefix[|prefix| - 1])
    ensures Layout(prefix, timestamp, counter, random).Ok?
    ensures Layout(prefix, timestamp, counter, random).value[..|prefix|] != prefix
  {
    var ds := TimestampDigits(timestamp);
    DigitsLength(timestamp, |prefix| + TimestampCharCount);
    DigitsLength(timestamp, TimestampCharCount);
    var s := Layout(prefix, timestamp, counter, random).value;
    var start := |prefix| + TimestampCharCount - |ds|;
    var head := (prefix + Nuls(TimestampCharCount))[..start];
    assert start < |prefix|;
    assert s[|prefix| - 1] == EncodeDigits(ds)[|prefix| - 1 - start];
    assert s[..|prefix|][|prefix| - 1] == s[|prefix| - 1];
  }

  /** As written, a timestamp with more digits than the prefix and the timestamp field hold makes `Create` throw. */
  lemma HugeTimestampThrows(prefix: string, timestamp: int, counter: nat, random: seq<int>)
    requires |random| == RandomCharCount && IsDigitSeq(random)
    requires Pow62(|prefix| + TimestampCharCount) <= timestamp
    ensures Layout(prefix, timestamp, counter, random) == Err(IndexOutOfRange)
  {
    DigitsLength(timestamp, |prefix| + TimestampCharCount);
  }

  /**
   * The intended layout: every one of the 7 timestamp positions written, so
   * the timestamp is zero-padded and, past 62^7, kept modulo 62^7 rather
   * than spilling into the prefix.
   */
  function PaddedLayout(prefix: string, timestamp: nat, counter: nat, random: seq<int>): (s: string)
    requires |random| == RandomCharCount && IsDigitSeq(random)
    ensures |s| == |prefix| + TotalCharCount && s[..|prefix|] == prefix
    ensures forall i :: |prefix| <= i < |s| ==> IsBase62Char(s[i])
  {
    var t := EncodeDigits(FixedDigits(timestamp, TimestampCharCount));
    var c := EncodeDigits(FixedDigits(counter, CounterCharCount));
    var r := EncodeDigits(random);
    var s := prefix + t + c + r;
    assert s[|prefix|..] == t + c + r;
    assert forall j :: 0 <= j < |t + c + r| ==> IsBase62Char((t + c + r)[j]);
    assert forall i :: |prefix| <= i < |s| ==> s[i] == s[|prefix|..][i - |prefix|];
    s
  }

  /** The four parts of a string laid out one after another. */
  lemma Parts(s: string, a: string, b: string, c: string, d: string)
    requires s == a + b + c + d
    ensures s[..|a|] == a && s[|a|..|a| + |b|] == b
    ensures s[|a| + |b|..|a| + |b| + |c|] == c && s[|a| + |b| + |c|..] == d
  {
  }

  // ---- 2. The length check uses the wrong constant -------------------------

  /**
   * As written, `Parse` compares the length with 14 rather than 23, so an
   * input of 14 to 22 characters gets a negative prefix length and fails on
   * an out-of-range read instead of with the "too short" error.
   */
  lemma ShortInputIndexOutOfRange(s: string)
    requires RandomCharCount <= |s| < TotalCharCount
    ensures Parsed(Some(s)) == Err(IndexOutOfRange)
  {
  }

  /**
   * `Parse` with the length check against the full 23 characters: "too
   * short" is then exactly the inputs under 23 characters, and no read falls
   * off the input.
   */
  function ParsedChecked(input: Option<string>): (r: Result<Sid, Error>)
    ensures r == Err(TooShort) <==> input.Some? && |input.value| < TotalCharCount
    ensures r != Err(IndexOutOfRange)
  {
    if input.Some? && |input.value| < TotalCharCount then Err(TooShort) else Parsed(input)
  }

  // ---- what the corrected definitions achieve ------------------------------

  /**
   * Every identifier of the intended layout parses back to its prefix, its
   * timestamp modulo 62^7, its counter modulo 62^2 and its random digits.
   */
  lemma PaddedRoundTrip(prefix: string, timestamp: nat, counter: nat, random: seq<int>)
    requires |random| == RandomCharCount && IsDigitSeq(random)
    ensures ParsedChecked(Some(PaddedLayout(prefix, timestamp, counter, random)))
            == Ok(Sid(prefix, timestamp % Pow62(TimestampCharCount), counter % Pow62(CounterCharCount), EncodeDigits(random)))
  {
    var t := EncodeDigits(FixedDigits(timestamp, TimestampCharCount));
    var c := EncodeDigits(FixedDigits(counter, CounterCharCount));
    var s := PaddedLayout(prefix, timestamp, counter, random);
    Parts(s, prefix, t, c, EncodeDigits(random));
    FixedRoundTrip(timestamp, TimestampCharCount);
    FixedRoundTrip(counter, CounterCharCount);
    ParsedFromFields(s, timestamp % Pow62(TimestampCharCount), counter % Pow62(CounterCharCount));
  }

  lemma ParsedFromFields(s: string, timestamp: nat, counter: nat)
    requires |s| >= TotalCharCount
    requires Field(s, |s| - TotalCharCount, TimestampCharCount) == Ok(timestamp)
    requires Field(s, |s| - TotalCharCount + TimestampCharCount, CounterCharCount) == Ok(counter)
    ensures Parsed(Some(s)) == Ok(Sid(s[..|s| - TotalCharCount], timestamp, counter,
                                      s[|s| - TotalCharCount + TimestampCharCount + CounterCharCount..]))
  {
  }

  /**
   * With a shared prefix and counters below 62^2, the ordinal order of
   * intended-layout identifiers is the order of (timestamp, counter).
   */
  lemma PaddedOrder(prefix: string, t1: nat, c1: nat, r1: seq<int>, t2: nat, c2: nat, r2: seq<int>)
    requires t1 < Pow62(TimestampCharCount) && t2 < Pow62(TimestampCharCount)
    requires c1 < Pow62(CounterCharCount) && c2 < Pow62(CounterCharCount)
    requires |r1| == RandomCharCount && IsDigitSeq(r1) && |r2| == RandomCharCount && IsDigitSeq(r2)
    ensures t1 < t2 || (t1 == t2 && c1 < c2) ==>
              OrdinalLess(PaddedLayout(prefix, t1, c1, r1), PaddedLayout(prefix, t2, c2, r2))
    ensures OrdinalLess(PaddedLayout(prefix, t1, c1, r1), PaddedLayout(prefix, t2, c2, r2)) ==>
              t1 < t2 || (t1 == t2 && c1 <= c2)
  {
    if t1 < t2 || (t1 == t2 && c1 < c2) {
      PaddedLess(prefix, t1, c1, r1, t2, c2, r2);
    }
    if t2 < t1 || (t2 == t1 && c2 < c1) {
      PaddedLess(prefix, t2, c2, r2, t1, c1, r1);
      Asymmetric(PaddedLayout(prefix, t2, c2, r2), PaddedLayout(prefix, t1, c1, r1));
    }
  }

  lemma PaddedLess(prefix: string, t1: nat, c1: nat, r1: seq<int>, t2: nat, c2: nat, r2: seq<int>)
    requires t1 < Pow62(TimestampCharCount) && t2 < Pow62(TimestampCharCount)
    requires c1 < Pow62(CounterCharCount) && c2 < Pow62(CounterCharCount)
    requires |r1| == RandomCharCount && IsDigitSeq(r1) && |r2| == RandomCharCount && IsDigitSeq(r2)
    requires t1 < t2 || (t1 == t2 && c1 < c2)
    ensures OrdinalLess(PaddedLayout(prefix, t1, c1, r1), PaddedLayout(prefix, t2, c2, r2))
  {
    var e1, e2 := EncodeDigits(FixedDigits(t1, TimestampCharCount)), EncodeDigits(FixedDigits(t2, TimestampCharCount));
    var f1, f2 := EncodeDigits(FixedDigits(c1, CounterCharCount)), EncodeDigits(FixedDigits(c2, CounterCharCount));
    var g1, g2 := EncodeDigits(r1), EncodeDigits(r2);
    assert PaddedLayout(prefix, t1, c1, r1) == prefix + (e1 + (f1 + g1));
    assert PaddedLayout(prefix, t2, c2, r2) == prefix + (e2 + (f2 + g2));
    if t1 < t2 {
      FixedOrder(t1, t2, TimestampCharCount);
      AppendSameLength(e1, e2, f1 + g1, f2 + g2);
    } else {
      FixedOrder(c1, c2, CounterCharCount);
      AppendSameLength(f1, f2, g1, g2);
      CommonPrefix(e1, f1 + g1, f2 + g2);
    }
    CommonPrefix(prefix, e1 + (f1 + g1), e2 + (f2 + g2));
  }
}
