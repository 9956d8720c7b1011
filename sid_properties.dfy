/**
 * What `Create` and `Parse` of Sid.cs guarantee together, as written: the
 * shape of a generated identifier, the round trip and the ordering in the
 * timestamp range where the layout is the intended one, and exactly which
 * inputs `Parse` rejects.
 */
module SidProperties {
  import opened Results
  import opened Ordinal
  import opened Base62
  import opened Sids
  import opened Findings

  /**
   * Shape of a generated identifier: it exists exactly when the timestamp's
   * digits fit in front of the counter; it is then 23 characters longer
   * than the prefix, keeps the prefix whenever the timestamp has at most 7
   * digits, and ends with the counter modulo 62^2 in two digits followed by
   * the 14 random digits.
   */
  lemma LayoutShape(prefix: string, timestamp: int, counter: nat, random: seq<int>)
    requires |random| == RandomCharCount && IsDigitSeq(random)
    ensures Layout(prefix, timestamp, counter, random).Ok? <==> timestamp < Pow62(|prefix| + TimestampCharCount)
    ensures Layout(prefix, timestamp, counter, random).Ok? ==>
              var s := Layout(prefix, timestamp, counter, random).value;
              var c := |prefix| + TimestampCharCount;
              && |s| == |prefix| + TotalCharCount
              && DecodeDigits(s[c..c + CounterCharCount]) == Ok(counter % Pow62(CounterCharCount))
              && s[c + CounterCharCount..] == EncodeDigits(random)
    ensures timestamp < Pow62(TimestampCharCount) ==>
              Layout(prefix, timestamp, counter, random).Ok? &&
              Layout(prefix, timestamp, counter, random).value[..|prefix|] == prefix
  {
    var ds := TimestampDigits(timestamp);
    if timestamp > 0 {
      DigitsLength(timestamp, |prefix| + TimestampCharCount);
      DigitsLength(timestamp, TimestampCharCount);
    }
    if |ds| <= |prefix| + TimestampCharCount {
      var head := (prefix + Nuls(TimestampCharCount))[..|prefix| + TimestampCharCount - |ds|];
      var t, cs, r := EncodeDigits(ds), EncodeDigits(FixedDigits(counter, CounterCharCount)), EncodeDigits(random);
      var s := head + t + cs + r;
      var c := |prefix| + TimestampCharCount;
      assert s[c..c + CounterCharCount] == cs;
      assert s[c + CounterCharCount..] == r;
      FixedRoundTrip(counter, CounterCharCount);
      if |ds| <= TimestampCharCount {
        assert s[..|prefix|] == head[..|prefix|] == prefix;
      }
    }
  }

  /** For timestamps of exactly 7 digits the code as written produces the intended layout. */
  lemma LayoutInRange(prefix: string, timestamp: int, counter: nat, random: seq<int>)
    requires |random| == RandomCharCount && IsDigitSeq(random)
    requires Pow62(TimestampCharCount - 1) <= timestamp < Pow62(TimestampCharCount)
    ensures Layout(prefix, timestamp, counter, random) == Ok(PaddedLayout(prefix, timestamp, counter, random))
  {
    DigitsLength(timestamp, TimestampCharCount);
    DigitsLength(timestamp, TimestampCharCount - 1);
    DigitsAreFixed(timestamp);
    assert TimestampDigits(timestamp) == FixedDigits(timestamp, TimestampCharCount);
    assert (prefix + Nuls(TimestampCharCount))[..|prefix|] == prefix;
  }

  /**
   * Round trip for timestamps of exactly 7 digits (every millisecond clock
   * value from 1971 to 2081): parsing a generated identifier gives back its
   * prefix, its timestamp, its counter modulo 62^2 and its 14 random digits.
   */
  lemma RoundTrip(prefix: string, timestamp: int, counter: nat, random: seq<int>)
    requires |random| == RandomCharCount && IsDigitSeq(random)
    requires Pow62(TimestampCharCount - 1) <= timestamp < Pow62(TimestampCharCount)
    ensures Layout(prefix, timestamp, counter, random).Ok?
    ensures Parsed(Some(Layout(prefix, timestamp, counter, random).value))
            == Ok(Sid(prefix, timestamp, counter % Pow62(CounterCharCount), EncodeDigits(random)))
  {
    LayoutInRange(prefix, timestamp, counter, random);
    PaddedRoundTrip(prefix, timestamp, counter, random);
    DivModUnique(timestamp, Pow62(TimestampCharCount), 0, timestamp);
    assert |PaddedLayout(prefix, timestamp, counter, random)| >= TotalCharCount;
  }

  /**
   * Below 62^7 the code writes the timestamp field as '\0' fill followed by
   * the timestamp's significant digits.
   */
  lemma LayoutSplit(prefix: string, timestamp: int, counter: nat, random: seq<int>)
    requires |random| == RandomCharCount && IsDigitSeq(random)
    requires timestamp < Pow62(TimestampCharCount)
    ensures |TimestampDigits(timestamp)| <= TimestampCharCount
    ensures Layout(prefix, timestamp, counter, random) ==
            Ok(prefix + ((Nuls(TimestampCharCount - |TimestampDigits(timestamp)|) + EncodeDigits(TimestampDigits(timestamp)))
                         + (EncodeDigits(FixedDigits(counter, CounterCharCount)) + EncodeDigits(random))))
  {
    if timestamp > 0 {
      DigitsLength(timestamp, TimestampCharCount);
    }
    var k := |TimestampDigits(timestamp)|;
    var nuls, t := Nuls(TimestampCharCount - k), EncodeDigits(TimestampDigits(timestamp));
    var c, r := EncodeDigits(FixedDigits(counter, CounterCharCount)), EncodeDigits(random);
    assert (prefix + Nuls(TimestampCharCount))[..|prefix| + TimestampCharCount - k] == prefix + nuls;
    assert prefix + nuls + t + c + r == prefix + ((nuls + t) + (c + r));
  }

  /**
   * The '\0'-filled timestamp field sorts like the number it holds, because
   * '\0' sorts below every base62 digit.
   */
  lemma TimestampFieldOrder(t1: int, t2: int)
    requires 0 <= t1 < t2 < Pow62(TimestampCharCount)
    ensures |TimestampDigits(t1)| <= |TimestampDigits(t2)| <= TimestampCharCount
    ensures OrdinalLess(Nuls(TimestampCharCount - |TimestampDigits(t1)|) + EncodeDigits(TimestampDigits(t1)),
                        Nuls(TimestampCharCount - |TimestampDigits(t2)|) + EncodeDigits(TimestampDigits(t2)))
  {
    var d1, d2 := TimestampDigits(t1), TimestampDigits(t2);
    DigitsLength(t2, TimestampCharCount);
    DigitsLength(t2, |d2|);
    DigitsLength(t1, |d2|);
    assert |d2| > 0;
    var f1 := Nuls(TimestampCharCount - |d1|) + EncodeDigits(d1);
    var f2 := Nuls(TimestampCharCount - |d2|) + EncodeDigits(d2);
    var n := TimestampCharCount - |d2|;
    if |d1| == |d2| {
      DigitsAreFixed(t1);
      DigitsAreFixed(t2);
      FixedOrder(t1, t2, |d2|);
      CommonPrefix(Nuls(n), EncodeDigits(d1), EncodeDigits(d2));
    } else {
      assert f1 == Nuls(n) + f1[n..] && f2 == Nuls(n) + f2[n..];
      assert f1[n..][0] == '\0';
      assert f2[n..][0] == EncodeDigits(d2)[0];
      CommonPrefix(Nuls(n), f1[n..], f2[n..]);
    }
  }

  lemma LayoutLess(prefix: string, t1: int, c1: nat, r1: seq<int>, t2: int, c2: nat, r2: seq<int>)
    requires 0 <= t1 < Pow62(TimestampCharCount) && 0 <= t2 < Pow62(TimestampCharCount)
    requires c1 < Pow62(CounterCharCount) && c2 < Pow62(CounterCharCount)
    requires |r1| == RandomCharCount && IsDigitSeq(r1) && |r2| == RandomCharCount && IsDigitSeq(r2)
    requires t1 < t2 || (t1 == t2 && c1 < c2)
    ensures Layout(prefix, t1, c1, r1).Ok? && Layout(prefix, t2, c2, r2).Ok?
    ensures OrdinalLess(Layout(prefix, t1, c1, r1).value, Layout(prefix, t2, c2, r2).value)
  {
    LayoutSplit(prefix, t1, c1, r1);
    LayoutSplit(prefix, t2, c2, r2);
    var f1 := Nuls(TimestampCharCount - |TimestampDigits(t1)|) + EncodeDigits(TimestampDigits(t1));
    var f2 := Nuls(TimestampCharCount - |TimestampDigits(t2)|) + EncodeDigits(TimestampDigits(t2));
    var e1, e2 := EncodeDigits(FixedDigits(c1, CounterCharCount)), EncodeDigits(FixedDigits(c2, CounterCharCount));
    var g1, g2 := e1 + EncodeDigits(r1), e2 + EncodeDigits(r2);
    if t1 < t2 {
      TimestampFieldOrder(t1, t2);
      AppendSameLength(f1, f2, g1, g2);
    } else {
      FixedOrder(c1, c2, CounterCharCount);
      AppendSameLength(e1, e2, EncodeDigits(r1), EncodeDigits(r2));
      CommonPrefix(f1, g1, g2);
    }
    CommonPrefix(prefix, f1 + g1, f2 + g2);
  }

  /**
   * Ordering, for every timestamp from 0 to 62^7 - 1 (millisecond clock
   * values up to the year 2081) and counters below 62^2: with one prefix,
   * ordinal order of identifiers is the order of (timestamp, counter), in
   * both directions. The '\0' left in front of a short timestamp sorts
   * below '0', so the missing zero padding does not disturb the order.
   */
  lemma LayoutOrder(prefix: string, t1: int, c1: nat, r1: seq<int>, t2: int, c2: nat, r2: seq<int>)
    requires 0 <= t1 < Pow62(TimestampCharCount) && 0 <= t2 < Pow62(TimestampCharCount)
    requires c1 < Pow62(CounterCharCount) && c2 < Pow62(CounterCharCount)
    requires |r1| == RandomCharCount && IsDigitSeq(r1) && |r2| == RandomCharCount && IsDigitSeq(r2)
    ensures Layout(prefix, t1, c1, r1).Ok? && Layout(prefix, t2, c2, r2).Ok?
    ensures t1 < t2 || (t1 == t2 && c1 < c2) ==>
              OrdinalLess(Layout(prefix, t1, c1, r1).value, Layout(prefix, t2, c2, r2).value)
    ensures OrdinalLess(Layout(prefix, t1, c1, r1).value, Layout(prefix, t2, c2, r2).value) ==>
              t1 < t2 || (t1 == t2 && c1 <= c2)
  {
    LayoutSplit(prefix, t1, c1, r1);
    LayoutSplit(prefix, t2, c2, r2);
    if t1 < t2 || (t1 == t2 && c1 < c2) {
      LayoutLess(prefix, t1, c1, r1, t2, c2, r2);
    }
    if t2 < t1 || (t2 == t1 && c2 < c1) {
      LayoutLess(prefix, t2, c2, r2, t1, c1, r1);
      Asymmetric(Layout(prefix, t2, c2, r2).value, Layout(prefix, t1, c1, r1).value);
    }
  }

  /**
   * The counter's capacity: a counter and the same counter plus 62^2 give
   * the same identifier, so past 3844 identifiers in one millisecond the
   * order within that millisecond is lost.
   */
  lemma CounterWrapsAround(prefix: string, timestamp: int, counter: nat, random: seq<int>)
    requires |random| == RandomCharCount && IsDigitSeq(random)
    ensures Layout(prefix, timestamp, counter + Pow62(CounterCharCount), random) == Layout(prefix, timestamp, counter, random)
  {
    Pow62Values();
    CounterDigitsWrap(counter);
  }

  lemma CounterDigitsWrap(counter: nat)
    ensures FixedDigits(counter + 3844, CounterCharCount) == FixedDigits(counter, CounterCharCount)
  {
    var big := counter + 3844;
    DivModUnique(big, 62, counter / 62 + 62, counter % 62);
    DivModUnique(counter / 62 + 62, 62, counter / 62 / 62 + 1, counter / 62 % 62);
    assert FixedDigits(big, 2) == FixedDigits(big / 62, 1) + [big % 62];
    assert FixedDigits(counter, 2) == FixedDigits(counter / 62, 1) + [counter % 62];
  }

  /**
   * Two successive calls of `Create` on one generator, with a clock that
   * does not go backwards and stays below 62^7, and counters below 62^2,
   * give identifiers in ordinal order.
   */
  lemma SuccessiveLayoutsOrdered(prefix: string, lastMillisecond: int, counter: nat,
                                 t1: int, r1: seq<int>, t2: int, r2: seq<int>)
    requires 0 <= t1 <= t2 < Pow62(TimestampCharCount)
    requires |r1| == RandomCharCount && IsDigitSeq(r1) && |r2| == RandomCharCount && IsDigitSeq(r2)
    requires NextCount(lastMillisecond, counter, t1) < Pow62(CounterCharCount)
    requires NextCount(t1, NextCount(lastMillisecond, counter, t1), t2) < Pow62(CounterCharCount)
    ensures var c1 := NextCount(lastMillisecond, counter, t1);
            var c2 := NextCount(t1, c1, t2);
            && Layout(prefix, t1, c1, r1).Ok? && Layout(prefix, t2, c2, r2).Ok?
            && OrdinalLess(Layout(prefix, t1, c1, r1).value, Layout(prefix, t2, c2, r2).value)
  {
    var c1 := NextCount(lastMillisecond, counter, t1);
    var c2 := NextCount(t1, c1, t2);
    LayoutOrder(prefix, t1, c1, r1, t2, c2, r2);
  }

  /** The counters `GetCounter` returns for a run of timestamps, starting from state (`lastMillisecond`, `counter`). */
  function CounterRun(lastMillisecond: int, counter: nat, ts: seq<int>): (cs: seq<nat>)
    ensures |cs| == |ts|
    decreases |ts|
  {
    if ts == [] then []
    else
      var c := NextCount(lastMillisecond, counter, ts[0]);
      [c] + CounterRun(ts[0], c, ts[1..])
  }

  /** Each counter of a run is the step from the previous call's millisecond and counter. */
  lemma {:induction false} CounterRunAt(lastMillisecond: int, counter: nat, ts: seq<int>, k: nat)
    requires k < |ts|
    ensures var cs := CounterRun(lastMillisecond, counter, ts);
            cs[k] == if k == 0 then NextCount(lastMillisecond, counter, ts[0])
                     else NextCount(ts[k - 1], cs[k - 1], ts[k])
    decreases k
  {
    if k > 0 {
      var c := NextCount(lastMillisecond, counter, ts[0]);
      CounterRunAt(ts[0], c, ts[1..], k - 1);
    }
  }

  /** Timestamps below 62^7 and 14 random digits for each identifier of a run. */
  predicate RunInputs(ts: seq<int>, rs: seq<seq<int>>)
  {
    && |rs| == |ts|
    && (forall i :: 0 <= i < |ts| ==> 0 <= ts[i] < Pow62(TimestampCharCount))
    && (forall i :: 0 <= i < |rs| ==> |rs[i]| == RandomCharCount && IsDigitSeq(rs[i]))
  }

  /** The identifier `Create` returns for a timestamp below 62^7, where it always succeeds. */
  function LayoutValue(prefix: string, timestamp: int, counter: nat, random: seq<int>): (s: string)
    requires |random| == RandomCharCount && IsDigitSeq(random)
    requires timestamp < Pow62(TimestampCharCount)
    ensures Layout(prefix, timestamp, counter, random) == Ok(s)
  {
    LayoutSplit(prefix, timestamp, counter, random);
    Layout(prefix, timestamp, counter, random).value
  }

  /** The identifiers `Create` returns for a run of timestamps, counters and random digits. */
  function Layouts(prefix: string, ts: seq<int>, cs: seq<nat>, rs: seq<seq<int>>): (ids: seq<string>)
    requires RunInputs(ts, rs) && |cs| == |ts|
  {
    seq(|ts|, i requires 0 <= i < |ts| => LayoutValue(prefix, ts[i], cs[i], rs[i]))
  }

  /** The first two identifiers of a run are in ordinal order. */
  lemma RunStartsOrdered(prefix: string, lastMillisecond: int, counter: nat, ts: seq<int>, rs: seq<seq<int>>)
    requires RunInputs(ts, rs) && |ts| >= 2 && ts[0] <= ts[1]
    requires CounterRun(lastMillisecond, counter, ts)[0] < Pow62(CounterCharCount)
    requires CounterRun(lastMillisecond, counter, ts)[1] < Pow62(CounterCharCount)
    ensures var ids := Layouts(prefix, ts, CounterRun(lastMillisecond, counter, ts), rs);
            OrdinalLess(ids[0], ids[1])
  {
    var cs := CounterRun(lastMillisecond, counter, ts);
    CounterRunAt(lastMillisecond, counter, ts, 1);
    LayoutLess(prefix, ts[0], cs[0], rs[0], ts[1], cs[1], rs[1]);
  }

  /** Dropping the first call of a run leaves the run that starts from the state that call left. */
  lemma RunTail(prefix: string, lastMillisecond: int, counter: nat, ts: seq<int>, rs: seq<seq<int>>)
    requires RunInputs(ts, rs) && ts != []
    ensures RunInputs(ts[1..], rs[1..])
    ensures var cs := CounterRun(lastMillisecond, counter, ts);
            && cs[1..] == CounterRun(ts[0], cs[0], ts[1..])
            && Layouts(prefix, ts, cs, rs)[1..] == Layouts(prefix, ts[1..], cs[1..], rs[1..])
  {
    var cs := CounterRun(lastMillisecond, counter, ts);
    var ids, tail := Layouts(prefix, ts, cs, rs), Layouts(prefix, ts[1..], cs[1..], rs[1..]);
    assert forall i :: 0 <= i < |tail| ==> ids[1..][i] == ids[i + 1];
  }

  /** A sequence whose first two elements and whose tail are in ordinal order is in ordinal order. */
  lemma OrderedCons(ids: seq<string>)
    requires |ids| >= 2 && OrdinalLess(ids[0], ids[1])
    requires forall i, j :: 0 <= i < j < |ids| - 1 ==> OrdinalLess(ids[1..][i], ids[1..][j])
    ensures forall i, j :: 0 <= i < j < |ids| ==> OrdinalLess(ids[i], ids[j])
  {
    forall i, j | 0 <= i < j < |ids| ensures OrdinalLess(ids[i], ids[j]) {
      if i > 0 {
        assert ids[i] == ids[1..][i - 1] && ids[j] == ids[1..][j - 1];
      } else if j > 1 {
        assert ids[1] == ids[1..][0] && ids[j] == ids[1..][j - 1];
        Transitive(ids[0], ids[1], ids[j]);
      }
    }
  }

  /**
   * A run of `Create` calls on one generator, with a clock that does not go
   * backwards and stays below 62^7, and counters below 62^2, gives
   * identifiers in strictly increasing ordinal order, so sorting them
   * ordinally reproduces the order in which they were created.
   */
  lemma {:induction false} RunOrdered(prefix: string, lastMillisecond: int, counter: nat, ts: seq<int>, rs: seq<seq<int>>)
    requires RunInputs(ts, rs)
    requires forall i :: 0 <= i < |ts| - 1 ==> ts[i] <= ts[i + 1]
    requires forall i :: 0 <= i < |ts| ==> CounterRun(lastMillisecond, counter, ts)[i] < Pow62(CounterCharCount)
    ensures var ids := Layouts(prefix, ts, CounterRun(lastMillisecond, counter, ts), rs);
            forall i, j :: 0 <= i < j < |ids| ==> OrdinalLess(ids[i], ids[j])
    decreases |ts|
  {
    var cs := CounterRun(lastMillisecond, counter, ts);
    var ids := Layouts(prefix, ts, cs, rs);
    if |ts| >= 2 {
      RunTail(prefix, lastMillisecond, counter, ts, rs);
      assert forall i :: 0 <= i < |ts| - 2 ==> ts[1..][i] <= ts[1..][i + 1] by {
        forall i | 0 <= i < |ts| - 2 ensures ts[1..][i] <= ts[1..][i + 1] {
          assert ts[1..][i] == ts[i + 1] && ts[1..][i + 1] == ts[i + 2];
        }
      }
      assert forall i :: 0 <= i < |ts| - 1 ==> cs[1..][i] < Pow62(CounterCharCount) by {
        forall i | 0 <= i < |ts| - 1 ensures cs[1..][i] < Pow62(CounterCharCount) {
          assert cs[1..][i] == cs[i + 1];
        }
      }
      RunOrdered(prefix, ts[0], cs[0], ts[1..], rs[1..]);
      RunStartsOrdered(prefix, lastMillisecond, counter, ts, rs);
      OrderedCons(ids);
    }
  }

  /**
   * The inputs `Parse` rejects: null, fewer than 14 characters, 14 to 22
   * characters (an out-of-range read), and otherwise exactly a character
   * outside the alphabet among the 9 timestamp and counter positions; the
   * prefix and the 14 random characters are never checked.
   */
  lemma ParsedErrors(s: string)
    ensures Parsed(None) == Err(NullInput)
    ensures Parsed(Some(s)) == Err(TooShort) <==> |s| < RandomCharCount
    ensures Parsed(Some(s)) == Err(IndexOutOfRange) <==> RandomCharCount <= |s| < TotalCharCount
    ensures Parsed(Some(s)).Ok? <==>
              |s| >= TotalCharCount &&
              forall i :: |s| - TotalCharCount <= i < |s| - RandomCharCount ==> IsBase62Char(s[i])
    ensures |s| >= TotalCharCount && Parsed(Some(s)).Err? ==> Parsed(Some(s)).error.InvalidChar?
  {
    if |s| >= TotalCharCount {
      var p := |s| - TotalCharCount;
      var ts := Field(s, p, TimestampCharCount);
      var cs := Field(s, p + TimestampCharCount, CounterCharCount);
      if ts.Ok? && cs.Ok? {
        assert forall i :: p <= i < p + TimestampCharCount + CounterCharCount ==> IsBase62Char(s[i]) by {
          forall i | p <= i < p + TimestampCharCount + CounterCharCount ensures IsBase62Char(s[i]) {
            if i >= p + TimestampCharCount {
              assert p + TimestampCharCount <= i < p + TimestampCharCount + CounterCharCount;
            }
          }
        }
      }
    }
  }

  /** The error `Parse` reports is the first character outside the alphabet among the 9 checked positions. */
  lemma ParsedFirstInvalid(s: string, k: int)
    requires |s| >= TotalCharCount
    requires |s| - TotalCharCount <= k < |s| - RandomCharCount && !IsBase62Char(s[k])
    requires forall i :: |s| - TotalCharCount <= i < k ==> IsBase62Char(s[i])
    ensures Parsed(Some(s)) == Err(InvalidChar(s[k]))
  {
    var p := |s| - TotalCharCount;
    if k < p + TimestampCharCount {
      var field := s[p..p + TimestampCharCount];
      assert field[..k - p] == s[p..k];
      DecodeStopsAt(field, k - p);
    } else {
      var c := p + TimestampCharCount;
      var field := s[c..c + CounterCharCount];
      assert Field(s, p, TimestampCharCount).Ok?;
      assert field[..k - c] == s[c..k];
      DecodeStopsAt(field, k - c);
    }
  }

  /**
   * Every identifier `Parse` accepts is rebuilt exactly from its parts: the
   * prefix, then the timestamp in 7 digits and the counter in 2, then the
   * random characters; the timestamp is below 62^7, the counter below 62^2.
   */
  lemma ParsedReencodes(s: string)
    requires Parsed(Some(s)).Ok?
    ensures var sid := Parsed(Some(s)).value;
            && 0 <= sid.timestamp < Pow62(TimestampCharCount)
            && 0 <= sid.counter < Pow62(CounterCharCount)
            && |sid.randomChars| == RandomCharCount
            && s == sid.prefix + EncodeDigits(FixedDigits(sid.timestamp, TimestampCharCount))
                    + EncodeDigits(FixedDigits(sid.counter, CounterCharCount)) + sid.randomChars
  {
    var p := |s| - TotalCharCount;
    var c := p + TimestampCharCount;
    var r := c + CounterCharCount;
    EncodeDecode(s[p..c]);
    EncodeDecode(s[c..r]);
    assert s == s[..p] + s[p..c] + s[c..r] + s[r..];
  }
}

/** Scenarios of the repository's tests, stated over the model. */
module SidScenarios {
  import opened Results
  import opened Ordinal
  import opened Base62
  import opened Sids
  import opened SidProperties

  /** A fresh generator's first call at millisecond 0 counts 1, because the last millisecond starts at 0. */
  method FirstCallAtEpoch() returns (c: nat)
    ensures c == 1
  {
    var g := new SidGenerator();
    c := g.GetCounter(0);
  }

  /** A fresh generator's first call at any other millisecond counts 0. */
  method FirstCallElsewhere(timestamp: Long) returns (c: nat)
    requires timestamp != 0
    ensures c == 0
  {
    var g := new SidGenerator();
    c := g.GetCounter(timestamp);
  }

  /**
   * Two identifiers created in one millisecond parse back with that
   * timestamp, counters 0 and 1, and the random digits given.
   */
  method SameMillisecond(timestamp: Long, prefix: string, r1: seq<int>, r2: seq<int>)
    returns (first: Result<Sid, Error>, second: Result<Sid, Error>)
    requires Pow62(TimestampCharCount - 1) <= timestamp < Pow62(TimestampCharCount)
    requires |r1| == RandomCharCount && IsDigitSeq(r1) && |r2| == RandomCharCount && IsDigitSeq(r2)
    ensures first == Ok(Sid(prefix, timestamp, 0, EncodeDigits(r1)))
    ensures second == Ok(Sid(prefix, timestamp, 1, EncodeDigits(r2)))
  {
    Pow62Values();
    var g := new SidGenerator();
    var id1 := g.Create(timestamp, prefix, r1);
    var id2 := g.Create(timestamp, prefix, r2);
    RoundTrip(prefix, timestamp, 0, r1);
    RoundTrip(prefix, timestamp, 1, r2);
    first := Parse(Some(id1.value));
    second := Parse(Some(id2.value));
  }

  /** One `Create` call with a timestamp below 62^7, where it always succeeds. */
  method CreateStep(g: SidGenerator, prefix: string, timestamp: Long, random: seq<int>) returns (id: string)
    requires 0 <= timestamp < Pow62(TimestampCharCount)
    requires |random| == RandomCharCount && IsDigitSeq(random)
    modifies g
    ensures g.lastMillisecond == timestamp
    ensures g.counter == NextCount(old(g.lastMillisecond), old(g.counter), timestamp)
    ensures id == LayoutValue(prefix, timestamp, g.counter, random)
  {
    var r := g.Create(timestamp, prefix, random);
    assert r == Ok(LayoutValue(prefix, timestamp, g.counter, random));
    id := r.value;
  }

  /** Taking one more element of a sequence appends that element. */
  lemma TakeOneMore<T>(s: seq<T>, k: nat)
    requires k < |s|
    ensures s[..k + 1] == s[..k] + [s[k]]
  {
  }

  /**
   * `Create` called on each timestamp of a run in turn: the identifiers are
   * the run's layouts with the counters `GetCounter` hands out, and the
   * generator is left at the last call's millisecond and counter.
   */
  method CreateEach(g: SidGenerator, prefix: string, ts: seq<Long>, rs: seq<seq<int>>) returns (ids: seq<string>)
    requires RunInputs(ts, rs)
    modifies g
    ensures ids == Layouts(prefix, ts, CounterRun(old(g.lastMillisecond), old(g.counter), ts), rs)
    ensures ts != [] ==> g.lastMillisecond == ts[|ts| - 1] &&
                         g.counter == CounterRun(old(g.lastMillisecond), old(g.counter), ts)[|ts| - 1]
  {
    ghost var cs := CounterRun(g.lastMillisecond, g.counter, ts);
    ghost var start, startCount := g.lastMillisecond, g.counter;
    ghost var expected := Layouts(prefix, ts, cs, rs);
    ids := [];
    var k := 0;
    while k < |ts|
      invariant 0 <= k <= |ts| && ids == expected[..k]
      invariant k == 0 ==> g.lastMillisecond == start && g.counter == startCount
      invariant k > 0 ==> g.lastMillisecond == ts[k - 1] && g.counter == cs[k - 1]
    {
      CounterRunAt(start, startCount, ts, k);
      var id := CreateStep(g, prefix, ts[k], rs[k]);
      TakeOneMore(expected, k);
      ids := ids + [id];
      k := k + 1;
    }
    assert expected[..|ts|] == expected;
  }

  /**
   * A run of `Create` calls, as the ordering test makes with 100
   * identifiers: the identifiers are the run's layouts, and with a clock
   * that does not go backwards and counters below 62^2 they are in ordinal
   * order.
   */
  method CreateRun(g: SidGenerator, prefix: string, ts: seq<Long>, rs: seq<seq<int>>) returns (ids: seq<string>)
    requires RunInputs(ts, rs)
    modifies g
    ensures ids == Layouts(prefix, ts, CounterRun(old(g.lastMillisecond), old(g.counter), ts), rs)
    ensures (forall i :: 0 <= i < |ts| - 1 ==> ts[i] <= ts[i + 1]) &&
            (forall i :: 0 <= i < |ts| ==> CounterRun(old(g.lastMillisecond), old(g.counter), ts)[i] < Pow62(CounterCharCount)) ==>
            forall i, j :: 0 <= i < j < |ids| ==> OrdinalLess(ids[i], ids[j])
  {
    ghost var start, startCount := g.lastMillisecond, g.counter;
    ids := CreateEach(g, prefix, ts, rs);
    ghost var cs := CounterRun(start, startCount, ts);
    if (forall i :: 0 <= i < |ts| - 1 ==> ts[i] <= ts[i + 1]) &&
       (forall i :: 0 <= i < |ts| ==> cs[i] < Pow62(CounterCharCount)) {
      RunOrdered(prefix, start, startCount, ts, rs);
    }
  }

  /** An identifier for a 2023 clock value with prefix "AB." is 26 characters and parses back to its parts. */
  method PrefixedExample(random: seq<int>) returns (id: string, parsed: Result<Sid, Error>)
    requires |random| == RandomCharCount && IsDigitSeq(random)
    ensures |id| == 26 && id[..3] == "AB."
    ensures parsed == Ok(Sid("AB.", 1700000000000, 0, EncodeDigits(random)))
  {
    Pow62Values();
    var g := new SidGenerator();
    var r := g.Create(1700000000000, "AB.", random);
    RoundTrip("AB.", 1700000000000, 0, random);
    LayoutShape("AB.", 1700000000000, 0, random);
    id := r.value;
    parsed := Parse(Some(id));
  }
}
