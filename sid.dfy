/**
 * The Sid identifier of Sid.cs: the parsed record, the per-millisecond
 * counter with the encoder that uses it, and the decoder.
 *
 * An identifier is `prefix` followed by 23 characters: 7 timestamp digits,
 * 2 counter digits and 14 random digits, all base62.
 */
module Sids {
  import opened Results
  import opened Base62

  /** Characters after the prefix. */
  const TotalCharCount := 23
  const TimestampCharCount := 7
  const CounterCharCount := 2
  const RandomCharCount := TotalCharCount - TimestampCharCount - CounterCharCount

  /** The range of a C# `long`. */
  type Long = x: int | -0x8000_0000_0000_0000 <= x < 0x8000_0000_0000_0000

  /** The fields of the `Sid` record as `Parse` fills them. */
  datatype Sid = Sid(prefix: string, timestamp: int, counter: int, randomChars: string)

  /** The exceptions of Sid.cs, one case per kind. */
  datatype Error =
    | NullInput            // ArgumentNullException from Parse
    | TooShort             // ArgumentException "too short" from Parse
    | InvalidChar(c: char) // "Invalid char" from DecodeDigit
    | IndexOutOfRange      // an index outside the buffer or the input

  /** The counter value `GetCounter(timestamp)` moves to from state (`lastMillisecond`, `counter`). */
  function NextCount(lastMillisecond: int, counter: nat, timestamp: int): (n: nat)
    ensures n == 0 <==> timestamp != lastMillisecond
    ensures timestamp == lastMillisecond ==> n > counter
  {
    if timestamp == lastMillisecond then counter + 1 else 0
  }

  function Nuls(n: nat): (s: string)
  {
    seq(n, _ => '\0')
  }

  /** The timestamp digits the encoder writes: none at all unless the timestamp is positive. */
  function TimestampDigits(timestamp: int): (ds: seq<int>)
    ensures IsDigitSeq(ds)
  {
    if timestamp > 0 then Digits(timestamp) else []
  }

  /** One pass of the timestamp loop takes off the last digit. */
  lemma TimestampDigitsStep(v: int)
    requires v > 0
    ensures TimestampDigits(v) == TimestampDigits(v / 62) + [v % 62]
  {
    assert Digits(v) == Digits(v / 62) + [v % 62];
    if v / 62 == 0 {
      assert Digits(v / 62) == [];
    }
  }

  /**
   * The string `Create` builds, as the code is written. The buffer starts out
   * all '\0'; the timestamp loop writes only the significant digits, ending
   * at the last timestamp position, so leading positions stay '\0', and a
   * timestamp with more than 7 digits runs on into the prefix and, past its
   * start, off the buffer.
   */
  function Layout(prefix: string, timestamp: int, counter: nat, random: seq<int>): (r: Result<string, Error>)
    requires |random| == RandomCharCount && IsDigitSeq(random)
    ensures r.Err? ==> r == Err(IndexOutOfRange)
    ensures r.Ok? ==> |r.value| == |prefix| + TotalCharCount
  {
    var ds := TimestampDigits(timestamp);
    if |ds| > |prefix| + TimestampCharCount then Err(IndexOutOfRange)
    else
      Ok((prefix + Nuls(TimestampCharCount))[..|prefix| + TimestampCharCount - |ds|]
         + EncodeDigits(ds)
         + EncodeDigits(FixedDigits(counter, CounterCharCount))
         + EncodeDigits(random))
  }

  /**
   * The process-wide state of Sid.cs (`_lastMillisecond` and `_counter`) and
   * the operations that use it. The lock around it is not modelled; the
   * random generator is replaced by the digits the caller supplies.
   */
  class SidGenerator {
    var lastMillisecond: Long
    var counter: nat

    constructor ()
      ensures lastMillisecond == 0 && counter == 0
    {
      lastMillisecond := 0;
      counter := 0;
    }

    method GetCounter(timestamp: Long) returns (c: nat)
      modifies this
      ensures old(lastMillisecond) == timestamp ==> counter == old(counter) + 1
      ensures old(lastMillisecond) != timestamp ==> counter == 0
      ensures lastMillisecond == timestamp && c == counter
    {
      if timestamp == lastMillisecond {
        counter := counter + 1;
      } else {
        lastMillisecond := timestamp;
        counter := 0;
      }
      c := counter;
    }

    /**
     * `Create(long, string)`, with `random` the 14 values `Random.Next(0, 62)`
     * would have drawn. The counter advances even when the buffer write fails.
     */
    method Create(timestamp: Long, prefix: string, random: seq<int>) returns (r: Result<string, Error>)
      requires |random| == RandomCharCount && IsDigitSeq(random)
      modifies this
      ensures lastMillisecond == timestamp
      ensures counter == NextCount(old(lastMillisecond), old(counter), timestamp)
      ensures r == Layout(prefix, timestamp, counter, random)
    {
      var c := GetCounter(timestamp);
      var buffer := new char[TotalCharCount + |prefix|](_ => '\0');

      CopyPrefix(buffer, prefix);
      var bufferIndex := |prefix|;

      var ok := WriteTimestamp(buffer, bufferIndex + TimestampCharCount, timestamp);
      if !ok {
        return Err(IndexOutOfRange);
      }
      bufferIndex := bufferIndex + TimestampCharCount;

      WriteCounter(buffer, bufferIndex, c);
      bufferIndex := bufferIndex + CounterCharCount;

      WriteRandom(buffer, bufferIndex, random);
      LayoutAt(prefix, timestamp, c, random, buffer[..]);
      r := Ok(buffer[..]);
    }
  }

  /** `Layout`, position by position: what the four loops of `Create` leave in each slot. */
  lemma LayoutAt(prefix: string, timestamp: int, counter: nat, random: seq<int>, b: string)
    requires |random| == RandomCharCount && IsDigitSeq(random)
    requires |TimestampDigits(timestamp)| <= |prefix| + TimestampCharCount
    requires |b| == |prefix| + TotalCharCount
    requires var start := |prefix| + TimestampCharCount - |TimestampDigits(timestamp)|;
             forall k :: 0 <= k < |b| ==>
               b[k] == if k < start then (if k < |prefix| then prefix[k] else '\0')
                       else if k < |prefix| + TimestampCharCount then EncodeDigit(TimestampDigits(timestamp)[k - start])
                       else if k < |prefix| + TimestampCharCount + CounterCharCount
                       then EncodeDigit(FixedDigits(counter, CounterCharCount)[k - |prefix| - TimestampCharCount])
                       else EncodeDigit(random[k - |prefix| - TimestampCharCount - CounterCharCount])
    ensures Layout(prefix, timestamp, counter, random) == Ok(b)
  {
    var ds := TimestampDigits(timestamp);
    var start := |prefix| + TimestampCharCount - |ds|;
    var head := (prefix + Nuls(TimestampCharCount))[..start];
    var l := head + EncodeDigits(ds) + EncodeDigits(FixedDigits(counter, CounterCharCount)) + EncodeDigits(random);
    assert |l| == |b|;
    forall k | 0 <= k < |b| ensures l[k] == b[k] {
      if k < start {
        assert l[k] == head[k] == (prefix + Nuls(TimestampCharCount))[k];
      }
    }
    assert l == b;
  }

  /** The prefix loop of `Create`: the prefix is copied to the front of the buffer. */
  method CopyPrefix(buffer: array<char>, prefix: string)
    requires |prefix| <= buffer.Length
    modifies buffer
    ensures forall k :: 0 <= k < |prefix| ==> buffer[k] == prefix[k]
    ensures forall k :: |prefix| <= k < buffer.Length ==> buffer[k] == old(buffer[k])
  {
    var bufferIndex := 0;
    while bufferIndex < |prefix|
      invariant 0 <= bufferIndex <= |prefix|
      invariant forall k :: 0 <= k < bufferIndex ==> buffer[k] == prefix[k]
      invariant forall k :: bufferIndex <= k < buffer.Length ==> buffer[k] == old(buffer[k])
    {
      buffer[bufferIndex] := prefix[bufferIndex];
      bufferIndex := bufferIndex + 1;
    }
  }

  /**
   * The timestamp loop of `Create`: while digits remain, the next least
   * significant one goes one position further left, starting at `end - 1`.
   * It fails when it would write at index -1.
   */
  method WriteTimestamp(buffer: array<char>, end: nat, timestamp: int) returns (ok: bool)
    requires end <= buffer.Length
    modifies buffer
    ensures ok == (|TimestampDigits(timestamp)| <= end)
    ensures ok ==> forall k :: end - |TimestampDigits(timestamp)| <= k < end ==>
                     buffer[k] == EncodeDigit(TimestampDigits(timestamp)[k - (end - |TimestampDigits(timestamp)|)])
    ensures ok ==> forall k :: 0 <= k < end - |TimestampDigits(timestamp)| || end <= k < buffer.Length ==>
                     buffer[k] == old(buffer[k])
  {
    ghost var ds := TimestampDigits(timestamp);
    var v, i := timestamp, end - 1;
    while v > 0
      invariant |TimestampDigits(v)| <= |ds| && TimestampDigits(v) == ds[..|TimestampDigits(v)|]
      invariant i == end - 1 - (|ds| - |TimestampDigits(v)|) && i >= -1
      invariant forall k :: i < k < end ==> buffer[k] == EncodeDigit(ds[k - (end - |ds|)])
      invariant forall k :: 0 <= k <= i || end <= k < buffer.Length ==> buffer[k] == old(buffer[k])
    {
      if i < 0 {
        // `buffer[i]` with i == -1 throws
        return false;
      }
      TimestampDigitsStep(v);
      buffer[i] := EncodeDigit(v % 62);
      v, i := v / 62, i - 1;
    }
    ok := true;
  }

  /**
   * The counter loop of `Create`: always two digits, least significant
   * last, so the counter is written modulo 62^2.
   */
  method WriteCounter(buffer: array<char>, start: nat, counter: nat)
    requires start + CounterCharCount <= buffer.Length
    modifies buffer
    ensures forall k :: start <= k < start + CounterCharCount ==>
              buffer[k] == EncodeDigit(FixedDigits(counter, CounterCharCount)[k - start])
    ensures forall k :: 0 <= k < start || start + CounterCharCount <= k < buffer.Length ==>
              buffer[k] == old(buffer[k])
  {
    var i, c := start + CounterCharCount - 1, counter;
    while i >= start
      invariant start - 1 <= i <= start + CounterCharCount - 1
      invariant c == counter / Pow62(start + CounterCharCount - 1 - i)
      invariant forall k :: i < k < start + CounterCharCount ==>
                  buffer[k] == EncodeDigit(FixedDigits(counter, start + CounterCharCount - 1 - i)[k - i - 1])
      invariant forall k :: 0 <= k <= i || start + CounterCharCount <= k < buffer.Length ==>
                  buffer[k] == old(buffer[k])
    {
      ghost var w := start + CounterCharCount - 1 - i;
      buffer[i] := EncodeDigit(c % 62);
      FixedDigitsFront(counter, w);
      SplitLow(counter, Pow62(w));
      i, c := i - 1, c / 62;
    }
  }

  /** The random loop of `Create`: each drawn digit is added (`+=`) to a slot that still holds '\0'. */
  method WriteRandom(buffer: array<char>, start: nat, random: seq<int>)
    requires start + |random| == buffer.Length && IsDigitSeq(random)
    requires forall k :: start <= k < buffer.Length ==> buffer[k] == '\0'
    modifies buffer
    ensures forall k :: start <= k < buffer.Length ==> buffer[k] == EncodeDigit(random[k - start])
    ensures forall k :: 0 <= k < start ==> buffer[k] == old(buffer[k])
  {
    var bufferIndex := start;
    while bufferIndex < buffer.Length
      invariant start <= bufferIndex <= buffer.Length
      invariant forall k :: start <= k < bufferIndex ==> buffer[k] == EncodeDigit(random[k - start])
      invariant forall k :: bufferIndex <= k < buffer.Length ==> buffer[k] == '\0'
      invariant forall k :: 0 <= k < start ==> buffer[k] == old(buffer[k])
    {
      var drawn := random[bufferIndex - start];
      buffer[bufferIndex] := (buffer[bufferIndex] as int + EncodeDigit(drawn) as int) as char;
      bufferIndex := bufferIndex + 1;
    }
  }

  /**
   * One digit loop of `Parse`: `count` characters from index `from`
   * accumulated as base62 digits. A negative `from` fails on the first read.
   */
  function Field(s: string, from: int, count: nat): (r: Result<nat, Error>)
    requires 0 < count && from + count <= |s|
    ensures r == Err(IndexOutOfRange) <==> from < 0
    ensures r.Ok? <==> 0 <= from && forall i :: from <= i < from + count ==> IsBase62Char(s[i])
    ensures r.Ok? ==> r.value < Pow62(count)
  {
    if from < 0 then Err(IndexOutOfRange)
    else
      match DecodeDigits(s[from..from + count])
      case Err(c) => Err(InvalidChar(c))
      case Ok(v) => Ok(v)
  }

  /** Reading one more character of a field from a non-negative start. */
  lemma FieldStep(s: string, from: nat, count: nat, k: nat, v: nat)
    requires k < count && from + count <= |s|
    requires DecodeDigits(s[from..from + count][..k]) == Ok(v)
    ensures IsBase62Char(s[from + k]) ==>
      DecodeDigits(s[from..from + count][..k + 1]) == Ok(v * 62 + DecodeDigit(s[from + k]).value)
    ensures !IsBase62Char(s[from + k]) ==> Field(s, from, count) == Err(InvalidChar(s[from + k]))
  {
    assert s[from..from + count][k] == s[from + k];
    DecodeStep(s[from..from + count], k, v);
  }

  /** A field whose every character was read decodes to the accumulated value. */
  lemma FieldDone(s: string, from: nat, count: nat, v: nat)
    requires 0 < count && from + count <= |s|
    requires DecodeDigits(s[from..from + count][..count]) == Ok(v)
    ensures Field(s, from, count) == Ok(v)
  {
    assert s[from..from + count][..count] == s[from..from + count];
  }

  method DecodeField(s: string, from: int, count: nat) returns (r: Result<nat, Error>)
    requires 0 < count && from + count <= |s|
    ensures r == Field(s, from, count)
  {
    var value := 0;
    var inputIndex := from;
    var limit := inputIndex + count;
    while inputIndex < limit
      invariant from <= inputIndex <= limit
      invariant from < 0 ==> inputIndex == from
      invariant 0 <= from ==> DecodeDigits(s[from..from + count][..inputIndex - from]) == Ok(value)
    {
      if inputIndex < 0 {
        return Err(IndexOutOfRange);
      }
      var d := DecodeDigit(s[inputIndex]);
      FieldStep(s, from, count, inputIndex - from, value);
      if d.Err? {
        return Err(InvalidChar(d.error));
      }
      value := value * 62 + d.value;
      inputIndex := inputIndex + 1;
    }
    FieldDone(s, from, count, value);
    r := Ok(value);
  }

  /** What `Parse` returns or throws, as the code is written. */
  function Parsed(input: Option<string>): (r: Result<Sid, Error>)
    ensures r == Err(NullInput) <==> input.None?
    ensures r == Err(TooShort) <==> input.Some? && |input.value| < RandomCharCount
    ensures r.Ok? ==>
              && |input.value| == |r.value.prefix| + TotalCharCount
              && input.value[..|r.value.prefix|] == r.value.prefix
              && 0 <= r.value.timestamp < Pow62(TimestampCharCount)
              && 0 <= r.value.counter < Pow62(CounterCharCount)
              && |r.value.randomChars| == RandomCharCount
  {
    match input
    case None => Err(NullInput)
    case Some(s) =>
      if |s| < RandomCharCount then Err(TooShort)
      else
        var prefixLength := |s| - TotalCharCount;
        var timestamp :- Field(s, prefixLength, TimestampCharCount);
        var counter :- Field(s, prefixLength + TimestampCharCount, CounterCharCount);
        Ok(Sid(s[..prefixLength], timestamp, counter, s[prefixLength + TimestampCharCount + CounterCharCount..]))
  }

  /** `Parse(string)`; `None` is the null reference. */
  method Parse(input: Option<string>) returns (r: Result<Sid, Error>)
    ensures r == Parsed(input)
  {
    if input.None? {
      return Err(NullInput);
    }
    var s := input.value;
    if |s| < RandomCharCount {
      return Err(TooShort);
    }
    var prefixLength := |s| - TotalCharCount;
    var timestamp :- DecodeField(s, prefixLength, TimestampCharCount);
    var counter :- DecodeField(s, prefixLength + TimestampCharCount, CounterCharCount);
    r := Ok(Sid(s[..prefixLength], timestamp, counter, s[prefixLength + TimestampCharCount + CounterCharCount..]));
  }
}
