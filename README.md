# Sid.Net in Dafny

Sid.Net generates and parses *Sids*. A Sid is a sortable identifier: an optional caller-chosen prefix followed by 23 characters, meant to be base62 (`0-9A-Za-z`). Those are 7 characters of a millisecond timestamp, 2 of a per-millisecond counter and 14 random ones. This project models the core, `Sid.Net/Sid.cs`:

- the digit codec `EncodeDigit` / `DecodeDigit`;
- the process-wide counter `GetCounter` with its fields `_lastMillisecond` and `_counter`;
- the encoder `Create(long, string)`;
- the decoder `Parse(string)`.

It proves what the code guarantees, and where it departs from what it was meant to do.

Modules:

- `Results` (`results.dfy`): `Option`, and `Result`, which stands for a return value or a thrown exception.
- `Ordinal` (`ordinal.dfy`): ordinal string comparison (`StringComparer.Ordinal`). Lemmas prove it is asymmetric and transitive and how it behaves on a common prefix and on appended tails.
- `Base62` (`base62.dfy`):
  - the digit codec;
  - most-significant-first digit sequences, both fixed width and significant digits only;
  - decoding a run of characters;
  - round trips, and order preservation of fixed-width encodings.
- `Sids` (`sid.dfy`):
  - the class `SidGenerator`, holding the two static fields;
  - `GetCounter`;
  - `Create`, as imperative code over a `char` array, with one loop method per loop of the source;
  - `Parse`, whose field loop is its own method.

  Each method is proved against a specification function: `Layout` for `Create`, `Field` for the field loop and `Parsed` for `Parse`.
- `Findings` (`findings.dfy`): the two defects of the source, as written and corrected.
- `SidProperties` and `SidScenarios` (`sid_properties.dfy`): the properties of `Create` and `Parse` taken together, and the scenarios of the repository's tests. Among them: a run of `Create` calls with a clock that does not go backwards yields identifiers in ordinal order, for timestamps in [0, 62^7), as long as every counter handed out stays below 62^2 (`SidProperties.RunOrdered`, `SidScenarios.CreateRun`). That allows at most 62^2 calls in one millisecond, and one fewer at millisecond 0 on a new generator, whose first call there counts 1 (`SidScenarios.FirstCallAtEpoch`). Once a counter reaches 62^2 the counter field wraps around (`SidProperties.CounterWrapsAround`), and the order can break.

Inputs that the program takes from its environment are parameters in the model:

- The clock: `Create` takes the timestamp.
- `Random.Next(0, 62)`: `Create` takes the 14 digits those calls would have drawn.

A null input is `None`. An exception is an `Err` value with one `Error` case per kind:

- `NullInput`: the `ArgumentNullException` from `Parse`.
- `TooShort`: the "too short" `ArgumentException`.
- `InvalidChar(c)`: the exception from `DecodeDigit`.
- `IndexOutOfRange`: an index outside the buffer or the input.

Where the code departs from the format its constants and tests describe, the model follows the code:

- The code does not zero-pad the timestamp (Sid.cs:63-66). Positions in front of a short timestamp keep the buffer's initial `'\0'`.
- The missing padding does not break sort order for any timestamp in [0, 62^7): `'\0'` sorts below `'0'`, as `SidProperties.LayoutOrder` proves. What it does break is parsing (`Findings.SmallTimestampUnparseable`) and the base62 alphabet of the output.
- The length check compares with `RandomCharCount` (14), not `TotalCharCount` (23) (Sid.cs:109).

## Model

| member | source | states |
|---|---|---|
| Base62.EncodeDigit | Sid.Net/Sid.cs:85-91 | every digit 0..61 encodes to a character of `0-9A-Za-z` |
| Base62.DecodeDigit | Sid.Net/Sid.cs:93-100 | decoding succeeds exactly on `0-9A-Za-z`, yields a digit 0..61, and otherwise fails with the offending character |
| Base62.EncodeDecodeDigit | Sid.Net/Sid.cs:85-100 | encoding the decoded digit of an alphabet character gives the character back |
| Base62.DecodeEncodeDigit | Sid.Net/Sid.cs:85-100 | decoding the encoding of a digit gives the digit back |
| Base62.EncodeDigitMonotonic | Sid.Net/Sid.cs:85-91 | digit order and character order agree, in both directions |
| Base62.FixedDigits | Sid.Net/Sid.cs:70-73 | the counter loop's output has exactly the given width and consists of digits |
| Base62.Digits | Sid.Net/Sid.cs:63-66 | the timestamp loop's output consists of digits |
| Base62.EncodeDigits | Sid.Net/Sid.cs:85-91 | a digit run encodes to a string of the same length, entirely in the alphabet |
| Base62.DecodeDigits | Sid.Net/Sid.cs:118-136 | the multiply-and-add loop succeeds exactly when every character is in the alphabet, and the value is below 62^n for n characters |
| Base62.DecodeStep | Sid.Net/Sid.cs:122-126 | one pass of the decoding loop: a valid character extends the value by one digit, an invalid one ends the decoding with that character |
| Base62.DecodeExtend | Sid.Net/Sid.cs:122-126 | appending a valid character to a decodable run multiplies its value by 62 and adds the character's digit |
| Base62.DecodeStopsAt | Sid.Net/Sid.cs:122-126 | decoding fails with the first character outside the alphabet |
| Base62.FixedDigitsValue | Sid.Net/Sid.cs:70-73 | w digits taken by division and remainder hold the value modulo 62^w |
| Base62.FixedDigitsFront | Sid.Net/Sid.cs:70-73 | the most significant of w+1 digits is the value divided by 62^w, modulo 62 |
| Base62.DigitsAreFixed | Sid.Net/Sid.cs:63-66 | the significant digits of a value are its fixed-width digits at their own width |
| Base62.DigitsLength | Sid.Net/Sid.cs:63-66 | a value has at most w significant digits exactly when it is below 62^w |
| Base62.DecodeEncode | Sid.Net/Sid.cs:118-136 | decoding an encoded digit run gives its most-significant-first value |
| Base62.FixedRoundTrip | Sid.Net/Sid.cs:70-73 | decoding the fixed-width encoding of v gives v modulo 62^w |
| Base62.EncodeDecode | Sid.Net/Sid.cs:118-136 | a string that decodes is the fixed-width encoding of its value |
| Base62.FixedOrder | Sid.Net/Sid.cs:85-91 | fixed-width encodings of smaller values sort ordinally first |
| Ordinal.OrdinalLess | Sid.Net.Tests/SidTests.cs:91 | `StringComparer.Ordinal`: the first differing character decides by its code, and a proper prefix sorts first; its properties are the four lemmas below |
| Ordinal.CommonPrefix | Sid.Net.Tests/SidTests.cs:91 | a common prefix does not change ordinal order, in both directions |
| Ordinal.AppendSameLength | Sid.Net.Tests/SidTests.cs:91 | order decided within equal-length heads survives any tails |
| Ordinal.Asymmetric | Sid.Net.Tests/SidTests.cs:91 | ordinal order never holds both ways |
| Ordinal.Transitive | Sid.Net.Tests/SidTests.cs:91 | ordinal order is transitive |
| Sids.NextCount | Sid.Net/Sid.cs:37-47 | the counter `GetCounter` moves to: 0 exactly when the millisecond differs from the last one, otherwise larger than before (one more) |
| Sids.TimestampDigits | Sid.Net/Sid.cs:63-66 | the loop `v > 0` writes nothing for a timestamp of zero or below, otherwise the significant digits |
| Sids.TimestampDigitsStep | Sid.Net/Sid.cs:63-66 | each pass of the timestamp loop writes the last digit and continues with `v / 62` |
| Sids.SidGenerator.constructor | Sid.Net/Sid.cs:19-20 | both static fields start at 0 |
| Sids.SidGenerator.GetCounter | Sid.Net/Sid.cs:33-49 | the same millisecond increments the counter; a different one records the millisecond and resets the counter to 0; the counter is returned |
| Sids.SidGenerator.Create | Sid.Net/Sid.cs:51-83 | the counter advances as `GetCounter` does, and the result is `Layout`: prefix, '\0'-filled unpadded timestamp, counter digits, random digits, or an out-of-range failure |
| Sids.Layout | Sid.Net/Sid.cs:54-82 | the string `Create` builds: the prefix (overwritten from its end when the timestamp has more than 7 digits), '\0' fill, the significant timestamp digits, the 2 counter digits of the counter modulo 62^2, the random digits; it is 23 characters longer than the prefix, and the only failure is `IndexOutOfRange`, when the timestamp digits run past index 0 |
| Sids.LayoutAt | Sid.Net/Sid.cs:54-82 | a buffer holding, slot by slot, what the four loops write is the identifier `Layout` describes |
| Sids.CopyPrefix | Sid.Net/Sid.cs:58-61 | the prefix is copied to the buffer's front and nothing else changes |
| Sids.WriteTimestamp | Sid.Net/Sid.cs:63-66 | the significant digits end at the last timestamp position; it fails exactly when they do not fit in front of it; nothing else changes |
| Sids.WriteCounter | Sid.Net/Sid.cs:70-73 | the two counter positions hold the counter's two low digits, most significant first; nothing else changes |
| Sids.WriteRandom | Sid.Net/Sid.cs:77-80 | each random position, '\0' before, holds the encoding of its drawn digit |
| Sids.Field | Sid.Net/Sid.cs:118-136 | a field read fails out of range exactly when it starts before the input; it succeeds exactly when all its characters are in the alphabet; its value is below 62^count |
| Sids.FieldStep | Sid.Net/Sid.cs:122-126 | one pass of the field loop: a valid character extends the value read so far, an invalid one makes the field fail with that character |
| Sids.FieldDone | Sid.Net/Sid.cs:118-136 | after all `count` characters the field's value is the accumulated value |
| Sids.DecodeField | Sid.Net/Sid.cs:118-136 | the decoding loop computes `Field` |
| Sids.Parsed | Sid.Net/Sid.cs:102-145 | what `Parse` returns or throws: `NullInput` exactly on null, `TooShort` exactly under 14 characters; a result has a prefix that starts the input and is 23 characters shorter, a timestamp below 62^7, a counter below 62^2 and 14 random characters |
| Sids.Parse | Sid.Net/Sid.cs:102-145 | `Parse` computes `Parsed`: null check, length check against 14, the two fields, prefix and random characters by position |
| Findings.SmallTimestampUnparseable | Sid.Net/Sid.cs:63-66 | a timestamp below 62^6 leaves '\0' at the first timestamp position and `Parse` rejects the identifier with that character |
| Findings.LargeTimestampOverwritesPrefix | Sid.Net/Sid.cs:63-66 | a timestamp of 62^7 or more overwrites the end of a prefix that does not end in a base62 digit |
| Findings.HugeTimestampThrows | Sid.Net/Sid.cs:63-66 | a timestamp with more digits than prefix and timestamp field hold makes `Create` fail out of range |
| Findings.PaddedLayout | Sid.Net/Sid.cs:51-83 | the intended layout keeps the prefix, is 23 characters longer, and is entirely in the alphabet after the prefix |
| Findings.ShortInputIndexOutOfRange | Sid.Net/Sid.cs:109-125 | an input of 14 to 22 characters passes the length check and fails on an out-of-range read |
| Findings.ParsedChecked | Sid.Net/Sid.cs:109-114 | with the threshold 23, "too short" is exactly the inputs under 23 characters and no read is out of range |
| Findings.PaddedRoundTrip | Sid.Net/Sid.cs:102-145 | an identifier of the intended layout parses back to prefix, timestamp modulo 62^7, counter modulo 62^2 and random digits |
| Findings.ParsedFromFields | Sid.Net/Sid.cs:138-144 | given the two field values, `Parse` returns them with the prefix and the random characters cut out by position |
| Findings.PaddedLess | Sid.Net/Sid.cs:63-73 | intended-layout identifiers with a smaller (timestamp, counter) sort ordinally first |
| Findings.PaddedOrder | Sid.Net/Sid.cs:63-73 | intended-layout ordinal order is (timestamp, counter) order, in both directions |
| SidProperties.LayoutShape | Sid.Net/Sid.cs:51-83 | `Create` succeeds exactly when the timestamp fits; the result is 23 longer than the prefix, keeps the prefix for timestamps below 62^7, decodes to counter modulo 62^2 in the counter field and ends with the random digits |
| SidProperties.LayoutInRange | Sid.Net/Sid.cs:63-66 | for timestamps of exactly 7 digits the code writes the intended layout |
| SidProperties.RoundTrip | Sid.Net/Sid.cs:51-145 | for timestamps of exactly 7 digits, `Parse(Create(...))` gives back prefix, timestamp, counter modulo 62^2 and the random digits |
| SidProperties.LayoutSplit | Sid.Net/Sid.cs:54-66 | below 62^7 the timestamp field is '\0' fill followed by the significant digits |
| SidProperties.TimestampFieldOrder | Sid.Net/Sid.cs:63-66 | the '\0'-filled timestamp field sorts like the number it holds |
| SidProperties.LayoutLess | Sid.Net/Sid.cs:51-83 | a smaller (timestamp, counter) gives an ordinally smaller identifier for timestamps in [0, 62^7) |
| SidProperties.LayoutOrder | Sid.Net.Tests/SidTests.cs:86-91 | with one prefix, ordinal order of identifiers is (timestamp, counter) order, in both directions, for timestamps in [0, 62^7) and counters below 62^2 |
| SidProperties.CounterWrapsAround | Sid.Net/Sid.cs:70-73 | counters that differ by 62^2 give the same identifier |
| SidProperties.CounterDigitsWrap | Sid.Net/Sid.cs:70-73 | the two counter digits of c and c + 3844 coincide |
| SidProperties.SuccessiveLayoutsOrdered | Sid.Net/Sid.cs:33-83 | two successive `Create` calls with a clock that does not go backwards, timestamps below 62^7 and counters below 62^2 give identifiers in ordinal order |
| SidProperties.CounterRun | Sid.Net/Sid.cs:33-49 | a run of `GetCounter` calls hands out one counter per timestamp |
| SidProperties.CounterRunAt | Sid.Net/Sid.cs:33-49 | each counter of a run is `GetCounter`'s step from the previous call's millisecond and counter |
| SidProperties.LayoutValue | Sid.Net/Sid.cs:51-83 | for timestamps below 62^7 `Create` succeeds, with this identifier |
| SidProperties.RunStartsOrdered | Sid.Net.Tests/SidTests.cs:86-91 | the first two identifiers of a run with a clock that does not go backwards, timestamps below 62^7 and counters below 62^2 are in ordinal order |
| SidProperties.RunTail | Sid.Net/Sid.cs:33-49 | dropping the first call of a run leaves the run that starts from the millisecond and counter that call left |
| SidProperties.OrderedCons | Sid.Net.Tests/SidTests.cs:91 | ordinal order of the first two elements and of the tail gives ordinal order of the whole sequence |
| SidProperties.RunOrdered | Sid.Net.Tests/SidTests.cs:86-91 | any number of identifiers created with a clock that does not go backwards, below 62^7, and counters below 62^2 are in strictly increasing ordinal order, so sorting them ordinally keeps their creation order |
| SidProperties.ParsedErrors | Sid.Net/Sid.cs:102-136 | null, under 14, 14 to 22 out of range, and otherwise failure exactly on a bad character in the 9 timestamp and counter positions; prefix and random characters are never checked |
| SidProperties.ParsedFirstInvalid | Sid.Net/Sid.cs:122-136 | the reported character is the first invalid one among the 9 checked positions |
| SidProperties.ParsedReencodes | Sid.Net/Sid.cs:116-144 | an accepted input is exactly prefix, 7-digit timestamp, 2-digit counter and random characters, with both numbers in range |
| SidScenarios.FirstCallAtEpoch | Sid.Net/Sid.cs:19-49 | the first `GetCounter(0)` returns 1, because the last millisecond starts at 0 |
| SidScenarios.FirstCallElsewhere | Sid.Net/Sid.cs:37-45 | the first call at any other millisecond returns 0 |
| SidScenarios.CreateStep | Sid.Net/Sid.cs:33-83 | one `Create` call below 62^7 records the millisecond, advances the counter as `GetCounter` does and returns that identifier |
| SidScenarios.CreateEach | Sid.Net/Sid.cs:33-83 | `Create` called on each timestamp in turn returns the run's identifiers with the counters `GetCounter` hands out, and leaves the last call's millisecond and counter |
| SidScenarios.CreateRun | Sid.Net.Tests/SidTests.cs:86-91 | a run of `Create` calls with timestamps in [0, 62^7), as the ordering test makes, is in ordinal order when the clock does not go backwards and the counters stay below 62^2 |
| SidScenarios.SameMillisecond | Sid.Net.Tests/SidTests.cs:109-118 | two identifiers created in one millisecond parse back with counters 0 and 1 |
| SidScenarios.PrefixedExample | Sid.Net.Tests/SidTests.cs:120-134 | a 2023 identifier with prefix "AB." is 26 characters, starts with the prefix and parses back to its parts |

## Left out

- The lock around the counter (Sid.cs:21, 35): concurrency is not modelled. `SidGenerator` stands for one thread's view of the static state.
- `System.Random` (Sid.cs:18, 79): the drawn digits are a parameter of `Create`.
- `Create(string)` (Sid.cs:28-31) reads the system clock. The clock is a parameter, so this overload is `Create` with the current time.
- Exception types and message texts: each is an `Error` case.
- Sids.SidGenerator.GetCounter: `_counter` is a 32-bit `int` and wraps after 2^31 - 1 increments. The model's counter is unbounded.
- 64-bit overflow in the decoding accumulation (Sid.cs:124-125) cannot happen: seven digits stay below 62^7 < 2^63. The model uses unbounded integers.
- `Take`/`Skip` (Sid.cs:140, 143) are sequence slices. `char[]` fields of the record are strings.
- Strings are sequences of Dafny characters (Unicode scalar values), not of UTF-16 code units. The model covers strings without surrogates, where the two coincide. C# `Length` and indexing (Sid.cs:54, 58-60, 109, 116, 125) count code units. A character outside the Basic Multilingual Plane is two code units there and one character here, so it shifts every position `Parse` reads. Lone surrogates have no counterpart in the model.
- A null `prefix` in `Create(long, string)` advances the counter (Sid.cs:53) and then throws a `NullReferenceException` at `prefix.Length` (Sid.cs:54). The model's `prefix` is never null, so that path is not modelled.
- The benchmarks project is not part of this model. The tests serve as scenarios only.

## Findings

| source | as written | input that shows it | evidently intended | confidence | as-written member | corrected member |
|---|---|---|---|---|---|---|
| Sid.Net/Sid.cs:63-66 | the timestamp loop runs while `v > 0`, so a timestamp with fewer than 7 digits leaves '\0' in the leading timestamp positions, and `Parse` then throws on '\0' | `Create(1000, "")` writes five '\0' then `G8`; parsing it fails with `InvalidChar('\0')` | write all 7 positions, zero-padded | not executed; proved for every timestamp below 62^6 | Findings.SmallTimestampUnparseable | Findings.PaddedLayout |
| Sid.Net/Sid.cs:63-66 | a timestamp of 8 or more digits keeps writing to the left of the timestamp field, over the prefix | `Create(3521614606208, "AB.")` (62^7, in 2081) gives `AB1` followed by seven `0` | write exactly the 7 timestamp positions and never touch the prefix | not executed; proved for every timestamp from 62^7 below 62^(prefix length + 7) | Findings.LargeTimestampOverwritesPrefix | Findings.PaddedLayout |
| Sid.Net/Sid.cs:109 | the length check compares with `RandomCharCount` (14) instead of `TotalCharCount` (23) | `Parse("0123456789abcdef")` (16 characters) reads `input[-7]` and throws an index-out-of-range exception instead of the "too short" `ArgumentException` | reject inputs under 23 characters as too short | not executed; proved for every length from 14 to 22 | Findings.ShortInputIndexOutOfRange | Findings.ParsedChecked |
