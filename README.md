# Tenhou log conversion, modelled in Dafny

This project models the core of a converter for mahjong game records in the
tenhou.net/6 format (three-player games only). The core turns a deserialised
raw record (`RawLog`) into a typed `Log`. It also filters a log's rounds
(`kyokus`) in place. The work happens in five steps:

- It rejects four-player games. The test is whether the rule text
  (`rule.disp`) contains "四" or "4-Player".
- It sets the game length. The game is East-only (`Tonpuu`) when the rule
  text contains "東" or "East", and a half game (`Hanchan`) otherwise.
- It sets `has_aka`. This is true when the four red-five counts add up to a
  positive number.
- It folds each round's twelve parallel per-seat lists into four action
  tables, one per seat.
- It classifies each round's result array:
  - A leading "和了" (win) tag makes a win. The win holds one detail per
    well-shaped (score changes, who/target) pair that follows the tag.
  - Anything else makes a draw (`Ryukyoku`) with score changes.

Files:

- `wrappers.dfy`: `Option` and `Result`.
- `text.dfy`: Rust's `str::contains` as an executable scan (`Contains`). It is
  proved equal to a reference definition (`Occurs`: some slice equals the
  pattern).
- `seqs.dfy`: `Retained`, the meaning of `Vec::retain` and of a loop that
  pushes only what it accepts. `Positions` gives the indices of the kept
  elements.
- `json_scheme.dfy`: the raw record as the converter sees it. Tiles, action
  items and the metadata fields beyond the round number and repeat count are
  abstract types.
- `log.dfy`: the typed log, the specification functions and the executable
  converter. `Convert` is the pure meaning of the whole conversion.
  `Log.TryFrom` is the imperative converter with its loops, proved against
  `Convert`. `EndStatusFromResults` and `HoraDetailsFrom` read a round's result
  array, proved against `EndStatusOf` and `HoraDetails`. `Log` is a class
  because `filter_kyokus` changes its round list in place.
- `log_props.dfy`: the properties of the conversion and of the filter.

In these places the model follows the code as written, not a stricter
reading of the format:

- A pair after a win tag that is not (score changes, who/target) is skipped
  silently. It is not an error. Only a well-shaped pair whose tuple lacks a
  numeric first or second entry fails, with `InvalidHoraDetail`.
- A draw takes its score changes from the second item only when the first
  item is a status tag. If the first item is not a status, the changes are
  zero even when a score array follows.
- A seat number may be any JSON number. A number with no `u64` value (negative
  or fractional) becomes 0. Every value is cut to eight bits (`as u8`, that is
  modulo 256).
- A win tag followed by no usable pair gives a win with no details. This is
  accepted, not treated as a defect.

## Model

| member | source | states |
|---|---|---|
| `TenhouLog.Log.TryFrom` | src/tenhou/log.rs:87-182 | The method fails exactly when `Convert` fails, with the same error. On success it returns a fresh `Log` whose value is `Convert`'s result. |
| `TenhouLog.Log.FilterKyokus` | src/tenhou/log.rs:78-81 | The new round list is `Retained` of the old one under the (round number, repeat count) test. Names, game length and red-five flag are unchanged. |
| `TenhouLog.Log.constructor` | src/tenhou/log.rs:176-181 | The new log holds exactly the given names, game length, red-five flag and rounds. |
| `TenhouLog.EndStatusFromResults` | src/tenhou/log.rs:131-171 | Reading a round's result array gives exactly `EndStatusOf` of it, including the error. |
| `TenhouLog.HoraDetailsFrom` | src/tenhou/log.rs:138-161 | The loop over the pairs after a win tag gives exactly `HoraDetails`. It stops with `InvalidHoraDetail` at the first malformed pair. |
| `TenhouLog.ChunksExact2` | src/tenhou/log.rs:139 | There are half as many pairs as items, rounded down. Pair k is items 2k and 2k+1, so an odd last item is dropped. |
| `TenhouLog.DetailOf` | src/tenhou/log.rs:143-157 | One win detail from a well-shaped, non-malformed pair: who and target are `SeatAt` of tuple entries 0 and 1, and the deltas are the pair's score array. `HoraDetailsOrder` states that detail j is `DetailOf` of the j-th well-shaped pair. |
| `TenhouLog.DetailsOf` | src/tenhou/log.rs:153-158 | One detail per chunk, in chunk order: detail j is the detail of chunk j. |
| `TenhouLog.ReadDetailsMeaning` | src/tenhou/log.rs:139-160 | Reading fails exactly when some pair is malformed, and then always with `InvalidHoraDetail`. Otherwise it gives the details of the well-shaped pairs (`Retained`), in order. |
| `TenhouLog.ReadDetailsErrSticky` | src/tenhou/log.rs:143-152 | Once a prefix of the pairs fails to read, reading all the pairs fails with the same error (the early `return Err`). |
| `TenhouLog.EndStatusFailure` | src/tenhou/log.rs:136-170 | A result array is rejected only when it starts with the win tag, and only with `InvalidHoraDetail`. |
| `TenhouLog.ConvertKyokusShape` | src/tenhou/log.rs:102-174 | The rounds convert exactly when every result array is readable. A failure is `InvalidHoraDetail`. On success there is one round per raw round, and round i is the conversion of raw round i. |
| `TenhouLog.Convert` | src/tenhou/log.rs:87-182 | The pure meaning of the whole conversion. What it states is proved in `ConvertOutcome` (when it fails and with which error), `AcceptedHeader` (length, red-five flag and names on success) and `ConvertedRound` (each round); `Log.TryFrom` is proved equal to it. |
| `TenhouLog.ConvertKyokus` | src/tenhou/log.rs:102-174 | All rounds converted in order, the first failing round failing the lot. `ConvertKyokusShape` proves when it succeeds, that a failure is `InvalidHoraDetail`, and that round i is the conversion of raw round i. |
| `TenhouLog.KyokuOf` | src/tenhou/log.rs:103-173 | One round's conversion. `ConvertedRound` proves which raw fields it copies, the per-seat tables and that its end status is the one read from its result array. |
| `TenhouLog.ActionTablesOf` | src/tenhou/log.rs:109-130 | The twelve per-seat lists folded into four tables. `ConvertedRound` proves seat j's table is (`haipai_j`, `takes_j`, `discards_j`). |
| `TenhouLog.EndStatusOf` | src/tenhou/log.rs:131-171 | How a round ended, read from its result array. `EndStatusCases` gives its value in every case and `EndStatusFailure` its only error; `EndStatusFromResults` is proved equal to it. |
| `TenhouLog.HoraDetails` | src/tenhou/log.rs:138-161 | The winners read from the items after a win tag. `HoraDetailsFailure` proves when it fails and `HoraDetailsOrder` which details it gives, in order; `HoraDetailsFrom` is proved equal to it. |
| `TenhouLog.ReadDetails` | src/tenhou/log.rs:139-160 | The pairs read one by one, as the loop reads them. `ReadDetailsMeaning` proves it fails exactly on a malformed pair and otherwise gives the details of the well-shaped pairs; `ReadDetailsErrSticky` proves the early return. |
| `TenhouLog.WellShaped` | src/tenhou/log.rs:140-141 | A pair of a score array then a who/target tuple; other pairs are skipped. `WellShapedPairs` proves which pairs these are and bounds their number. |
| `TenhouLog.SeatAt` | src/tenhou/log.rs:143-152 | The winner or target seat: absent unless the tuple entry exists and is a JSON number, else its `u64` value (0 without one) cut to eight bits. `SingleRon` proves the eight-bit cut for numbers with a `u64` value, and `NonNumericWinnerRejected` that a non-number entry rejects the round. |
| `TenhouLog.Malformed` | src/tenhou/log.rs:143-152 | A well-shaped pair whose tuple lacks a numeric entry 0 or 1. `HoraDetailsFailure` and `ReadDetailsMeaning` prove reading fails exactly when such a pair is present. |
| `TenhouLog.IsFourPlayer` | src/tenhou/log.rs:92-94 | The four-player test on the rule text. `RejectsFourPlayer` proves it rejects every record whose text contains "四" or "4-Player", and `AcceptedHeader` that an accepted text contains neither. |
| `TenhouLog.GameLengthOf` | src/tenhou/log.rs:95-99 | The game length from the rule text. `AcceptedHeader` proves it is `Tonpuu` exactly when the text contains "東" or "East". |
| `TenhouLog.HasAka` | src/tenhou/log.rs:100 | The red-five flag. `AcceptedHeader` proves the converted log's flag is set exactly when the four counts sum to a positive number. |
| `Text.Contains` | src/tenhou/log.rs:92-95 | Rust's `str::contains` as a scan from the front. `ContainsOccurs` proves it true exactly when some slice equals the pattern. |
| `TenhouLogProps.RejectsFourPlayer` | src/tenhou/log.rs:92-94 | If the rule text contains "四" or "4-Player", the conversion is `Err(NotThreePlayer)`, whatever the rounds hold. |
| `TenhouLogProps.AcceptedHeader` | src/tenhou/log.rs:92-100 | On success, the rule text has no four-player marker. The game is `Tonpuu` exactly when the text contains "東" or "East". `hasAka` holds exactly when the four counts sum to a positive number. The names are the raw names. |
| `TenhouLogProps.ConvertOutcome` | src/tenhou/log.rs:87-182 | Conversion succeeds exactly when there is no four-player marker and every round's result array is readable. A failure is `NotThreePlayer` when a marker is present, else `InvalidHoraDetail`. It is never `InvalidJson`. |
| `TenhouLogProps.ConvertedRound` | src/tenhou/log.rs:103-173 | On success, round i copies the metadata, scoreboard and dora and ura indicators. Seat j's table is (`haipai_j`, `takes_j`, `discards_j`). The end status is that of its result array. The round count equals the raw round count. |
| `TenhouLogProps.EndStatusCases` | src/tenhou/log.rs:131-170 | With no win tag, the round is a draw. Its changes are the second item's when the first item is a status and the second is a score array, else zero. With a win tag, the round fails exactly when some pair after the tag is malformed. Otherwise it is a win whose details are exactly those read from the pairs after the tag (`HoraDetails`), at most (n-1)/2 of them for n result items. |
| `TenhouLogProps.HoraDetailsFailure` | src/tenhou/log.rs:139-152 | Reading the pairs fails exactly when some pair k (items 2k, 2k+1) is well-shaped but its tuple lacks a numeric entry 0 or 1. |
| `TenhouLogProps.WellShapedPairs` | src/tenhou/log.rs:139-141 | The well-shaped pairs are exactly those at the ascending indices `Positions` lists. There are at most half as many as the items. |
| `TenhouLogProps.HoraDetailsOrder` | src/tenhou/log.rs:139-161 | On success, detail j is the detail of the j-th well-shaped pair. There are as many details as well-shaped pairs. |
| `TenhouLogProps.SingleRon` | src/tenhou/log.rs:136-161 | [win, d, [w, t, ...]] gives a win with the single detail (w mod 256, t mod 256, d). |
| `TenhouLogProps.DoubleRon` | src/tenhou/log.rs:136-161 | [win, d0, [w0, t0], d1, [w1, t1]] gives a win with two details in that order. |
| `TenhouLogProps.NonNumericWinnerRejected` | src/tenhou/log.rs:143-147 | A winner entry that is not a JSON number makes the round `Err(InvalidHoraDetail)`. |
| `TenhouLogProps.TestRuleText` | src/tenhou/log.rs:92-99 | The test record's rule text "三鳳南喰赤" is neither four-player nor East-only. |
| `TenhouLogProps.TestRecordConverts` | src/tenhou/log.rs:191-200 | A record like the test's converts: rule "三鳳南喰赤", red fives on, four names with the last empty, eleven single-win rounds. It gives `Hanchan`, `hasAka`, the same names in order and eleven rounds. |
| `TenhouLog.KeepKyoku` | src/tenhou/log.rs:80 | The filter test applied to a round's (`kyokuNum`, `honba`), the closure given to `retain`. `FilterSelectsMatching` states which rounds it keeps. |
| `TenhouLogProps.FilterSelectsMatching` | src/tenhou/log.rs:78-81 | The filtered rounds are the original rounds at ascending indices. An index is among them exactly when its round passes the test. |
| `TenhouLogProps.FilterIdempotent` | src/tenhou/log.rs:78-81 | Filtering twice with the same test is filtering once. |
| `TenhouLogProps.FilterRejectingAll` | src/tenhou/log.rs:78-81 | A test no round passes leaves no rounds. |
| `TenhouLogProps.FilterAcceptingAll` | src/tenhou/log.rs:78-81 | A test every round passes leaves the rounds unchanged. |
| `Text.ContainsOccurs` | src/tenhou/log.rs:92 | The scanning `Contains` is true exactly when some slice of the string equals the pattern. |
| `Text.NotContained` | src/tenhou/log.rs:95 | A pattern whose first character appears nowhere in the string is not contained. |
| `Seqs.Retained` | src/tenhou/log.rs:79-80 | The result is no longer than the input. Every element of it is in the input and passes the test. |
| `Seqs.Positions` | src/tenhou/log.rs:79-80 | The indices are in range and strictly ascending. An index of the input is listed exactly when its element passes the test. |
| `Seqs.RetainedAtPositions` | src/tenhou/log.rs:79-80 | `Retained` has one element per listed index, and element j is the input at index j. |
| `Seqs.RetainedIdempotent` | src/tenhou/log.rs:79-80 | Retaining twice with the same test is retaining once. |

## Left out

- `Log::from_json_str` and the JSON deserialiser (src/tenhou/log.rs:72-75) are foreign library code and text parsing. The model starts from an already built `RawLog`. So the `InvalidJson` error is declared but never produced here.
- The raw record's source (`json_scheme`), `Tile` and `KyokuFilter` are not part of this model. Tiles, action items and the extra metadata fields are abstract types. The round filter's test is a total function on (round number, repeat count).
- The raw fields the converter never reads are not modelled: version, reference, connection events, ratings and the like.
- Red-five counts are mathematical integers, because their Rust width is not visible. An overflow of their sum is not modelled.
- `Contains` works on characters, while Rust's `str::contains` works on UTF-8 bytes. The two agree for valid UTF-8, because no character's encoding starts inside another's.
- The error display strings, the `#[from]` wrapping of the JSON error and the `Serialize` derive (with `GameLength`'s discriminants 0 and 4) are formatting, not behaviour.
- `Vec::with_capacity` is an allocation hint and has no visible effect.
- `TenhouLog.Log.FilterKyokus`: `retain` shifts elements inside the vector's buffer. The model builds the kept sequence and assigns it to the field. The result is the same but buffer reuse is not captured.
- src/args.rs is command-line plumbing with no logic, and all file I/O is outside the core.
