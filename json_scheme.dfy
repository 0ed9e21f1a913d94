/** The deserialised tenhou.net/6 record the converter starts from. Only the
    parts the converter reads are given structure; tiles, action items and the
    round metadata beyond the round number and repeat count are copied
    verbatim, so they stay abstract. */
module JsonScheme {
  import opened Wrappers

  /** A tile code (`crate::Tile`). */
  type Tile

  /** One entry of a take or discard list: a tile or a call string. */
  type ActionItem

  /** The round metadata fields other than the round number and repeat count. */
  type MetaRest

  type I32 = x: int | -0x8000_0000 <= x < 0x8000_0000
  type U64 = x: int | 0 <= x < 0x1_0000_0000_0000_0000

  /** A four-seat array of 32-bit scores or score changes (`[i32; 4]`). */
  type Quad = s: seq<I32> | |s| == 4 witness [0, 0, 0, 0]

  /** The four player names (`[String; 4]`). */
  type Names = s: seq<string> | |s| == 4 witness ["", "", "", ""]

  /** A JSON value, seen only as far as the converter inspects it: a number
      carries what `Number::as_u64` gives (None for a negative or fractional
      number); every other kind of value is `Other`. */
  datatype JsonValue = Number(asU64: Option<U64>) | Other

  /** One element of a round's heterogeneous result array. */
  datatype ResultItem =
    | Status(text: string)
    | ScoreDeltas(deltas: Quad)
    | HoraDetail(tuple: seq<JsonValue>)

  datatype KyokuMeta = KyokuMeta(kyokuNum: int, honba: int, rest: MetaRest)

  /** The rule descriptor: the free-text display string and the red-five counts. */
  datatype RawRule = RawRule(disp: string, aka: int, aka51: int, aka52: int, aka53: int)

  /** One raw round: metadata, scores, indicators, the twelve parallel
      per-seat lists (suffix = seat) and the result array. */
  datatype RawKyoku = RawKyoku(
    meta: KyokuMeta,
    scoreboard: Quad,
    doraIndicators: seq<Tile>,
    uraIndicators: seq<Tile>,
    haipai0: seq<Tile>, takes0: seq<ActionItem>, discards0: seq<ActionItem>,
    haipai1: seq<Tile>, takes1: seq<ActionItem>, discards1: seq<ActionItem>,
    haipai2: seq<Tile>, takes2: seq<ActionItem>, discards2: seq<ActionItem>,
    haipai3: seq<Tile>, takes3: seq<ActionItem>, discards3: seq<ActionItem>,
    results: seq<ResultItem>)

  /** The raw record: rounds, names and rule (version, reference, connection
      events and ratings are not read by the converter). */
  datatype RawLog = RawLog(logs: seq<RawKyoku>, names: Names, rule: RawRule)
}
