/** The typed tenhou.net/6 log and its construction from the raw record
    (src/tenhou/log.rs): mode and length detection, per-round assembly,
    classification of each round's result array, and the round filter. */
module TenhouLog {
  import opened Wrappers
  import opened Text
  import opened Seqs
  import opened JsonScheme

  /** The status tag of a round that ended in a win: "和了". */
  const WinStatus: string := "\U{548C}\U{4E86}"
  /** Markers of a four-player game in the rule text: "四" and "4-Player". */
  const FourPlayerKanji: string := "\U{56DB}"
  const FourPlayerEnglish: string := "4-Player"
  /** Markers of an East-only game in the rule text: "東" and "East". */
  const EastKanji: string := "\U{6771}"
  const EastEnglish: string := "East"

  const NoDeltas: Quad := [0, 0, 0, 0]

  type U8 = x: int | 0 <= x < 256

  datatype ParseError = InvalidJson | NotThreePlayer | InvalidHoraDetail

  datatype GameLength = Hanchan | Tonpuu

  /** One winner of a round: the winning seat, the seat paying (the winner
      itself on a self-draw) and the score changes of this win. */
  datatype HoraDetail = HoraDetail(who: U8, target: U8, scoreDeltas: Quad)

  datatype EndStatus = Hora(details: seq<HoraDetail>) | Ryukyoku(scoreDeltas: Quad)

  /** A seat's starting hand, takes and discards. */
  datatype ActionTable = ActionTable(haipai: seq<Tile>, takes: seq<ActionItem>, discards: seq<ActionItem>)

  /** Exactly four action tables, indexed by seat. */
  type Seats = s: seq<ActionTable> | |s| == 4
    witness [ActionTable([], [], []), ActionTable([], [], []), ActionTable([], [], []), ActionTable([], [], [])]

  datatype Kyoku = Kyoku(
    meta: KyokuMeta,
    scoreboard: Quad,
    doraIndicators: seq<Tile>,
    uraIndicators: seq<Tile>,
    actionTables: Seats,
    endStatus: EndStatus)

  /** The value held by a `Log` object. */
  datatype LogRecord = LogRecord(names: Names, gameLength: GameLength, hasAka: bool, kyokus: seq<Kyoku>)

  // ---------------------------------------------------------------------------
  // Rule-text and flag derivations (log.rs lines 92-100)

  predicate IsFourPlayer(disp: string) {
    Contains(disp, FourPlayerKanji) || Contains(disp, FourPlayerEnglish)
  }

  function GameLengthOf(disp: string): GameLength {
    if Contains(disp, EastKanji) || Contains(disp, EastEnglish) then Tonpuu else Hanchan
  }

  predicate HasAka(rule: RawRule) {
    rule.aka + rule.aka51 + rule.aka52 + rule.aka53 > 0
  }

  // ---------------------------------------------------------------------------
  // Per-round assembly (log.rs lines 103-134)

  /** The four seats' parallel lists folded into one table per seat. */
  function ActionTablesOf(log: RawKyoku): Seats {
    [ ActionTable(log.haipai0, log.takes0, log.discards0),
      ActionTable(log.haipai1, log.takes1, log.discards1),
      ActionTable(log.haipai2, log.takes2, log.discards2),
      ActionTable(log.haipai3, log.takes3, log.discards3) ]
  }

  // ---------------------------------------------------------------------------
  // Result-array classification (log.rs lines 136-171)

  /** Two consecutive result items, as `chunks_exact(2)` yields them. */
  datatype Chunk = Chunk(first: ResultItem, second: ResultItem)

  /** The non-overlapping pairs of `items` from the front; an odd last item
      is left over. */
  function ChunksExact2(items: seq<ResultItem>): (cs: seq<Chunk>)
    ensures |cs| == |items| / 2
    ensures forall k :: 0 <= k < |cs| ==> cs[k] == Chunk(items[2 * k], items[2 * k + 1])
  {
    if |items| < 2 then []
    else [Chunk(items[0], items[1])] + ChunksExact2(items[2..])
  }

  /** A pair of the shape the converter reads as a win: score changes, then
      the who/target tuple. Other pairs are passed over. */
  predicate WellShaped(c: Chunk) {
    c.first.ScoreDeltas? && c.second.HoraDetail?
  }

  /** The seat at position `i` of a who/target tuple: missing or not a JSON
      number gives None; a number gives its `as_u64` value (0 when it has
      none) truncated to eight bits. */
  function SeatAt(tuple: seq<JsonValue>, i: nat): Option<U8> {
    if i < |tuple| && tuple[i].Number? then Some(tuple[i].asU64.UnwrapOr(0) % 256) else None
  }

  /** A well-shaped pair whose tuple lacks a numeric winner or target. */
  predicate Malformed(c: Chunk) {
    WellShaped(c) && (SeatAt(c.second.tuple, 0).None? || SeatAt(c.second.tuple, 1).None?)
  }

  function DetailOf(c: Chunk): HoraDetail
    requires WellShaped(c) && !Malformed(c)
  {
    HoraDetail.HoraDetail(SeatAt(c.second.tuple, 0).value, SeatAt(c.second.tuple, 1).value, c.first.deltas)
  }

  /** One detail per chunk, in order. */
  function DetailsOf(cs: seq<Chunk>): (ds: seq<HoraDetail>)
    requires forall c :: c in cs ==> WellShaped(c) && !Malformed(c)
    ensures |ds| == |cs|
    ensures forall j :: 0 <= j < |cs| ==> ds[j] == DetailOf(cs[j])
  {
    if cs == [] then []
    else
      assert forall c :: c in cs[..|cs| - 1] ==> c in cs;
      DetailsOf(cs[..|cs| - 1]) + [DetailOf(cs[|cs| - 1])]
  }

  /** The pairs read in order, as the loop of log.rs 139-160 reads them:
      ill-shaped pairs are passed over, a malformed one stops the reading
      with an error, every other one adds its detail. */
  function ReadDetails(cs: seq<Chunk>): Result<seq<HoraDetail>, ParseError> {
    if cs == [] then Ok([])
    else
      match ReadDetails(cs[..|cs| - 1])
      case Err(e) => Err(e)
      case Ok(ds) =>
        var c := cs[|cs| - 1];
        if !WellShaped(c) then Ok(ds)
        else
          match (SeatAt(c.second.tuple, 0), SeatAt(c.second.tuple, 1))
          case (Some(who), Some(target)) => Ok(ds + [HoraDetail.HoraDetail(who, target, c.first.deltas)])
          case _ => Err(InvalidHoraDetail)
  }

  /** The winners listed after a win tag. */
  function HoraDetails(items: seq<ResultItem>): Result<seq<HoraDetail>, ParseError> {
    ReadDetails(ChunksExact2(items))
  }

  /** How a round ended, read from its result array. */
  function EndStatusOf(results: seq<ResultItem>): Result<EndStatus, ParseError> {
    if |results| > 0 && results[0].Status? then
      if results[0].text == WinStatus then
        match HoraDetails(results[1..])
        case Ok(ds) => Ok(Hora(ds))
        case Err(e) => Err(e)
      else
        Ok(Ryukyoku(if |results| > 1 && results[1].ScoreDeltas? then results[1].deltas else NoDeltas))
    else
      Ok(Ryukyoku(NoDeltas))
  }

  function KyokuOf(log: RawKyoku): Result<Kyoku, ParseError> {
    match EndStatusOf(log.results)
    case Ok(status) =>
      Ok(Kyoku(log.meta, log.scoreboard, log.doraIndicators, log.uraIndicators, ActionTablesOf(log), status))
    case Err(e) => Err(e)
  }

  /** All rounds converted in order; the first failing round fails the lot. */
  function ConvertKyokus(logs: seq<RawKyoku>): Result<seq<Kyoku>, ParseError> {
    if logs == [] then Ok([])
    else
      match ConvertKyokus(logs[..|logs| - 1])
      case Err(e) => Err(e)
      case Ok(ks) =>
        match KyokuOf(logs[|logs| - 1])
        case Err(e) => Err(e)
        case Ok(k) => Ok(ks + [k])
  }

  /** The whole conversion of a raw record into a log value. */
  function Convert(raw: RawLog): Result<LogRecord, ParseError> {
    if IsFourPlayer(raw.rule.disp) then Err(NotThreePlayer)
    else
      match ConvertKyokus(raw.logs)
      case Err(e) => Err(e)
      case Ok(ks) => Ok(LogRecord(raw.names, GameLengthOf(raw.rule.disp), HasAka(raw.rule), ks))
  }

  /** Test of the round filter on a round's number and repeat count. */
  function KeepKyoku(f: (int, int) -> bool): Kyoku -> bool {
    (k: Kyoku) => f(k.meta.kyokuNum, k.meta.honba)
  }

  // ---------------------------------------------------------------------------
  // Properties of the converter used by its implementation

  /** A result array is rejected only after a win tag, and only with
      `InvalidHoraDetail`. */
  lemma EndStatusFailure(results: seq<ResultItem>)
    ensures EndStatusOf(results).Err? ==>
              |results| > 0 && results[0] == Status(WinStatus) &&
              EndStatusOf(results).error == InvalidHoraDetail
  {
    if |results| > 0 && results[0] == Status(WinStatus) {
      ReadDetailsMeaning(ChunksExact2(results[1..]));
    }
  }

  /** A round converts exactly when its result array does. */
  lemma {:induction false} ConvertKyokusShape(logs: seq<RawKyoku>)
    ensures ConvertKyokus(logs).Ok? <==> forall i :: 0 <= i < |logs| ==> EndStatusOf(logs[i].results).Ok?
    ensures ConvertKyokus(logs).Err? ==> ConvertKyokus(logs).error == InvalidHoraDetail
    ensures ConvertKyokus(logs).Ok? ==>
              |ConvertKyokus(logs).value| == |logs| &&
              forall i :: 0 <= i < |logs| ==> ConvertKyokus(logs).value[i] == KyokuOf(logs[i]).value
  {
    if logs != [] {
      var n := |logs| - 1;
      ConvertKyokusShape(logs[..n]);
      EndStatusFailure(logs[n].results);
      assert forall i :: 0 <= i < n ==> logs[..n][i] == logs[i];
      if ConvertKyokus(logs[..n]).Ok? && KyokuOf(logs[n]).Ok? {
        var ks := ConvertKyokus(logs[..n]).value;
        assert ConvertKyokus(logs).value == ks + [KyokuOf(logs[n]).value];
      }
    }
  }

  // ---------------------------------------------------------------------------
  // The executable converter

  /** What reading the pairs means: it fails, always with
      `InvalidHoraDetail`, exactly when some pair is malformed; otherwise it
      yields one detail per well-shaped pair, in pair order. */
  lemma {:induction false} ReadDetailsMeaning(cs: seq<Chunk>)
    ensures ReadDetails(cs).Err? <==> exists c :: c in cs && Malformed(c)
    ensures ReadDetails(cs).Err? ==> ReadDetails(cs).error == InvalidHoraDetail
    ensures ReadDetails(cs).Ok? ==>
              (forall c :: c in cs ==> !Malformed(c)) &&
              ReadDetails(cs).value == DetailsOf(Retained(cs, WellShaped))
  {
    if cs != [] {
      var n := |cs| - 1;
      var front, c := cs[..n], cs[n];
      assert cs == front + [c];
      ReadDetailsMeaning(front);
      RetainedSnoc(front, c, WellShaped);
      if ReadDetails(front).Ok? && !Malformed(c) && WellShaped(c) {
        var kept := Retained(front, WellShaped);
        assert (kept + [c])[..|kept|] == kept;
      }
    }
  }

  /** Once reading has failed, reading further pairs fails the same way. */
  lemma {:induction false} ReadDetailsErrSticky(cs: seq<Chunk>, k: nat)
    requires k <= |cs| && ReadDetails(cs[..k]).Err?
    ensures ReadDetails(cs) == ReadDetails(cs[..k])
    decreases |cs| - k
  {
    if k < |cs| {
      assert cs[..k + 1][..k] == cs[..k];
      ReadDetailsErrSticky(cs, k + 1);
    } else {
      assert cs[..k] == cs;
    }
  }

  /** The loop over the pairs after a win tag (log.rs 138-160): stops with an
      error at the first malformed well-shaped pair. */
  method HoraDetailsFrom(rest: seq<ResultItem>) returns (r: Result<seq<HoraDetail>, ParseError>)
    ensures r == HoraDetails(rest)
  {
    ghost var chunks := ChunksExact2(rest);
    var details: seq<HoraDetail> := [];
    var k := 0;
    while k < |rest| / 2
      invariant 0 <= k <= |rest| / 2
      invariant ReadDetails(chunks[..k]) == Ok(details)
    {
      var chunk := Chunk(rest[2 * k], rest[2 * k + 1]);
      assert chunk == chunks[k] && chunks[..k + 1][..k] == chunks[..k];
      if chunk.first.ScoreDeltas? && chunk.second.HoraDetail? {
        var tuple := chunk.second.tuple;
        if !(|tuple| > 0 && tuple[0].Number?) {
          ReadDetailsErrSticky(chunks, k + 1);
          return Err(InvalidHoraDetail);
        }
        var who := tuple[0].asU64.UnwrapOr(0) % 256;
        if !(|tuple| > 1 && tuple[1].Number?) {
          ReadDetailsErrSticky(chunks, k + 1);
          return Err(InvalidHoraDetail);
        }
        var target := tuple[1].asU64.UnwrapOr(0) % 256;
        details := details + [HoraDetail.HoraDetail(who, target, chunk.first.deltas)];
      }
      k := k + 1;
    }
    assert chunks[..k] == chunks;
    r := Ok(details);
  }

  /** Reads one round's result array into its end status (log.rs 131-171). */
  method EndStatusFromResults(results: seq<ResultItem>) returns (r: Result<EndStatus, ParseError>)
    ensures r == EndStatusOf(results)
  {
    r := Ok(Ryukyoku(NoDeltas));
    if |results| > 0 && results[0].Status? {
      if results[0].text == WinStatus {
        var details := HoraDetailsFrom(results[1..]);
        match details
        case Err(e) => return Err(e);
        case Ok(ds) => r := Ok(Hora(ds));
      } else {
        var scoreDeltas := if |results| > 1 && results[1].ScoreDeltas? then results[1].deltas else NoDeltas;
        r := Ok(Ryukyoku(scoreDeltas));
      }
    }
  }

  /** A converted log (`struct Log`). The round list is the only part that
      changes after construction. */
  class Log {
    var names: Names
    var gameLength: GameLength
    var hasAka: bool
    var kyokus: seq<Kyoku>

    function Record(): LogRecord
      reads this
    {
      LogRecord(names, gameLength, hasAka, kyokus)
    }

    constructor (r: LogRecord)
      ensures Record() == r
    {
      names, gameLength, hasAka, kyokus := r.names, r.gameLength, r.hasAka, r.kyokus;
    }

    /** `TryFrom<RawLog> for Log` (log.rs 87-182). */
    static method TryFrom(raw: RawLog) returns (r: Result<Log, ParseError>)
      ensures Convert(raw).Err? ==> r == Err(Convert(raw).error)
      ensures Convert(raw).Ok? ==> r.Ok? && fresh(r.value) && r.value.Record() == Convert(raw).value
    {
      var disp := raw.rule.disp;
      if Contains(disp, FourPlayerKanji) || Contains(disp, FourPlayerEnglish) {
        return Err(NotThreePlayer);
      }
      var gameLength := if Contains(disp, EastKanji) || Contains(disp, EastEnglish) then Tonpuu else Hanchan;
      var hasAka := raw.rule.aka + raw.rule.aka51 + raw.rule.aka52 + raw.rule.aka53 > 0;

      var kyokus: seq<Kyoku> := [];
      var i := 0;
      while i < |raw.logs|
        invariant 0 <= i <= |raw.logs|
        invariant ConvertKyokus(raw.logs[..i]) == Ok(kyokus)
      {
        var log := raw.logs[i];
        var kyoku := Kyoku(log.meta, log.scoreboard, log.doraIndicators, log.uraIndicators,
                           ActionTablesOf(log), Ryukyoku(NoDeltas));
        var status := EndStatusFromResults(log.results);
        if status.Err? {
          ConvertKyokusShape(raw.logs);
          EndStatusFailure(log.results);
          return Err(status.error);
        }
        kyoku := kyoku.(endStatus := status.value);
        assert raw.logs[..i + 1][..i] == raw.logs[..i];
        kyokus := kyokus + [kyoku];
        i := i + 1;
      }
      assert raw.logs[..i] == raw.logs;
      var log := new Log(LogRecord(raw.names, gameLength, hasAka, kyokus));
      return Ok(log);
    }

    /** `Log::filter_kyokus` (log.rs 78-81): keeps, in order, exactly the
        rounds whose number and repeat count pass `f`. */
    method FilterKyokus(f: (int, int) -> bool)
      modifies this`kyokus
      ensures kyokus == Retained(old(kyokus), KeepKyoku(f))
      ensures names == old(names) && gameLength == old(gameLength) && hasAka == old(hasAka)
    {
      var kept: seq<Kyoku> := [];
      var i := 0;
      while i < |kyokus|
        invariant 0 <= i <= |kyokus|
        invariant kept == Retained(kyokus[..i], KeepKyoku(f))
      {
        assert kyokus[..i + 1][..i] == kyokus[..i];
        if f(kyokus[i].meta.kyokuNum, kyokus[i].meta.honba) {
          kept := kept + [kyokus[i]];
        }
        i := i + 1;
      }
      assert kyokus[..i] == kyokus;
      kyokus := kept;
    }
  }
}
