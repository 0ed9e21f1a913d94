/** What the conversion of a raw tenhou.net/6 record and the round filter
    guarantee, stated over the specification functions of `TenhouLog`. */
module TenhouLogProps {
  import opened Wrappers
  import opened Text
  import opened Seqs
  import opened JsonScheme
  import opened TenhouLog

  /** The pair of result items starting at `1 + 2 * k` in a result array. */
  function PairAfterTag(results: seq<ResultItem>, k: nat): Chunk
    requires 2 + 2 * k < |results|
  {
    Chunk(results[1 + 2 * k], results[2 + 2 * k])
  }

  // ---------------------------------------------------------------------------
  // Rule text and flags

  /** A four-player marker anywhere in the rule text rejects the record,
      whatever its rounds hold. */
  lemma RejectsFourPlayer(raw: RawLog)
    requires Occurs(raw.rule.disp, FourPlayerKanji) || Occurs(raw.rule.disp, FourPlayerEnglish)
    ensures Convert(raw) == Err(NotThreePlayer)
  {
    ContainsOccurs(raw.rule.disp, FourPlayerKanji);
    ContainsOccurs(raw.rule.disp, FourPlayerEnglish);
  }

  /** An accepted record has no four-player marker, is East-only exactly when
      the rule text carries an East marker, has red fives exactly when the
      four counts add up to a positive number, and keeps its names. */
  lemma AcceptedHeader(raw: RawLog)
    requires Convert(raw).Ok?
    ensures !Occurs(raw.rule.disp, FourPlayerKanji) && !Occurs(raw.rule.disp, FourPlayerEnglish)
    ensures Convert(raw).value.gameLength == Tonpuu <==>
              Occurs(raw.rule.disp, EastKanji) || Occurs(raw.rule.disp, EastEnglish)
    ensures Convert(raw).value.hasAka <==>
              raw.rule.aka + raw.rule.aka51 + raw.rule.aka52 + raw.rule.aka53 > 0
    ensures Convert(raw).value.names == raw.names
  {
    ContainsOccurs(raw.rule.disp, FourPlayerKanji);
    ContainsOccurs(raw.rule.disp, FourPlayerEnglish);
    ContainsOccurs(raw.rule.disp, EastKanji);
    ContainsOccurs(raw.rule.disp, EastEnglish);
  }

  // ---------------------------------------------------------------------------
  // Whole-record outcome and per-round copying

  /** The conversion succeeds exactly when the rule text has no four-player
      marker and every round's result array is readable; a failure is
      `NotThreePlayer` when a marker is present and `InvalidHoraDetail`
      otherwise, so one bad round loses the whole record. */
  lemma ConvertOutcome(raw: RawLog)
    ensures Convert(raw).Ok? <==>
              !Occurs(raw.rule.disp, FourPlayerKanji) && !Occurs(raw.rule.disp, FourPlayerEnglish) &&
              forall i :: 0 <= i < |raw.logs| ==> EndStatusOf(raw.logs[i].results).Ok?
    ensures Convert(raw).Err? ==>
              Convert(raw).error ==
                if Occurs(raw.rule.disp, FourPlayerKanji) || Occurs(raw.rule.disp, FourPlayerEnglish)
                then NotThreePlayer else InvalidHoraDetail
  {
    ContainsOccurs(raw.rule.disp, FourPlayerKanji);
    ContainsOccurs(raw.rule.disp, FourPlayerEnglish);
    ConvertKyokusShape(raw.logs);
  }

  /** An accepted record has one round per raw round, in order; each round
      copies the metadata, scores and indicators, gives seat j the hand,
      takes and discards with suffix j, and ends as its result array says. */
  lemma ConvertedRound(raw: RawLog, i: nat)
    requires Convert(raw).Ok? && i < |raw.logs|
    ensures |Convert(raw).value.kyokus| == |raw.logs|
    ensures var k, log := Convert(raw).value.kyokus[i], raw.logs[i];
      && k.meta == log.meta
      && k.scoreboard == log.scoreboard
      && k.doraIndicators == log.doraIndicators
      && k.uraIndicators == log.uraIndicators
      && k.actionTables[0] == ActionTable(log.haipai0, log.takes0, log.discards0)
      && k.actionTables[1] == ActionTable(log.haipai1, log.takes1, log.discards1)
      && k.actionTables[2] == ActionTable(log.haipai2, log.takes2, log.discards2)
      && k.actionTables[3] == ActionTable(log.haipai3, log.takes3, log.discards3)
      && EndStatusOf(log.results).Ok?
      && k.endStatus == EndStatusOf(log.results).value
  {
    ConvertKyokusShape(raw.logs);
  }

  // ---------------------------------------------------------------------------
  // Result-array classification

  /** The four ways a round can end: without a win tag it is a draw (with the
      second item's score changes only when the first item is a status and
      the second one is a score array, zero changes otherwise); with a win tag
      it is rejected exactly when some pair after the tag is malformed, and
      otherwise it is a win holding the details read from those pairs, at
      most one per pair. */
  lemma {:induction false} EndStatusCases(results: seq<ResultItem>)
    ensures !(|results| > 0 && results[0] == Status(WinStatus)) ==>
              EndStatusOf(results) ==
                Ok(Ryukyoku(if |results| > 1 && results[0].Status? && results[1].ScoreDeltas?
                            then results[1].deltas else NoDeltas))
    ensures |results| > 0 && results[0] == Status(WinStatus) ==>
              (EndStatusOf(results).Err? <==>
                 exists k :: 0 <= k && 2 + 2 * k < |results| && Malformed(PairAfterTag(results, k)))
    ensures |results| > 0 && results[0] == Status(WinStatus) && EndStatusOf(results).Ok? ==>
              EndStatusOf(results).value.Hora? &&
              |EndStatusOf(results).value.details| <= (|results| - 1) / 2
    ensures |results| > 0 && results[0] == Status(WinStatus) && EndStatusOf(results).Ok? ==>
              EndStatusOf(results).value == Hora(HoraDetails(results[1..]).value)
  {
    if |results| > 0 && results[0] == Status(WinStatus) {
      var items := results[1..];
      HoraDetailsFailure(items);
      WellShapedPairs(items);
      if EndStatusOf(results).Ok? {
        HoraDetailsOrder(items);
      }
      forall k | 0 <= k && 2 + 2 * k < |results|
        ensures PairAfterTag(results, k) == Chunk(items[2 * k], items[2 * k + 1])
      {
      }
    }
  }

  /** Reading the pairs after a win tag fails exactly when one of the pairs
      is well-shaped but lacks a numeric winner or target. */
  lemma HoraDetailsFailure(items: seq<ResultItem>)
    ensures HoraDetails(items).Err? <==>
              exists k :: 0 <= k < |items| / 2 && Malformed(Chunk(items[2 * k], items[2 * k + 1]))
  {
    var cs := ChunksExact2(items);
    ReadDetailsMeaning(cs);
    if exists c :: c in cs && Malformed(c) {
      var c :| c in cs && Malformed(c);
      var k :| 0 <= k < |cs| && cs[k] == c;
      assert Malformed(Chunk(items[2 * k], items[2 * k + 1]));
    }
    if exists k :: 0 <= k < |items| / 2 && Malformed(Chunk(items[2 * k], items[2 * k + 1])) {
      var k :| 0 <= k < |items| / 2 && Malformed(Chunk(items[2 * k], items[2 * k + 1]));
      assert cs[k] in cs;
    }
  }

  /** The well-shaped pairs after a win tag are the pairs at the indices
      `Positions` lists, in ascending order. */
  lemma WellShapedPairs(items: seq<ResultItem>)
    ensures var cs, p := ChunksExact2(items), Positions(ChunksExact2(items), WellShaped);
      && |p| <= |items| / 2
      && (forall k :: 0 <= k < |cs| ==> (WellShaped(cs[k]) <==> k in p))
      && (forall j :: 0 <= j < |p| - 1 ==> p[j] < p[j + 1])
  {
    var cs, p := ChunksExact2(items), Positions(ChunksExact2(items), WellShaped);
    RetainedAtPositions(cs, WellShaped);
  }

  /** A successful reading lists, in pair order, one detail for each
      well-shaped pair and none for the others; winner and target are the
      tuple's first two numbers cut to eight bits (`DetailOf`). */
  lemma HoraDetailsOrder(items: seq<ResultItem>)
    requires HoraDetails(items).Ok?
    ensures var ds, cs, p := HoraDetails(items).value, ChunksExact2(items), Positions(ChunksExact2(items), WellShaped);
      && |ds| == |p|
      && forall j :: 0 <= j < |p| ==>
           p[j] < |cs| && !Malformed(cs[p[j]]) && ds[j] == DetailOf(cs[p[j]])
  {
    var cs := ChunksExact2(items);
    var ds, p := HoraDetails(items).value, Positions(cs, WellShaped);
    ReadDetailsMeaning(cs);
    RetainedAtPositions(cs, WellShaped);
    var kept := Retained(cs, WellShaped);
    assert ds == DetailsOf(kept);
    forall j | 0 <= j < |p|
      ensures p[j] < |cs| && !Malformed(cs[p[j]]) && ds[j] == DetailOf(cs[p[j]])
    {
      assert kept[j] == cs[p[j]];
      assert cs[p[j]] in cs;
    }
  }

  /** One winner: `[win, d, [w, t, ...]]` gives one detail; what follows the
      two seats in the tuple (fu, han and yaku texts) is not read. */
  lemma SingleRon(d: Quad, tuple: seq<JsonValue>, w: U64, t: U64)
    requires |tuple| >= 2 && tuple[0] == Number(Some(w)) && tuple[1] == Number(Some(t))
    ensures EndStatusOf([Status(WinStatus), ScoreDeltas(d), ResultItem.HoraDetail(tuple)])
            == Ok(Hora([HoraDetail.HoraDetail(w % 256, t % 256, d)]))
  {
    var rs := [Status(WinStatus), ScoreDeltas(d), ResultItem.HoraDetail(tuple)];
    var c := Chunk(rs[1], rs[2]);
    assert ChunksExact2(rs[1..]) == [c];
    assert [c][..|[c]| - 1] == [] && ReadDetails([]) == Ok([]);
    assert SeatAt(c.second.tuple, 0) == Some(w % 256) && SeatAt(c.second.tuple, 1) == Some(t % 256);
    var hd := HoraDetail.HoraDetail(w % 256, t % 256, d);
    assert ReadDetails([c]).value == [] + [hd] == [hd];
  }

  /** Two winners off one discard keep their order. */
  lemma DoubleRon(d0: Quad, w0: U64, t0: U64, d1: Quad, w1: U64, t1: U64)
    ensures EndStatusOf([Status(WinStatus),
                         ScoreDeltas(d0), ResultItem.HoraDetail([Number(Some(w0)), Number(Some(t0))]),
                         ScoreDeltas(d1), ResultItem.HoraDetail([Number(Some(w1)), Number(Some(t1))])])
            == Ok(Hora([HoraDetail.HoraDetail(w0 % 256, t0 % 256, d0),
                        HoraDetail.HoraDetail(w1 % 256, t1 % 256, d1)]))
  {
    var rs := [Status(WinStatus),
               ScoreDeltas(d0), ResultItem.HoraDetail([Number(Some(w0)), Number(Some(t0))]),
               ScoreDeltas(d1), ResultItem.HoraDetail([Number(Some(w1)), Number(Some(t1))])];
    var c0, c1 := Chunk(rs[1], rs[2]), Chunk(rs[3], rs[4]);
    assert rs[1..][2..] == rs[3..];
    assert ChunksExact2(rs[3..]) == [c1];
    assert ChunksExact2(rs[1..]) == [c0, c1];
    assert [c0, c1][..|[c0, c1]| - 1] == [c0] && [c0][..|[c0]| - 1] == [];
    assert SeatAt(c0.second.tuple, 0) == Some(w0 % 256) && SeatAt(c0.second.tuple, 1) == Some(t0 % 256);
    assert SeatAt(c1.second.tuple, 0) == Some(w1 % 256) && SeatAt(c1.second.tuple, 1) == Some(t1 % 256);
    var hd0, hd1 := HoraDetail.HoraDetail(w0 % 256, t0 % 256, d0), HoraDetail.HoraDetail(w1 % 256, t1 % 256, d1);
    assert ReadDetails([]) == Ok([]);
    assert ReadDetails([c0]).value == [] + [hd0] == [hd0];
    assert ReadDetails([c0, c1]).value == [hd0] + [hd1] == [hd0, hd1];
  }

  /** A winner given as a string rejects the round, and hence the record. */
  lemma NonNumericWinnerRejected(d: Quad, t: U64)
    ensures EndStatusOf([Status(WinStatus), ScoreDeltas(d), ResultItem.HoraDetail([Other, Number(Some(t))])])
            == Err(InvalidHoraDetail)
  {
    var rs := [Status(WinStatus), ScoreDeltas(d), ResultItem.HoraDetail([Other, Number(Some(t))])];
    var c := Chunk(rs[1], rs[2]);
    assert ChunksExact2(rs[1..]) == [c];
    assert [c][..|[c]| - 1] == [] && ReadDetails([]) == Ok([]);
    assert ReadDetails([c]) == Err(InvalidHoraDetail);
  }

  /** A result array holding one win whose tuple starts with two u64 seats. */
  ghost predicate IsSingleRon(results: seq<ResultItem>) {
    exists d: Quad, tuple: seq<JsonValue>, w: U64, t: U64 ::
      && results == [Status(WinStatus), ScoreDeltas(d), ResultItem.HoraDetail(tuple)]
      && |tuple| >= 2 && tuple[0] == Number(Some(w)) && tuple[1] == Number(Some(t))
  }

  /** The repository's own record: rule text "三鳳南喰赤" (three-player,
      South game, red fives) with three red-five counts set, four names of
      which the last is empty, and eleven rounds each won by one player. It
      converts into a half-game with red fives, the same four names in the
      same order, and eleven rounds. */
  lemma TestRecordConverts(raw: RawLog)
    requires raw.rule == RawRule("\U{4E09}\U{9CF3}\U{5357}\U{55B0}\U{8D64}", 0, 1, 1, 1)
    requires raw.names == ["mtk", "\U{3064}\U{304F}\U{306D}\U{3093}3", "\U{3072}\U{3050}\U{304A}3", ""]
    requires |raw.logs| == 11
    requires forall i :: 0 <= i < |raw.logs| ==> IsSingleRon(raw.logs[i].results)
    ensures Convert(raw).Ok?
    ensures Convert(raw).value.names == raw.names && Convert(raw).value.names[3] == ""
    ensures |Convert(raw).value.kyokus| == 11
    ensures Convert(raw).value.gameLength == Hanchan && Convert(raw).value.hasAka
  {
    forall i | 0 <= i < |raw.logs|
      ensures EndStatusOf(raw.logs[i].results).Ok?
    {
      assert IsSingleRon(raw.logs[i].results);
      var d: Quad, tuple: seq<JsonValue>, w: U64, t: U64 :|
        && raw.logs[i].results == [Status(WinStatus), ScoreDeltas(d), ResultItem.HoraDetail(tuple)]
        && |tuple| >= 2 && tuple[0] == Number(Some(w)) && tuple[1] == Number(Some(t));
      SingleRon(d, tuple, w, t);
    }
    ConvertKyokusShape(raw.logs);
    TestRuleText();
  }

  /** "三鳳南喰赤" has neither a four-player nor an East marker. */
  lemma TestRuleText()
    ensures !IsFourPlayer("\U{4E09}\U{9CF3}\U{5357}\U{55B0}\U{8D64}")
    ensures GameLengthOf("\U{4E09}\U{9CF3}\U{5357}\U{55B0}\U{8D64}") == Hanchan
  {
    var s := "\U{4E09}\U{9CF3}\U{5357}\U{55B0}\U{8D64}";
    NotContained(s, FourPlayerKanji);
    NotContained(s, FourPlayerEnglish);
    NotContained(s, EastKanji);
    NotContained(s, EastEnglish);
  }

  // ---------------------------------------------------------------------------
  // Round filter

  /** The filter keeps, in their original order, exactly the rounds whose
      round number and repeat count pass the test. */
  lemma {:induction false} FilterSelectsMatching(ks: seq<Kyoku>, f: (int, int) -> bool)
    ensures var r, p := Retained(ks, KeepKyoku(f)), Positions(ks, KeepKyoku(f));
      && |r| == |p|
      && (forall j :: 0 <= j < |p| ==> p[j] < |ks| && r[j] == ks[p[j]])
      && (forall j :: 0 <= j < |p| - 1 ==> p[j] < p[j + 1])
      && (forall i :: 0 <= i < |ks| ==> (i in p <==> f(ks[i].meta.kyokuNum, ks[i].meta.honba)))
  {
    RetainedAtPositions(ks, KeepKyoku(f));
  }

  /** Filtering again with the same test changes nothing. */
  lemma FilterIdempotent(ks: seq<Kyoku>, f: (int, int) -> bool)
    ensures Retained(Retained(ks, KeepKyoku(f)), KeepKyoku(f)) == Retained(ks, KeepKyoku(f))
  {
    RetainedIdempotent(ks, KeepKyoku(f));
  }

  /** A test that no round passes empties the round list. */
  lemma {:induction false} FilterRejectingAll(ks: seq<Kyoku>, f: (int, int) -> bool)
    requires forall n, h :: !f(n, h)
    ensures Retained(ks, KeepKyoku(f)) == []
  {
    RetainedNone(ks, KeepKyoku(f));
  }

  /** A test that every round passes leaves the round list as it was. */
  lemma {:induction false} FilterAcceptingAll(ks: seq<Kyoku>, f: (int, int) -> bool)
    requires forall n, h :: f(n, h)
    ensures Retained(ks, KeepKyoku(f)) == ks
  {
    RetainedAll(ks, KeepKyoku(f));
  }
}
