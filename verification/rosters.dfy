/**
 * Roster arithmetic and filters (script/leagues/rosters.py): the exact
 * fantasy-point values of `RosterTotalPoints`, the waiver-data JSON of
 * `RosterWaiverData.to_json`, and the player-database filters of
 * `RosterPlayers`, with the database passed in as a map.
 */
module Rosters {
  import opened Wrappers
  import opened PyText
  import opened Players

  /**
   * A roster's `settings` object as far as these classes read it: integer
   * values, or None for JSON null. A missing key also reads as None.
   */
  type Settings = map<string, Option<int>>

  // ---------------------------------------------------------------------------
  // RosterTotalPoints

  datatype TotalPoints = TotalPoints(
    fptsDecimal: Option<int>,
    fptsAgainstDecimal: Option<int>,
    fptsAgainst: Option<int>,
    fpts: Option<int>,
    pptsDecimal: Option<int>,
    ppts: Option<int>)

  /** `RosterTotalPoints.__init__`: each field is its key's value, or None when the key is missing. */
  function TotalPointsFrom(settings: Settings): (tp: TotalPoints)
    ensures tp.fptsDecimal == (if "fpts_decimal" in settings then settings["fpts_decimal"] else None)
    ensures tp.fptsAgainstDecimal == (if "fpts_against_decimal" in settings then settings["fpts_against_decimal"] else None)
    ensures tp.fptsAgainst == (if "fpts_against" in settings then settings["fpts_against"] else None)
    ensures tp.fpts == (if "fpts" in settings then settings["fpts"] else None)
    ensures tp.pptsDecimal == (if "ppts_decimal" in settings then settings["ppts_decimal"] else None)
    ensures tp.ppts == (if "ppts" in settings then settings["ppts"] else None)
  {
    TotalPoints(
      Get(settings, "fpts_decimal"),
      Get(settings, "fpts_against_decimal"),
      Get(settings, "fpts_against"),
      Get(settings, "fpts"),
      Get(settings, "ppts_decimal"),
      Get(settings, "ppts"))
  }

  /** `Decimal(...)` was given text that is not a number. */
  datatype PointsError = InvalidOperation

  /** `str(x)` of a settings value: `str(None)` is "None", and an integer's text reads back as it. */
  function SettingText(x: Option<int>): (t: string)
    ensures x.None? ==> t == "None"
    ensures x.Some? ==> ParseDecimal(t) == Some(x.value as real)
  {
    match x
    case None => "None"
    case Some(i) =>
      IntLiteralRoundTrip(i);
      PyStr(i)
  }

  /** Neither "None" nor ".None" is a decimal literal. */
  lemma NoneIsNotDecimal()
    ensures ParseDecimal("None") == None
    ensures ParseDecimal(".None") == None
  {
    assert !IsDigit("None"[0]);
    assert "None"[..IndexOfDot("None")] == "None";
    var s := ".None";
    assert IndexOfDot(s) == 0;
    assert s[1..] == "None";
  }

  /** What `Decimal` makes of the two literals built from settings values. */
  lemma SettingLiterals(whole: Option<int>, decimals: Option<int>)
    ensures ParseDecimal(SettingText(whole))
            == (if whole.Some? then Some(whole.value as real) else None)
    ensures ParseDecimal("." + SettingText(decimals))
            == (if decimals.Some? && decimals.value >= 0
                then Some(decimals.value as real / Pow10(NumDigits(decimals.value)) as real)
                else None)
  {
    NoneIsNotDecimal();
    if whole.Some? {
      IntLiteralRoundTrip(whole.value);
    }
    if decimals.Some? && decimals.value >= 0 {
      FractionLiteral(decimals.value);
    }
    if decimals.Some? && decimals.value < 0 {
      NegativeFractionLiteral(decimals.value);
    }
  }

  /**
   * `Decimal(str(whole)) + Decimal('.' + str(decimals))`, the exact value
   * before the final `float(...)`. It raises InvalidOperation exactly when a
   * part is None or the decimals are negative; otherwise the decimals are the
   * digits written after the point: whole + decimals / 10^(digit count).
   */
  function ExactPoints(whole: Option<int>, decimals: Option<int>): (r: Result<real, PointsError>)
    ensures r.Success? <==> whole.Some? && decimals.Some? && decimals.value >= 0
    ensures r.Success? ==> r.value == whole.value as real
                                      + decimals.value as real / Pow10(NumDigits(decimals.value)) as real
  {
    SettingLiterals(whole, decimals);
    match (ParseDecimal(SettingText(whole)), ParseDecimal("." + SettingText(decimals)))
    case (Some(a), Some(b)) => Success(a + b)
    case _ => Failure(InvalidOperation)
  }

  /** `get_fantasy_points_scored`, before the conversion to float: fpts with fpts_decimal after the point. */
  function FantasyPointsScored(tp: TotalPoints): (r: Result<real, PointsError>)
    ensures r.Success? <==> tp.fpts.Some? && tp.fptsDecimal.Some? && tp.fptsDecimal.value >= 0
    ensures r.Success? ==> r.value == tp.fpts.value as real
                                      + tp.fptsDecimal.value as real / Pow10(NumDigits(tp.fptsDecimal.value)) as real
  {
    ExactPoints(tp.fpts, tp.fptsDecimal)
  }

  /** `get_fantasy_points_allowed`, before the conversion to float: the same formula over the `_against` settings. */
  function FantasyPointsAllowed(tp: TotalPoints): (r: Result<real, PointsError>)
    ensures r.Success? <==> tp.fptsAgainst.Some? && tp.fptsAgainstDecimal.Some? && tp.fptsAgainstDecimal.value >= 0
    ensures r.Success? ==> r.value == tp.fptsAgainst.value as real
                                      + tp.fptsAgainstDecimal.value as real
                                        / Pow10(NumDigits(tp.fptsAgainstDecimal.value)) as real
  {
    ExactPoints(tp.fptsAgainst, tp.fptsAgainstDecimal)
  }

  /** The example of the rosters endpoint: fpts 1617 and fpts_decimal 78 give 1617.78. */
  lemma ScoredExample(tp: TotalPoints)
    requires tp.fpts == Some(1617) && tp.fptsDecimal == Some(78)
    ensures FantasyPointsScored(tp) == Success(1617.78)
  {
    assert NumDigits(78) == 2;
    assert Pow10(2) == 100;
  }

  /**
   * The decimals are "." followed by their digits as written: 5 contributes
   * .5 (not .05), so 5 and 50 give the same value.
   */
  lemma DecimalsAsWritten(whole: int)
    ensures ExactPoints(Some(whole), Some(5)) == Success(whole as real + 0.5)
    ensures ExactPoints(Some(whole), Some(50)) == ExactPoints(Some(whole), Some(5))
    ensures ExactPoints(Some(whole), Some(5)) != ExactPoints(Some(whole), Some(7))
  {
    assert NumDigits(5) == 1 && NumDigits(7) == 1 && NumDigits(50) == 2;
    assert Pow10(1) == 10 && Pow10(2) == 100;
    assert 5 as real / 10 as real == 0.5;
    assert 50 as real / 100 as real == 0.5;
    assert 7 as real / 10 as real == 0.7;
  }

  /** The decimals add less than one point: whole <= result < whole + 1. */
  lemma PointsBounds(whole: int, decimals: nat)
    ensures ExactPoints(Some(whole), Some(decimals)).Success?
    ensures whole as real <= ExactPoints(Some(whole), Some(decimals)).value < whole as real + 1.0
  {
    BelowPow10(decimals);
    FractionBelowOne(decimals, Pow10(NumDigits(decimals)));
  }

  lemma FractionBelowOne(d: nat, p: nat)
    requires d < p
    ensures 0.0 <= d as real / p as real < 1.0
  {
    var q := d as real / p as real;
    assert q * p as real == d as real;
  }

  /** Points allowed are computed exactly as points scored, over the "against" fields. */
  lemma AllowedIsScoredOfAgainst(tp: TotalPoints)
    ensures FantasyPointsAllowed(tp)
            == FantasyPointsScored(tp.(fpts := tp.fptsAgainst, fptsDecimal := tp.fptsAgainstDecimal))
  {
  }

  /** A roster settings object without "fpts_decimal" makes the scored points raise. */
  lemma MissingDecimalsRaise(settings: Settings)
    requires "fpts_decimal" !in settings
    ensures FantasyPointsScored(TotalPointsFrom(settings)) == Failure(InvalidOperation)
  {
  }

  // ---------------------------------------------------------------------------
  // RosterWaiverData

  datatype WaiverData = WaiverData(
    waiverPosition: Option<int>,
    waiverBudgetUsed: Option<int>,
    totalMoves: Option<int>)

  /** `RosterWaiverData.__init__`: each field is its key's value, or None when the key is missing. */
  function WaiverDataFrom(settings: Settings): (w: WaiverData)
    ensures w.waiverPosition == (if "waiver_position" in settings then settings["waiver_position"] else None)
    ensures w.waiverBudgetUsed == (if "waiver_budget_used" in settings then settings["waiver_budget_used"] else None)
    ensures w.totalMoves == (if "total_moves" in settings then settings["total_moves"] else None)
  {
    WaiverData(
      Get(settings, "waiver_position"),
      Get(settings, "waiver_budget_used"),
      Get(settings, "total_moves"))
  }

  /** `RosterWaiverData.to_json`: the budget used is written under "waiver_budget". */
  function ToJson(w: WaiverData): (j: map<string, Option<int>>)
    ensures j.Keys == {"waiver_position", "waiver_budget", "total_moves"}
  {
    map["waiver_position" := w.waiverPosition,
        "waiver_budget" := w.waiverBudgetUsed,
        "total_moves" := w.totalMoves]
  }

  /**
   * Reading a settings object and writing it back: position and moves are
   * copied under their own keys, the budget used moves to "waiver_budget",
   * and no other key of the settings survives.
   */
  lemma ToJsonOfSettings(settings: Settings)
    ensures var j := ToJson(WaiverDataFrom(settings));
            && j["waiver_position"] == Get(settings, "waiver_position")
            && j["waiver_budget"] == Get(settings, "waiver_budget_used")
            && j["total_moves"] == Get(settings, "total_moves")
            && "waiver_budget_used" !in j
  {
  }

  /**
   * `to_json` is not the inverse of the constructor: reading its output back
   * keeps position and moves but loses the budget, whose key was renamed.
   */
  lemma ReadBackLosesBudget(w: WaiverData)
    ensures WaiverDataFrom(ToJson(w)) == w.(waiverBudgetUsed := None)
    ensures WaiverDataFrom(ToJson(w)) == w <==> w.waiverBudgetUsed.None?
  {
  }

  // ---------------------------------------------------------------------------
  // RosterPlayers

  /** The id lists of a roster; None where the key is missing or null. */
  datatype RosterPlayers = RosterPlayers(
    players: Option<seq<string>>,
    starters: Option<seq<string>>,
    taxi: Option<seq<string>>)

  /** Iterating over None raises TypeError. */
  datatype FilterError = NotIterable

  /** The ids of `ids` that are keys of the database, in order. */
  function KnownIds<E>(ids: seq<string>, db: map<string, E>): (r: seq<string>)
    ensures |r| <= |ids|
    ensures forall id :: id in r <==> id in ids && id in db
  {
    if |ids| == 0 then []
    else
      var rest := KnownIds(ids[..|ids| - 1], db);
      var last := ids[|ids| - 1];
      assert ids == ids[..|ids| - 1] + [last];
      if last in db then rest + [last] else rest
  }

  /** The loop body shared by the three getters: a player for each id found in the database. */
  function KnownEntries<E>(ids: seq<string>, db: map<string, E>): (r: seq<Player<E>>)
    ensures |r| <= |ids|
    ensures (forall i :: 0 <= i < |ids| ==> ids[i] in db) ==>
              |r| == |ids| && forall i :: 0 <= i < |ids| ==> r[i] == Player(db[ids[i]])
    ensures (forall i :: 0 <= i < |ids| ==> ids[i] !in db) ==> r == []
  {
    if |ids| == 0 then []
    else
      var rest := KnownEntries(ids[..|ids| - 1], db);
      var last := ids[|ids| - 1];
      if last in db then rest + [Player(db[last])] else rest
  }

  /** `entries` are the database entries of the known ids of `ids`, one each, in order. */
  ghost predicate LookupsOf<E>(entries: seq<Player<E>>, ids: seq<string>, db: map<string, E>) {
    var known := KnownIds(ids, db);
    |entries| == |known| && forall i :: 0 <= i < |known| ==> known[i] in db && entries[i] == Player(db[known[i]])
  }

  /**
   * `for player in ids: if player in database: append(Player(database[player]))`:
   * a missing list is not iterable; otherwise one entry per known id, in order.
   */
  function EntriesOf<E>(ids: Option<seq<string>>, db: map<string, E>): (r: Result<seq<Player<E>>, FilterError>)
    ensures r.Failure? <==> ids.None?
    ensures r.Success? ==> LookupsOf(r.value, ids.value, db)
  {
    match ids
    case None => Failure(NotIterable)
    case Some(s) =>
      KnownEntriesAreLookups(s, db);
      Success(KnownEntries(s, db))
  }

  /** `get_roster_players`. */
  function RosterPlayerEntries<E>(rp: RosterPlayers, db: map<string, E>): (r: Result<seq<Player<E>>, FilterError>)
    ensures r.Failure? <==> rp.players.None?
    ensures r.Success? ==> LookupsOf(r.value, rp.players.value, db)
  {
    EntriesOf(rp.players, db)
  }

  /** `get_starter_players`. */
  function StarterPlayerEntries<E>(rp: RosterPlayers, db: map<string, E>): (r: Result<seq<Player<E>>, FilterError>)
    ensures r.Failure? <==> rp.starters.None?
    ensures r.Success? ==> LookupsOf(r.value, rp.starters.value, db)
  {
    EntriesOf(rp.starters, db)
  }

  /** `get_taxi_players` as written: it iterates `self.starters`, not `self.taxi`. */
  function TaxiPlayerEntries<E>(rp: RosterPlayers, db: map<string, E>): (r: Result<seq<Player<E>>, FilterError>)
    ensures r.Failure? <==> rp.starters.None?
    ensures r.Success? ==> LookupsOf(r.value, rp.starters.value, db)
  {
    EntriesOf(rp.starters, db)
  }

  /** `get_taxi_players` as its name intends: iterating `self.taxi`. */
  function TaxiPlayerEntriesIntended<E>(rp: RosterPlayers, db: map<string, E>): (r: Result<seq<Player<E>>, FilterError>)
    ensures r.Success? <==> rp.taxi.Some?
    ensures r.Success? ==> LookupsOf(r.value, rp.taxi.value, db)
  {
    EntriesOf(rp.taxi, db)
  }

  /**
   * The filter keeps one entry per id present in the database, in roster
   * order, and skips absent ids: it is the database lookup of KnownIds.
   */
  lemma {:induction false} KnownEntriesAreLookups<E>(ids: seq<string>, db: map<string, E>)
    ensures |KnownEntries(ids, db)| == |KnownIds(ids, db)|
    ensures forall i :: 0 <= i < |KnownIds(ids, db)| ==>
              KnownIds(ids, db)[i] in db && KnownEntries(ids, db)[i] == Player(db[KnownIds(ids, db)[i]])
  {
    if |ids| > 0 {
      KnownEntriesAreLookups(ids[..|ids| - 1], db);
    }
  }

  /** Splitting the id list splits the result: the filter preserves order. */
  lemma {:induction false} KnownEntriesAppend<E>(a: seq<string>, b: seq<string>, db: map<string, E>)
    ensures KnownEntries(a + b, db) == KnownEntries(a, db) + KnownEntries(b, db)
    decreases |b|
  {
    if |b| > 0 {
      var b' := b[..|b| - 1];
      assert (a + b)[..|a + b| - 1] == a + b';
      KnownEntriesAppend(a, b', db);
    } else {
      assert a + b == a;
    }
  }

  /** A missing or null id list makes the getter raise. */
  lemma MissingListRaises<E>(rp: RosterPlayers, db: map<string, E>)
    ensures rp.players.None? ==> RosterPlayerEntries(rp, db) == Failure(NotIterable)
    ensures rp.starters.None? ==> StarterPlayerEntries(rp, db) == Failure(NotIterable)
  {
  }

  /** As written, the taxi getter returns the starters for the same database. */
  lemma TaxiIsStarters<E>(rp: RosterPlayers, db: map<string, E>)
    ensures TaxiPlayerEntries(rp, db) == StarterPlayerEntries(rp, db)
    ensures rp.starters.None? ==> TaxiPlayerEntries(rp, db).Failure?
  {
  }

  /** An input on which the taxi getter as written and as intended differ. */
  lemma TaxiCounterexample()
    ensures var rp := RosterPlayers(Some([]), Some([]), Some(["1"]));
            var db := map["1" := 7];
            && TaxiPlayerEntries(rp, db) == Success([])
            && TaxiPlayerEntriesIntended(rp, db) == Success([Player(7)])
  {
    var ids := ["1"];
    var db := map["1" := 7];
    assert ids[..0] == [];
    assert ids[0] in db;
    assert KnownEntries(ids, db) == [Player(7)];
  }
}
