/**
 * Argument defaulting and validation of the highest-scorer script
 * (script/get_highest_scorers.py). The current year is a parameter: reading
 * the clock is left to the caller.
 */
module HighestScorers {
  import opened Wrappers
  import opened PyText

  /** The depth `main` settles on: the int 3, or the command-line text verbatim. */
  datatype Depth = DefaultDepth(n: int) | GivenDepth(text: string)

  /** The values `main` selects before its league work. */
  datatype Selection = Selection(
    season: string,
    week: string,
    positions: seq<string>,
    depth: Depth,
    output: string)

  datatype ArgumentError = MissingWeek

  /** The position list used when no position is given. */
  const AllPositions: seq<string> := ["QB", "RB", "WR", "TE", "K", "DEF"]

  const DefaultDepthValue: int := 3

  /** The argparse default of `--output`. */
  const DefaultOutput: string := "build"

  /** `get_current_season()`: `str(current_time.year)` for the given year. */
  function CurrentSeason(currentYear: nat): (s: string)
    ensures AllDigits(s) && DigitsValue(s) == currentYear
  {
    DigitStringDenotes(currentYear);
    DigitString(currentYear)
  }

  /**
   * `main(season, week, position, depth, output)`: each missing option is
   * None. A missing week raises ValueError; every other missing option gets
   * its default, and a given one is used verbatim.
   */
  function SelectArguments(
    season: Option<string>, week: Option<string>, position: Option<string>,
    depth: Option<string>, output: string, currentYear: nat): (r: Result<Selection, ArgumentError>)
    ensures r.Failure? <==> week.None?
    ensures r.Success? ==>
              && r.value.week == week.value
              && r.value.output == output
              && (season.Some? ==> r.value.season == season.value)
              && (season.None? ==> r.value.season == CurrentSeason(currentYear))
              && (position.None? ==> r.value.positions == ["QB", "RB", "WR", "TE", "K", "DEF"])
              && (position.Some? ==> r.value.positions == [position.value])
              && (depth.None? ==> r.value.depth == DefaultDepth(3))
              && (depth.Some? ==> r.value.depth == GivenDepth(depth.value))
  {
    var selectedSeason := if season.None? then CurrentSeason(currentYear) else season.value;
    if week.None? then Failure(MissingWeek)
    else
      var selectedPositions := if position.None? then AllPositions else [position.value];
      var selectedDepth := if depth.None? then DefaultDepth(DefaultDepthValue) else GivenDepth(depth.value);
      Success(Selection(selectedSeason, week.value, selectedPositions, selectedDepth, output))
  }

  /** The `__main__` block: argparse leaves missing options None, except `--output`. */
  function RunScript(
    season: Option<string>, week: Option<string>, position: Option<string>,
    depth: Option<string>, output: Option<string>, currentYear: nat): (r: Result<Selection, ArgumentError>)
    ensures r.Success? && output.None? ==> r.value.output == "build"
    ensures r.Success? && output.Some? ==> r.value.output == output.value
    ensures r.Failure? <==> week.None?
  {
    SelectArguments(season, week, position, depth, IfNone(output, DefaultOutput), currentYear)
  }

  /** An empty week string is not None, so it is accepted: only a missing week raises. */
  lemma EmptyWeekAccepted(currentYear: nat)
    ensures SelectArguments(None, Some(""), None, None, "build", currentYear).Success?
  {
  }

  /** Every default position is a single position and the list has no duplicates. */
  lemma DefaultPositionsDistinct()
    ensures |AllPositions| == 6
    ensures forall i, j :: 0 <= i < j < |AllPositions| ==> AllPositions[i] != AllPositions[j]
  {
  }

  /** The default season of 2024 is the text "2024". */
  lemma SeasonExample()
    ensures CurrentSeason(2024) == "2024"
  {
    assert DigitString(2) == "2";
    assert DigitString(20) == "20";
    assert DigitString(202) == "202";
  }
}
