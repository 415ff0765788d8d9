# sleeper_highest_scorer — a Dafny model of its pure core

The repository is a thin Python client for the Sleeper fantasy-football API.
Most of its code performs HTTP requests and copies JSON fields into objects.
This project models the small pure computations between those requests, with
each one's quirks kept as written:

- **Position normalisation.** `map_position` turns a position name into one
  of the six `NFLPosition` codes, or into "Unknown Position". This is module
  `Constants`, with the string helpers it needs in `PyText`.
- **Trending reconciliation.** The league loop of `test_get_trending_players`
  becomes a fold over in-memory leagues (module `Trending`):
  - it keeps the trending ids that contain no letter;
  - it extends one cumulative rostered list;
  - it reports trending ids that are not yet rostered.
- **Roster arithmetic and filters** (module `Rosters`):
  - the value of fantasy points as an exact sum of the two settings, before the `float` conversion;
  - the waiver-data JSON key mapping;
  - the order-preserving database filters of `RosterPlayers`.
- **League enums and predicates** (module `Leagues`):
  - `RosterPosition.validate`;
  - the slot-to-player-type loop of `LeaguePositions.add_player`;
  - the best-ball, league-type and seeding predicates.
- **Argument defaulting.** The argument defaulting and validation of the
  highest-scorer script's `main` is module `HighestScorers`.
- **Endpoint URLs.** The URL strings `SleeperAPIParser` builds are module
  `ApiParser`.
- **Avatar URLs.** The two avatar classes are modules `SleeperAvatars` and
  `ModelAvatars`.

Several Python conventions are modelled explicitly:

- Python `None` is `Option.None`.
- A raised exception is a `Result.Failure` value in most members. Four members
  record it differently:
  - `Constants.MemberNamed` returns `None` for the KeyError of `NFLPosition[name]`;
  - `PyText.ParseDecimal` returns `None` for the InvalidOperation of `Decimal`;
  - `Trending.ExtendRostered` returns `None` for the KeyError or TypeError of a
    roster without players;
  - `Leagues.AddOutcome` keeps the exception in its `raised` field, next to the
    positions appended before it.
- A JSON value read with `dict.get` is an `Option`.
- A database passed to a filter is a `map`.
- `Player(...)` is an opaque wrapper (`Players.Player`).

The current year, which the source reads from the clock, is a parameter.

## Model

| member | source | states |
|---|---|---|
| PyText.Upper | script/constants.py:102 | `str.upper` keeps the length, leaves no lower-case ASCII letter, lowers each lower-case letter's code point by 32 and keeps every other character |
| PyText.UpperEqualIff | script/constants.py:102 | two strings upper-case to the same text exactly when they are equal up to ASCII case |
| PyText.ReplaceChar | script/constants.py:102 | `replace(" ", "_")` keeps the length, turns every space into "_" and leaves every other character unchanged |
| PyText.UpperIdempotent | script/constants.py:102 | upper-casing twice is the same as upper-casing once |
| PyText.DigitStringDenotes | script/leagues/rosters.py:43-44 | `str(n)` of a natural number is all digits, has exactly NumDigits(n) characters and denotes n |
| PyText.PyStr | script/leagues/rosters.py:43-44 | `str(i)` is the NumDigits(abs(i)) digits denoting abs(i), so no leading zeros, with a leading "-" exactly when i is negative |
| PyText.ParseDecimal | script/leagues/rosters.py:43-44 | `Decimal(text)` succeeds only on text with a digit, and a non-empty string of digits denotes its value |
| PyText.IntLiteralRoundTrip | script/leagues/rosters.py:43 | `Decimal(str(i))` is exactly i for every integer, negative ones included |
| PyText.FractionLiteral | script/leagues/rosters.py:44 | `Decimal('.' + str(n))` is n / 10^(digits of n): the digits are read as written after the point |
| PyText.NegativeFractionLiteral | script/leagues/rosters.py:44 | '.' followed by the text of a negative number is not a decimal literal, so `Decimal` raises |
| Constants.MemberNamed | script/constants.py:89-97 | `NFLPosition[name]` finds a member exactly when the name is one of the six member names |
| Constants.Normalise | script/constants.py:102 | `replace(" ", "_").upper()` keeps the length, leaves no space and no lower-case letter, and keeps every other character |
| Constants.MapPosition | script/constants.py:99-104 | the result is "Unknown Position" or the value of some member; no string input raises |
| Constants.MapPositionRange | script/constants.py:99-104 | every result is one of "QB", "WR", "RB", "TE", "K", "DEF" or "Unknown Position" |
| Constants.ValueIsName | script/constants.py:92-97 | each member's value equals its name |
| Constants.CodeMapsToItself | script/constants.py:102 | each of the six codes maps to itself |
| Constants.CaseInsensitive | script/constants.py:102 | the result depends only on the upper-cased input, so "qb" maps like "QB" |
| Constants.SpaceMeansUnknown | script/constants.py:102-104 | any input containing a space maps to "Unknown Position", since no member name contains "_" |
| Constants.SlotCodesAreUnknown | script/constants.py:99-104 | slot codes such as "FLEX", "SUPER_FLEX", "BN" and "flex" map to "Unknown Position" |
| Constants.Idempotent | script/constants.py:99-104 | mapping a result again returns it unchanged |
| Constants.MapPositionMeaning | script/constants.py:99-104 | the result is a code exactly when the input equals that code up to ASCII case, and "Unknown Position" exactly when it matches none |
| Trending.ContainsLetter | test/test_parser.py:77-78 | true exactly when some character is an (ASCII) letter |
| Trending.TrendingIds | test/test_parser.py:96-103 | the kept ids are exactly the letter-free `player_id`s of the response, and no more of them than entries |
| Trending.TrendingIdsAppend | test/test_parser.py:97-103 | the filter works entry by entry and keeps response order: filtering a concatenation concatenates the results |
| Trending.TrendingIdsSingle | test/test_parser.py:97-103 | a single entry is kept exactly when its `player_id` has no letter |
| Trending.DefenceNeverTrending | test/test_parser.py:108-110 | a team-defence id such as "DET" is never kept |
| Trending.KeepTrending | test/test_parser.py:95-110 | the first loop yields the letter-free ids, in order, and an id is kept exactly when some entry has it and it has no letter |
| Trending.AvailableIn | test/test_parser.py:130-132 | one league pass appends at most one player per trending id, each for an id in the trending list and not rostered |
| Trending.AvailableInAppend | test/test_parser.py:130-132 | the pass goes through the trending list in order: splitting the list splits the appended players |
| Trending.LeaguePass | test/test_parser.py:125-132 | one league's pass succeeds exactly when every roster has players; it only extends both lists, every roster's ids end up rostered, and each appended player is trending and unrostered |
| Trending.Reconcile | test/test_parser.py:119-132 | the loop finishes exactly when every roster of every league has a `players` list; the rostered list is then every league's rosters concatenated |
| Trending.RosteredGrows | test/test_parser.py:119-128 | the rostered list is never reset: after league j it is a prefix of the list after any later league k |
| Trending.PassAppendsOnlyUnrostered | test/test_parser.py:130-132 | league k's pass appends exactly the trending ids not yet rostered, and none of them is in the rostered list at that moment |
| Trending.RosteredEarlierNeverAvailable | test/test_parser.py:119-131 | an id rostered in league j is never reported available by the pass of league j or of any later league |
| Trending.AvailableInCount | test/test_parser.py:130-132 | one pass appends an unrostered id as often as it is trending, and a rostered id never |
| Trending.LastPass | test/test_parser.py:122-132 | the last league's pass extends the previous available list by the ids unrostered after that league |
| Trending.AvailableBound | test/test_parser.py:120-132 | the available list is never cleared, so n leagues add at most n times the trending count |
| Trending.UnrosteredRepeatsPerLeague | test/test_parser.py:120-132 | an id rostered nowhere is appended once per league for every time it is trending |
| Trending.FailureIsPermanent | test/test_parser.py:126-128 | once a roster without `players` is met, the whole loop raises, whatever later leagues hold |
| Trending.ExtendRostered | test/test_parser.py:125-128 | the rosters loop extends the rostered list by every roster's players, and raises exactly when some roster has none |
| Trending.CollectAvailable | test/test_parser.py:130-132 | the appended players are exactly the pass over the trending ids, each trending and unrostered |
| Trending.RunTrendingCheck | test/test_parser.py:95-132 | the trending filter of lines 96-103 keeps the letter-free ids, and the reconcile loop of lines 119-132 succeeds exactly when every roster has players, its rostered list then being all leagues' players |
| Rosters.SettingText | script/leagues/rosters.py:43-44 | `str` of a missing setting is "None", and `str` of an integer setting reads back as that integer |
| Rosters.ExactPoints | script/leagues/rosters.py:43-44 | the value exists exactly when both settings are present and the decimals are non-negative, and is whole + decimals / 10^(digits of decimals) |
| Rosters.TotalPointsFrom | script/leagues/rosters.py:31-39 | each of the six point fields is its key's setting, or None when the key is missing |
| Rosters.FantasyPointsScored | script/leagues/rosters.py:41-45 | the points scored exist exactly when `fpts` and `fpts_decimal` are set and the decimals are non-negative, and are fpts + fpts_decimal / 10^(its digits) |
| Rosters.FantasyPointsAllowed | script/leagues/rosters.py:47-53 | the same for `fpts_against` and `fpts_against_decimal` |
| Rosters.ScoredExample | script/leagues/rosters.py:41-45 | fpts 1617 and fpts_decimal 78 give exactly 1617.78 |
| Rosters.DecimalsAsWritten | script/leagues/rosters.py:44 | fpts_decimal 5 contributes .5, not .05, and 50 gives the same value as 5 |
| Rosters.PointsBounds | script/leagues/rosters.py:43-44 | for non-negative decimals, fpts <= result < fpts + 1 |
| Rosters.AllowedIsScoredOfAgainst | script/leagues/rosters.py:47-53 | points allowed are the same formula over fpts_against and fpts_against_decimal |
| Rosters.MissingDecimalsRaise | script/leagues/rosters.py:31-44 | with no `fpts_decimal` setting the decimal literal is ".None" and `Decimal` raises InvalidOperation |
| Rosters.NoneIsNotDecimal | script/leagues/rosters.py:43-44 | neither "None" nor ".None" is a decimal literal |
| Rosters.SettingLiterals | script/leagues/rosters.py:43-44 | the literal of a present setting denotes it, and the literal of a missing one is not a decimal |
| Rosters.WaiverDataFrom | script/leagues/rosters.py:58-61 | each waiver field is its key's setting, or None when the key is missing |
| Rosters.ToJson | script/leagues/rosters.py:78-84 | the result has exactly the keys waiver_position, waiver_budget and total_moves |
| Rosters.ToJsonOfSettings | script/leagues/rosters.py:58-84 | `waiver_budget` carries the `waiver_budget_used` setting and the other two keys keep their settings |
| Rosters.ReadBackLosesBudget | script/leagues/rosters.py:58-84 | reading the JSON back loses the budget used, so the round trip holds exactly when it was absent |
| Rosters.KnownIds | script/leagues/rosters.py:140-144 | the filter keeps an id exactly when it is in the list and in the database |
| Rosters.KnownEntries | script/leagues/rosters.py:136-144 | one entry per listed id when all are known, none when none are |
| Rosters.KnownEntriesAreLookups | script/leagues/rosters.py:140-143 | the entries are the database lookups of the known ids, in list order |
| Rosters.KnownEntriesAppend | script/leagues/rosters.py:140-144 | the filter is order-preserving: filtering a concatenation concatenates the results |
| Rosters.EntriesOf | script/leagues/rosters.py:140-144 | a missing list is not iterable; otherwise the entries are the database lookups of the known ids, in list order |
| Rosters.RosterPlayerEntries | script/leagues/rosters.py:136-144 | `get_roster_players` fails exactly when `players` is missing and otherwise looks up the known ids of `players`, in order |
| Rosters.StarterPlayerEntries | script/leagues/rosters.py:146-154 | `get_starter_players` fails exactly when `starters` is missing and otherwise looks up the known ids of `starters`, in order |
| Rosters.TaxiPlayerEntries | script/leagues/rosters.py:156-164 | `get_taxi_players` as written fails exactly when `starters` is missing and otherwise looks up the known ids of `starters`, not of `taxi` |
| Rosters.MissingListRaises | script/leagues/rosters.py:140-150 | iterating a missing players or starters list raises |
| Rosters.TaxiIsStarters | script/leagues/rosters.py:146-164 | the taxi getter as written returns the starters' entries for every roster and database |
| Rosters.TaxiCounterexample | script/leagues/rosters.py:156-164 | a roster with taxi ["1"], no starters and "1" in the database gives no taxi entries as written, one as intended |
| Rosters.TaxiPlayerEntriesIntended | script/leagues/rosters.py:156-164 | the intended taxi getter fails exactly when the taxi list is missing and otherwise filters the taxi list |
| Leagues.ValueAmong | script/leagues/leagues.py:34 | the generator search finds a value exactly when some member in the searched list has it |
| Leagues.ValueAmongAllMembers | script/leagues/leagues.py:32-34 | searching all members in declaration order finds a value exactly when some member has it |
| Leagues.Validate | script/leagues/leagues.py:20-34 | `validate(v)` holds exactly when v is the value of some member |
| Leagues.ValidateExactly | script/leagues/leagues.py:20-34 | `validate(v)` holds exactly for the nine strings QB, RB, WR, TE, FLEX, SUPER_FLEX, DEF, K, BN |
| Leagues.ValidateIsCaseSensitive | script/leagues/leagues.py:32-34 | lower- or mixed-case codes are rejected |
| Leagues.SlotsAsPositions | script/leagues/leagues.py:20-30 | the slot codes FLEX, SUPER_FLEX and BN are unknown positions; the other six slot codes are positions that map to themselves |
| Leagues.PositionsFromJson | script/leagues/leagues.py:482-484 | `League` stores the JSON strings as raw values, never enum members, which read back as the strings given; a missing list stays missing, and the position list starts empty |
| Leagues.RawTextsOfRaw | script/leagues/leagues.py:482-484 | wrapping each string as a raw slot and reading the texts back gives the strings |
| Leagues.RawTextsInverse | script/leagues/leagues.py:482-484 | the texts read back only from raw slots, one text per slot, so the slot list is determined by them |
| Leagues.TypeOf | script/leagues/leagues.py:445-462 | each slot member selects its own branch: QB appends the quarterback class, DEF the `Defense` class, and so on, one class per member and no two alike |
| Leagues.AppendTypes | script/leagues/leagues.py:444-464 | the loop finishes exactly when every slot is a member, appending one tag per slot in order; otherwise it raises ValueError at the first raw slot, keeping the tags appended for the members before it |
| Leagues.AddPlayer | script/leagues/leagues.py:439-464 | a missing slot list is not iterable; the call succeeds exactly when every slot is a member, appending one tag per slot after the existing positions, and otherwise raises ValueError at the first raw slot with the earlier tags kept |
| Leagues.AddPlayerByValue | script/leagues/leagues.py:439-464 | the corrected `add_player` (comparison by value): a missing list is not iterable, and it succeeds exactly when every slot resolves to a member, appending that member's tag per slot in order |
| Leagues.EmptySlotsSucceed | script/leagues/leagues.py:439-444 | an empty slot list succeeds and leaves the position list unchanged |
| Leagues.OneTagPerSlot | script/leagues/leagues.py:444-462 | member slots give exactly one tag per slot, in slot order |
| Leagues.DuplicatesKept | script/leagues/leagues.py:444-462 | repeated slots such as two RB slots give repeated tags |
| Leagues.TypeOfInjective | script/leagues/leagues.py:444-462 | distinct slot members get distinct player-type tags |
| Leagues.JsonSlotsAlwaysRaise | script/leagues/leagues.py:444-464 | any non-empty list of raw JSON slot strings raises ValueError at its first element, with nothing appended |
| Leagues.JsonQuarterbackCounterexample | script/leagues/leagues.py:444-446 | the JSON slot list ["QB"] raises as written and gives [Quarterback] under comparison by value |
| Leagues.MemberWithValue | script/leagues/leagues.py:20-34 | looking a member up by value succeeds with that value, and fails only for text `validate` rejects |
| Leagues.AppendTypesByValue | script/leagues/leagues.py:444-464 | comparing by value, the loop finishes exactly when every slot resolves to a member, with one tag per slot |
| Leagues.JsonSlotsByValue | script/leagues/leagues.py:444-464 | valid JSON slot codes give one tag per slot under comparison by value |
| Leagues.ByValueAgreesOnMembers | script/leagues/leagues.py:444-464 | on member slots, comparison by value behaves exactly like the loop as written |
| Leagues.IsBestBall | script/leagues/leagues.py:311-313 | `is_best_ball` holds exactly when the setting equals 1 (True included, as Python compares it) |
| Leagues.IsRedraft | script/leagues/leagues.py:315-317 | `is_redraft` holds exactly for the member REDRAFT, never for a raw JSON value |
| Leagues.IsKeeper | script/leagues/leagues.py:319-321 | `is_keeper` holds exactly for the member KEEPER, never for a raw JSON value |
| Leagues.IsDynasty | script/leagues/leagues.py:323-325 | `is_dynasty` holds exactly for the member DYNASTY, never for a raw JSON value |
| Leagues.IsDefaultSeeding | script/leagues/leagues.py:259-261 | `is_default_seeding` holds exactly for the member DEFAULT, never for a raw JSON value |
| Leagues.IsReSeeding | script/leagues/leagues.py:263-265 | `is_re_seeding` holds exactly for the member RE_SEED, never for a raw JSON value |
| Leagues.LeagueTypePredicates | script/leagues/leagues.py:315-325 | at most one of redraft, keeper and dynasty holds; exactly one for an enum member, none for a raw JSON setting |
| Leagues.SeedingPredicates | script/leagues/leagues.py:259-265 | default seeding and re-seeding never both hold; a raw JSON setting satisfies neither |
| Leagues.RawTypeCounterexample | script/leagues/leagues.py:315-325 | the integer settings 0, 1 and 2 make the redraft, keeper and dynasty predicates false |
| Leagues.LeagueTypeByValue | script/leagues/leagues.py:143-146 | compared by value, a raw integer setting is a league type exactly when it is that type's value |
| Leagues.SeedTypeByValue | script/leagues/leagues.py:244-247 | compared by value, a raw integer setting is a seed type exactly when it is that type's value, never both |
| HighestScorers.CurrentSeason | script/get_highest_scorers.py:6-9 | the default season is the decimal text of the year |
| HighestScorers.SelectArguments | script/get_highest_scorers.py:12-40 | a missing week raises; a missing season, position list or depth takes its default, and a given one is used verbatim |
| HighestScorers.RunScript | script/get_highest_scorers.py:45-53 | a missing `--output` becomes "build", and only a missing week fails |
| HighestScorers.EmptyWeekAccepted | script/get_highest_scorers.py:24-25 | only a missing week raises; an empty week string is accepted |
| HighestScorers.DefaultPositionsDistinct | script/get_highest_scorers.py:28-29 | the default position list has six distinct entries |
| HighestScorers.SeasonExample | script/get_highest_scorers.py:6-9 | the year 2024 gives the season "2024" |
| ApiParser.NewParser | script/api_parser.py:24-27 | a fresh parser has base URL https://api.sleeper.app/v1, sport "nfl" and the current year as its season |
| ApiParser.SeasonOrDefault | script/api_parser.py:109-110 | a season of None becomes the parser's season, and a given season is used verbatim |
| ApiParser.UserSegment | script/api_parser.py:53-57 | a truthy user name wins, the user id is used only when the name is falsy, and otherwise the segment is empty |
| ApiParser.UserUrl | script/api_parser.py:53-59 | the user URL reads back the name when it is truthy, the id when only it is truthy, and ends in "/user/" otherwise |
| ApiParser.AvatarUrls | script/api_parser.py:61-69 | both URLs are on the CDN host, and the avatar id reads back from the full-size and the "thumbs/" URL |
| ApiParser.AvatarUrlsIgnoreBase | script/api_parser.py:66-68 | the avatar URLs do not depend on the parser's base URL |
| ApiParser.LeaguesForUserUrl | script/api_parser.py:109-113 | the user id and the season read back, the season being the parser's when None is given |
| ApiParser.DraftsForUserUrl | script/api_parser.py:404-408 | the user id and the season read back, the season being the parser's when None is given |
| ApiParser.DefaultSeason | script/api_parser.py:109-113 | a season of None is replaced by the parser's season in the leagues and drafts paths |
| ApiParser.LeaguesUrlExample | test/test_parser.py:22 | the leagues URL of the test user for 2023 is the literal the test expects |
| ApiParser.LeagueUrl | script/api_parser.py:136 | the league id reads back from the league URL |
| ApiParser.RostersUrl | script/api_parser.py:166-168 | the league id reads back from before "/rosters" |
| ApiParser.RostersUrlInjective | script/api_parser.py:166-168 | distinct league ids give distinct rosters URLs |
| ApiParser.UsersInLeagueUrl | script/api_parser.py:192-194 | the users URL as written reads the league id back from before "/rosters" |
| ApiParser.UsersUrlIsRostersUrl | script/api_parser.py:192-194 | the users URL as written equals the rosters URL and does not end in "/users" |
| ApiParser.UsersInLeagueUrlIntended | script/api_parser.py:170-176 | the intended users URL ends in "/users", gives back the league id, and differs from the rosters URL |
| ApiParser.MatchupsUrl | script/api_parser.py:219-221 | the league id and the week read back from the matchups URL |
| ApiParser.BracketUrls | script/api_parser.py:256-258 | the league id reads back from before "/winners_bracket" and from before "/losers_bracket" |
| ApiParser.TransactionsUrl | script/api_parser.py:332-334 | the league id and the round read back from the transactions URL |
| ApiParser.DraftsForLeagueUrl | script/api_parser.py:462-464 | the league id reads back from before "/drafts" |
| ApiParser.StateUrl | script/api_parser.py:353-355 | the parser's sport reads back from the state URL |
| ApiParser.StateUrlExample | script/api_parser.py:353-355 | a fresh parser's state URL is https://api.sleeper.app/v1/state/nfl |
| ApiParser.DraftUrl | script/api_parser.py:475 | the draft id reads back from the draft URL |
| ApiParser.PicksUrl | script/api_parser.py:486-488 | the draft id reads back from before "/picks" |
| ApiParser.TradedPicksUrl | script/api_parser.py:516-518 | the draft id reads back from before "/traded_picks" |
| ApiParser.AllPlayersUrl | script/api_parser.py:520-535 | `fetch_all_players` requests the fixed player-data file on raw.githubusercontent.com |
| ApiParser.AllPlayersUrlIgnoresBase | script/api_parser.py:520-535 | the player-data URL is the same for every parser and is not under the API's base URL |
| ApiParser.TrendingUrl | script/api_parser.py:537-554 | the trend type reads back from between the trending path and the query of the two arguments, an explicit None being written "None" |
| ApiParser.TrendingUrlDefaults | script/api_parser.py:537-554 | with the default arguments the query is "?lookback_hours=24&limit=25" and the trend type reads back before it |
| ApiParser.TrendingUrlShape | script/api_parser.py:537-554 | the defaults give the query "?lookback_hours=24&limit=25" with the trend type read back, and an explicit None is written "None" |
| ApiParser.BetweenRoundTrip | script/api_parser.py:166-168 | a URL built as prefix + id + suffix gives back the id |
| SleeperAvatars.NewSleeperAvatar | script/avatars/avatar.py:7-10 | the id is kept, can be read back from both URLs, and the thumbnail URL is exactly 7 characters ("thumbs/") longer |
| SleeperAvatars.UrlsDetermineId | script/avatars/avatar.py:9-10 | distinct ids give distinct full-size and thumbnail URLs |
| SleeperAvatars.TestUserAvatar | test/test_highest_scorer.py:78-83 | the all-zeros id gives the full-size URL the test expects |
| SleeperAvatars.TestUserThumbnail | test/test_highest_scorer.py:78-86 | the all-zeros id gives the thumbnail URL the test expects |
| ModelAvatars.NewAvatar | script/model/avatar.py:9-12 | the id is kept and can be read back from both URLs |
| ModelAvatars.AvatarsAgree | script/model/avatar.py:9-12 | `Avatar`, `SleeperAvatar` and the parser's `get_avatars` give the same two URLs for every id |

## Left out

- HTTP. Every `_http_get_response_data_json` call and every `requests` call is left out. Each endpoint function returns the URL it would fetch.
- File I/O. `read_json_from_file` is not modelled: the player database is a `map` parameter.
- Player construction. `Player.__init__` (script/players/players.py:159-170) reads a file; here a player is an opaque wrapper of its id or database entry.
- Rosters.EntriesOf, Rosters.KnownEntries, Rosters.RosterPlayerEntries, Rosters.StarterPlayerEntries, Rosters.TaxiPlayerEntries: as written, each getter passes the database entry, a dict, to `Player(player_id)` (script/leagues/rosters.py:142-143, 152-153, 162-163). `Player.__init__` then evaluates `self._id in db` (script/players/players.py:165), which hashes that dict and raises TypeError. So in Python every getter raises as soon as one listed id is in the database. The model's one-entry-per-known-id results hold only because `Players.Player` is an opaque wrapper that does not perform that lookup.
- The clock. `datetime.now()` in `SleeperAPIParser.__init__` and in `get_current_season` is replaced by a year parameter.
- Floating point. The final `float(...)` of the fantasy-point getters is not modelled; the model stops at the sum before it. The float-based maximum in script/main.py is not modelled either.
- Rosters.ExactPoints: the sum is exact. Python's `Decimal` addition rounds to the default context of 28 significant digits, so a value with more digits differs; for example fpts 0 with 29 nines as decimals rounds to 1. The limit of 4300 digits that `str(int)` enforces in Python 3.11 and later is not modelled either.
- Rosters.PointsBounds: it bounds the exact sum. After `Decimal` rounding to 28 significant digits, the upper bound fpts + 1 can be reached.
- Rosters.FantasyPointsScored, Rosters.FantasyPointsAllowed: exact sums, for the same reason as Rosters.ExactPoints.
- Pure field-copying classes with no logic: the user, draft, player-profile and scoring-settings classes, and the empty classes in player_types.py.
- `LeagueWaiverType` and `LeagueWaiverData` (script/leagues/leagues.py:202-232, 269-275). `LeagueWaiverData` passes the integer `waiver_type` setting where `LeagueWaiverType` expects the settings dict (line 272). Construction succeeds, since `__init__` only stores the value (lines 204-206). Each of `is_rolling_waivers`, `is_reverse_standings` and `is_faab_bidding` then calls `.get` on that int, or on None, and raises AttributeError, so no predicate has a non-raising path to model. The other fields are copied unchanged.
- `LeagueType.validate` (script/leagues/leagues.py:43-45). The second `LeagueType` at script/leagues/leagues.py:143-146 shadows it.
- Printing. Every print in the script and in the test body is left out.
- Mocks and monkeypatching in the tests.
- PyText.Upper: ASCII only. Python's `upper` and `isalpha` are Unicode-aware.
- Trending.ContainsLetter: ASCII only. Non-ASCII letters in player ids are not modelled.
- PyText.ParseDecimal: a subset of the `Decimal` grammar. It covers an optional sign, digits and one point. Exponents, "NaN", "Infinity", whitespace and underscores never occur in the literals built from `str(int)`.
- HighestScorers.SelectArguments: the week and depth are the command-line strings argparse produces. The model does not convert them to numbers, and neither does the script.
- Trending.RunTrendingCheck: it models the loops of test/test_parser.py:95-132 over leagues given as data. The test builds those leagues with `League.from_dict` (line 118) and reads `li.rosters` (line 125), but `League` at script/leagues/leagues.py:472-525 defines neither. The test then calls `get_rosters_in_a_league()` without its league id (line 141), which raises TypeError; lines 141 onwards are not modelled.
- Missing rosters. On a roster without `players`, `roster["players"]` raises KeyError, and a `players` of None makes `extend` raise TypeError. `Trending.Reconcile` fails in both cases.
- Accumulation. The league loop keeps one rostered list and one available list, both created before the loop and never reset, and the model keeps both.
- Scoring. The `Defense` tag that `add_player` appends is the scoring class of script/leagues/leagues.py:89-90. The player-type classes are opaque tags here.

## Findings

| source | as written | input that shows it | evidently intended | confidence | as-written member | corrected member |
|---|---|---|---|---|---|---|
| script/api_parser.py:192-194 | `get_users_in_a_league` requests `/league/{id}/rosters` | any league id, e.g. "1", gives the rosters URL | `/league/{id}/users`, as the method's documentation says (line 176) | not executed | ApiParser.UsersUrlIsRostersUrl | ApiParser.UsersInLeagueUrlIntended |
| script/leagues/rosters.py:156-164 | `get_taxi_players` iterates `self.starters` | taxi ["1"], no starters, "1" in the database: no taxi entries | iterate `self.taxi` | not executed | Rosters.TaxiCounterexample | Rosters.TaxiPlayerEntriesIntended |
| script/leagues/leagues.py:444-464 | each raw JSON slot string is compared with enum members, so no comparison can succeed | roster_positions ["QB"] raises ValueError | compare by value, giving [Quarterback] | not executed | Leagues.JsonQuarterbackCounterexample | Leagues.JsonSlotsByValue |
| script/leagues/leagues.py:315-325 | the raw integer `type` setting is compared with `LeagueType` members | type 0 makes `is_redraft` false | compare with the member's value, so 0 is redraft | not executed | Leagues.RawTypeCounterexample | Leagues.LeagueTypeByValue |
