/**
 * The URL construction of `SleeperAPIParser` (script/api_parser.py): the
 * user-id / username precedence of `get_user`, the default season, and the
 * endpoint f-strings. The HTTP GET each method then performs is not
 * modelled; the functions here return the URL it would fetch.
 */
module ApiParser {
  import opened Wrappers

  /** The parser's configuration; `season` is the current year as text at construction. */
  datatype Parser = Parser(baseUrl: string, sport: string, season: string)

  const BaseUrl: string := "https://api.sleeper.app/v1"
  const Sport: string := "nfl"

  /** The CDN host `get_avatars` uses instead of the base URL. */
  const AvatarHost: string := "https://sleepercdn.com/avatars"

  /** The host of the fixed player-data file. */
  const PlayersDataHost: string := "https://raw.githubusercontent.com"

  /** The fixed player-data URL of `fetch_all_players`. */
  const PlayersDataUrl: string :=
    PlayersDataHost + "/qubone/sleeper_fetch_players/refs/heads/main/data/sleeper_data_latest.json"

  /** `SleeperAPIParser()`, with `datetime.now().strftime("%Y")` passed in. */
  function NewParser(currentYear: string): (p: Parser)
    ensures p.baseUrl == "https://api.sleeper.app/v1"
    ensures p.sport == "nfl"
    ensures p.season == currentYear
  {
    Parser(BaseUrl, Sport, currentYear)
  }

  /** Python truthiness of an optional string: None and "" are false. */
  predicate Truthy(o: Option<string>) {
    o.Some? && o.value != ""
  }

  /** `f"{x}"` of an optional string: None is written "None". */
  function Format(o: Option<string>): string {
    match o
    case None => "None"
    case Some(s) => s
  }

  /** The text between a known prefix and suffix, if `s` has both. */
  function Between(s: string, prefix: string, suffix: string): Option<string> {
    if |s| >= |prefix| + |suffix| && s[..|prefix|] == prefix && s[|s| - |suffix|..] == suffix
    then Some(s[|prefix|..|s| - |suffix|])
    else None
  }

  /** Every URL of the form prefix + x + suffix gives back x. */
  lemma BetweenRoundTrip(prefix: string, x: string, suffix: string)
    ensures Between(prefix + x + suffix, prefix, suffix) == Some(x)
  {
    var s := prefix + x + suffix;
    assert s[..|prefix|] == prefix;
    assert s[|s| - |suffix|..] == suffix;
    assert s[|prefix|..|s| - |suffix|] == x;
  }

  // ---------------------------------------------------------------------------
  // get_user

  /** The path segment `get_user` selects. */
  function UserSegment(userId: Option<string>, userName: Option<string>): (u: string)
    ensures Truthy(userName) ==> u == userName.value
    ensures !Truthy(userName) && Truthy(userId) ==> u == userId.value
    ensures !Truthy(userName) && !Truthy(userId) ==> u == ""
  {
    if Truthy(userId) && !Truthy(userName) then userId.value
    else if Truthy(userName) then userName.value
    else ""
  }

  /**
   * `get_user(user_id, user_name)`: a truthy username always wins, the user
   * id is used only when the username is falsy, and with both falsy the URL
   * ends in "/user/".
   */
  function UserUrl(p: Parser, userId: Option<string>, userName: Option<string>): (url: string)
    ensures Truthy(userName) ==> Between(url, p.baseUrl + "/user/", "") == userName
    ensures !Truthy(userName) && Truthy(userId) ==> Between(url, p.baseUrl + "/user/", "") == userId
    ensures !Truthy(userName) && !Truthy(userId) ==> url == p.baseUrl + "/user/"
  {
    var segment := UserSegment(userId, userName);
    BetweenRoundTrip(p.baseUrl + "/user/", segment, "");
    assert p.baseUrl + "/user/" + segment + "" == p.baseUrl + "/user/" + segment;
    p.baseUrl + "/user/" + segment
  }

  // ---------------------------------------------------------------------------
  // Avatars

  /** `get_avatars`: the full-size and thumbnail URLs on the CDN host, each ending with the id. */
  function AvatarUrls(p: Parser, avatarId: string): (urls: (string, string))
    ensures Between(urls.0, "https://sleepercdn.com/avatars/", "") == Some(avatarId)
    ensures Between(urls.1, "https://sleepercdn.com/avatars/thumbs/", "") == Some(avatarId)
  {
    BetweenRoundTrip(AvatarHost + "/", avatarId, "");
    BetweenRoundTrip(AvatarHost + "/thumbs/", avatarId, "");
    assert AvatarHost + "/" == "https://sleepercdn.com/avatars/";
    assert AvatarHost + "/thumbs/" == "https://sleepercdn.com/avatars/thumbs/";
    assert AvatarHost + "/" + avatarId + "" == AvatarHost + "/" + avatarId;
    assert AvatarHost + "/thumbs/" + avatarId + "" == AvatarHost + "/thumbs/" + avatarId;
    (AvatarHost + "/" + avatarId, AvatarHost + "/thumbs/" + avatarId)
  }

  /** The avatar URLs do not depend on the parser: its base URL is not used. */
  lemma AvatarUrlsIgnoreBase(p: Parser, q: Parser, avatarId: string)
    ensures AvatarUrls(p, avatarId) == AvatarUrls(q, avatarId)
  {
  }

  // ---------------------------------------------------------------------------
  // User endpoints with a season

  /** The season a call uses: the given one, or the parser's when None. */
  function SeasonOrDefault(p: Parser, season: Option<string>): (year: string)
    ensures season.None? ==> year == p.season
    ensures season.Some? ==> year == season.value
  {
    IfNone(season, p.season)
  }

  /** `get_all_leagues_for_user(user_id, season)`: the user id and the season read back. */
  function LeaguesForUserUrl(p: Parser, userId: string, season: Option<string>): (url: string)
    ensures Between(url, p.baseUrl + "/user/", "/leagues/" + p.sport + "/" + SeasonOrDefault(p, season)) == Some(userId)
    ensures Between(url, p.baseUrl + "/user/" + userId + "/leagues/" + p.sport + "/", "") == Some(SeasonOrDefault(p, season))
  {
    var year := SeasonOrDefault(p, season);
    BetweenRoundTrip(p.baseUrl + "/user/", userId, "/leagues/" + p.sport + "/" + year);
    BetweenRoundTrip(p.baseUrl + "/user/" + userId + "/leagues/" + p.sport + "/", year, "");
    var url := p.baseUrl + "/user/" + userId + "/leagues/" + p.sport + "/" + year;
    assert url == p.baseUrl + "/user/" + userId + ("/leagues/" + p.sport + "/" + year);
    assert url == p.baseUrl + "/user/" + userId + "/leagues/" + p.sport + "/" + year + "";
    url
  }

  /** `get_all_drafts_for_user(user_id, season)`: the user id and the season read back. */
  function DraftsForUserUrl(p: Parser, userId: string, season: Option<string>): (url: string)
    ensures Between(url, p.baseUrl + "/user/", "/" + p.sport + "/" + SeasonOrDefault(p, season)) == Some(userId)
    ensures Between(url, p.baseUrl + "/user/" + userId + "/" + p.sport + "/", "") == Some(SeasonOrDefault(p, season))
  {
    var year := SeasonOrDefault(p, season);
    BetweenRoundTrip(p.baseUrl + "/user/", userId, "/" + p.sport + "/" + year);
    BetweenRoundTrip(p.baseUrl + "/user/" + userId + "/" + p.sport + "/", year, "");
    var url := p.baseUrl + "/user/" + userId + "/" + p.sport + "/" + year;
    assert url == p.baseUrl + "/user/" + userId + ("/" + p.sport + "/" + year);
    assert url == p.baseUrl + "/user/" + userId + "/" + p.sport + "/" + year + "";
    url
  }

  /** A season of None is replaced by the parser's season in both paths. */
  lemma DefaultSeason(p: Parser, userId: string)
    ensures LeaguesForUserUrl(p, userId, None) == LeaguesForUserUrl(p, userId, Some(p.season))
    ensures DraftsForUserUrl(p, userId, None) == DraftsForUserUrl(p, userId, Some(p.season))
  {
  }

  /** The test's leagues URL: user 727977584134025216, season 2023. */
  lemma LeaguesUrlExample(currentYear: string)
    ensures LeaguesForUserUrl(NewParser(currentYear), "727977584134025216", Some("2023"))
            == "https://api.sleeper.app/v1/user/727977584134025216/leagues/nfl/2023"
  {
    var p := NewParser(currentYear);
    assert SeasonOrDefault(p, Some("2023")) == "2023";
    assert p.baseUrl + "/user/" + "727977584134025216" + "/leagues/" + p.sport + "/" + "2023"
           == "https://api.sleeper.app/v1/user/727977584134025216/leagues/nfl/2023";
  }

  // ---------------------------------------------------------------------------
  // League endpoints

  /** `get_specific_league(league_id)`: the league id reads back. */
  function LeagueUrl(p: Parser, leagueId: string): (url: string)
    ensures Between(url, p.baseUrl + "/league/", "") == Some(leagueId)
  {
    BetweenRoundTrip(p.baseUrl + "/league/", leagueId, "");
    assert p.baseUrl + "/league/" + leagueId + "" == p.baseUrl + "/league/" + leagueId;
    p.baseUrl + "/league/" + leagueId
  }

  /** `get_rosters_in_a_league(league_id)`: the league id reads back from before "/rosters". */
  function RostersUrl(p: Parser, leagueId: string): (url: string)
    ensures Between(url, p.baseUrl + "/league/", "/rosters") == Some(leagueId)
  {
    BetweenRoundTrip(p.baseUrl + "/league/", leagueId, "/rosters");
    p.baseUrl + "/league/" + leagueId + "/rosters"
  }

  /** `get_users_in_a_league(league_id)` as written: it builds the rosters path. */
  function UsersInLeagueUrl(p: Parser, leagueId: string): (url: string)
    ensures Between(url, p.baseUrl + "/league/", "/rosters") == Some(leagueId)
  {
    BetweenRoundTrip(p.baseUrl + "/league/", leagueId, "/rosters");
    p.baseUrl + "/league/" + leagueId + "/rosters"
  }

  /** `get_users_in_a_league(league_id)` with the "/users" path its documentation names. */
  function UsersInLeagueUrlIntended(p: Parser, leagueId: string): (url: string)
    ensures Between(url, p.baseUrl + "/league/", "/users") == Some(leagueId)
    ensures url != RostersUrl(p, leagueId)
  {
    var url := p.baseUrl + "/league/" + leagueId + "/users";
    BetweenRoundTrip(p.baseUrl + "/league/", leagueId, "/users");
    assert |url| != |RostersUrl(p, leagueId)|;
    url
  }

  /** `get_matchups_in_league(league_id, week)`: the league id and the week read back. */
  function MatchupsUrl(p: Parser, leagueId: string, week: string): (url: string)
    ensures Between(url, p.baseUrl + "/league/", "/matchups/" + week) == Some(leagueId)
    ensures Between(url, p.baseUrl + "/league/" + leagueId + "/matchups/", "") == Some(week)
  {
    BetweenRoundTrip(p.baseUrl + "/league/", leagueId, "/matchups/" + week);
    BetweenRoundTrip(p.baseUrl + "/league/" + leagueId + "/matchups/", week, "");
    var url := p.baseUrl + "/league/" + leagueId + "/matchups/" + week;
    assert url == p.baseUrl + "/league/" + leagueId + ("/matchups/" + week);
    assert url == p.baseUrl + "/league/" + leagueId + "/matchups/" + week + "";
    url
  }

  /** `get_playoff_bracket(league_id)`: the winners and losers bracket URLs, the league id reading back from each. */
  function BracketUrls(p: Parser, leagueId: string): (urls: (string, string))
    ensures Between(urls.0, p.baseUrl + "/league/", "/winners_bracket") == Some(leagueId)
    ensures Between(urls.1, p.baseUrl + "/league/", "/losers_bracket") == Some(leagueId)
  {
    BetweenRoundTrip(p.baseUrl + "/league/", leagueId, "/winners_bracket");
    BetweenRoundTrip(p.baseUrl + "/league/", leagueId, "/losers_bracket");
    (p.baseUrl + "/league/" + leagueId + "/winners_bracket",
     p.baseUrl + "/league/" + leagueId + "/losers_bracket")
  }

  /** `get_transactions(league_id, round)`: the league id and the round read back. */
  function TransactionsUrl(p: Parser, leagueId: string, round: string): (url: string)
    ensures Between(url, p.baseUrl + "/league/", "/transactions/" + round) == Some(leagueId)
    ensures Between(url, p.baseUrl + "/league/" + leagueId + "/transactions/", "") == Some(round)
  {
    BetweenRoundTrip(p.baseUrl + "/league/", leagueId, "/transactions/" + round);
    BetweenRoundTrip(p.baseUrl + "/league/" + leagueId + "/transactions/", round, "");
    var url := p.baseUrl + "/league/" + leagueId + "/transactions/" + round;
    assert url == p.baseUrl + "/league/" + leagueId + ("/transactions/" + round);
    assert url == p.baseUrl + "/league/" + leagueId + "/transactions/" + round + "";
    url
  }

  /** `get_all_drafts_for_a_league(league_id)`: the league id reads back from before "/drafts". */
  function DraftsForLeagueUrl(p: Parser, leagueId: string): (url: string)
    ensures Between(url, p.baseUrl + "/league/", "/drafts") == Some(leagueId)
  {
    BetweenRoundTrip(p.baseUrl + "/league/", leagueId, "/drafts");
    p.baseUrl + "/league/" + leagueId + "/drafts"
  }

  /** Distinct league ids give distinct rosters URLs. */
  lemma RostersUrlInjective(p: Parser, a: string, b: string)
    ensures RostersUrl(p, a) == RostersUrl(p, b) ==> a == b
  {
  }

  /** As written, the users URL is the rosters URL for every league, and no "/users" URL at all. */
  lemma UsersUrlIsRostersUrl(p: Parser, leagueId: string)
    ensures UsersInLeagueUrl(p, leagueId) == RostersUrl(p, leagueId)
    ensures Between(UsersInLeagueUrl(p, leagueId), p.baseUrl + "/league/", "/users") == None
  {
    var url := UsersInLeagueUrl(p, leagueId);
    assert url[|url| - 6] == 'o';
  }

  // ---------------------------------------------------------------------------
  // State, draft and player endpoints

  /** `get_nfl_state()`: the sport reads back. */
  function StateUrl(p: Parser): (url: string)
    ensures Between(url, p.baseUrl + "/state/", "") == Some(p.sport)
  {
    BetweenRoundTrip(p.baseUrl + "/state/", p.sport, "");
    assert p.baseUrl + "/state/" + p.sport + "" == p.baseUrl + "/state/" + p.sport;
    p.baseUrl + "/state/" + p.sport
  }

  /** `get_specific_draft(draft_id)`: the draft id reads back. */
  function DraftUrl(p: Parser, draftId: string): (url: string)
    ensures Between(url, p.baseUrl + "/draft/", "") == Some(draftId)
  {
    BetweenRoundTrip(p.baseUrl + "/draft/", draftId, "");
    assert p.baseUrl + "/draft/" + draftId + "" == p.baseUrl + "/draft/" + draftId;
    p.baseUrl + "/draft/" + draftId
  }

  /** `get_all_picks_in_draft(draft_id)`: the draft id reads back from before "/picks". */
  function PicksUrl(p: Parser, draftId: string): (url: string)
    ensures Between(url, p.baseUrl + "/draft/", "/picks") == Some(draftId)
  {
    BetweenRoundTrip(p.baseUrl + "/draft/", draftId, "/picks");
    p.baseUrl + "/draft/" + draftId + "/picks"
  }

  /** `get_traded_picks_in_draft(draft_id)`: the draft id reads back from before "/traded_picks". */
  function TradedPicksUrl(p: Parser, draftId: string): (url: string)
    ensures Between(url, p.baseUrl + "/draft/", "/traded_picks") == Some(draftId)
  {
    BetweenRoundTrip(p.baseUrl + "/draft/", draftId, "/traded_picks");
    p.baseUrl + "/draft/" + draftId + "/traded_picks"
  }

  /** The state URL of a fresh parser. */
  lemma StateUrlExample(currentYear: string)
    ensures StateUrl(NewParser(currentYear)) == "https://api.sleeper.app/v1/state/nfl"
  {
  }

  /** `fetch_all_players()`: a fixed URL on another host, whatever the parser. */
  function AllPlayersUrl(p: Parser): (url: string)
    ensures url == PlayersDataUrl
    ensures PlayersDataHost <= url
  {
    PlayersDataUrl
  }

  /** The player-data URL is the same for every parser and is not under the API's base URL. */
  lemma AllPlayersUrlIgnoresBase(p: Parser, q: Parser)
    ensures AllPlayersUrl(p) == AllPlayersUrl(q)
    ensures !(BaseUrl <= AllPlayersUrl(p))
  {
    assert AllPlayersUrl(p)[8] == PlayersDataHost[8] == 'r';
    assert BaseUrl[8] == 'a';
  }

  /**
   * `get_trending_players(trend_type, lookback_hours, limit)`: the trend type
   * reads back from before the query; an explicit None is written "None".
   */
  function TrendingUrl(p: Parser, trendType: string, lookbackHours: Option<string>, limit: Option<string>): (url: string)
    ensures Between(url, p.baseUrl + "/players/" + p.sport + "/trending/",
                    "?lookback_hours=" + Format(lookbackHours) + "&limit=" + Format(limit)) == Some(trendType)
  {
    var prefix := p.baseUrl + "/players/" + p.sport + "/trending/";
    var query := "?lookback_hours=" + Format(lookbackHours) + "&limit=" + Format(limit);
    BetweenRoundTrip(prefix, trendType, query);
    prefix + trendType + query
  }

  /** `get_trending_players(trend_type)` with the defaults "24" and "25". */
  function TrendingUrlDefaults(p: Parser, trendType: string): (url: string)
    ensures Between(url, p.baseUrl + "/players/" + p.sport + "/trending/", "?lookback_hours=24&limit=25") == Some(trendType)
  {
    assert "?lookback_hours=" + Format(Some("24")) + "&limit=" + Format(Some("25")) == "?lookback_hours=24&limit=25";
    TrendingUrl(p, trendType, Some("24"), Some("25"))
  }

  /**
   * The trending URL with its defaults is the query the test issues, and
   * passing None explicitly substitutes no default.
   */
  lemma TrendingUrlShape(p: Parser, trendType: string)
    ensures Between(TrendingUrlDefaults(p, trendType),
                    p.baseUrl + "/players/" + p.sport + "/trending/",
                    "?lookback_hours=24&limit=25") == Some(trendType)
    ensures Between(TrendingUrl(p, trendType, None, None),
                    p.baseUrl + "/players/" + p.sport + "/trending/",
                    "?lookback_hours=None&limit=None") == Some(trendType)
  {
    assert "?lookback_hours=" + "24" + "&limit=" + "25" == "?lookback_hours=24&limit=25";
    assert "?lookback_hours=" + "None" + "&limit=" + "None" == "?lookback_hours=None&limit=None";
  }
}
