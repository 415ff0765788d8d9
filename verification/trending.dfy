/**
 * The trending-player / roster reconciliation of `test_get_trending_players`
 * (test/test_parser.py), with the HTTP responses passed in as data:
 *   1. keep the trending ids that contain no letter (team defences such as
 *      "DET" are dropped);
 *   2. for each league in turn, extend ONE rostered list with every roster's
 *      `players` list, and append to ONE available list a player for every
 *      kept trending id not (yet) in the rostered list.
 * Both lists are created once before the league loop and never reset, so
 * they accumulate across leagues.
 */
module Trending {
  import opened Wrappers
  import opened PyText
  import opened Players

  /** One element of the trending response: `{"player_id": ..., "count": ...}`. */
  datatype TrendEntry = TrendEntry(playerId: string, count: int)

  /** A roster object; `players` is None when the key is missing or null. */
  datatype Roster = Roster(players: Option<seq<string>>)

  /** A league with the rosters it holds. */
  datatype League = League(rosters: seq<Roster>)

  /** `roster["players"]` raised (KeyError) or `extend(None)` raised (TypeError). */
  datatype ReconcileError = MissingPlayers

  /** The two accumulators of the league loop. */
  datatype Accumulators = Accumulators(rostered: seq<string>, available: seq<Player<string>>)

  // ---------------------------------------------------------------------------
  // contains_letter and the trending filter

  /** `contains_letter(s)`: `any(char.isalpha() for char in s)`. */
  function ContainsLetter(s: string): (r: bool)
    ensures r <==> exists i :: 0 <= i < |s| && IsLetter(s[i])
  {
    if |s| == 0 then false
    else if IsLetter(s[0]) then true
    else
      var rest := ContainsLetter(s[1..]);
      assert forall i :: 1 <= i < |s| ==> s[i] == s[1..][i - 1];
      rest
  }

  /** The ids the trending loop keeps, in response order. */
  function TrendingIds(response: seq<TrendEntry>): (ids: seq<string>)
    ensures |ids| <= |response|
    ensures forall id :: id in ids ==> !ContainsLetter(id)
    ensures forall id :: id in ids <==> exists i :: 0 <= i < |response| && response[i].playerId == id && !ContainsLetter(id)
  {
    if |response| == 0 then []
    else
      var rest := TrendingIds(response[..|response| - 1]);
      var last := response[|response| - 1];
      assert forall i :: 0 <= i < |response| - 1 ==> response[..|response| - 1][i] == response[i];
      if ContainsLetter(last.playerId) then rest else rest + [last.playerId]
  }

  // ---------------------------------------------------------------------------
  // One league pass and the fold over leagues

  /** True when every roster of the league has a `players` list. */
  predicate HasAllPlayers(league: League) {
    forall r :: r in league.rosters ==> r.players.Some?
  }

  /** The concatenation of the rosters' `players` lists, in roster order. */
  function RosterIds(rosters: seq<Roster>): seq<string>
    requires forall r :: r in rosters ==> r.players.Some?
  {
    if |rosters| == 0 then []
    else RosterIds(rosters[..|rosters| - 1]) + rosters[|rosters| - 1].players.value
  }

  /** The players, in trending order, whose id is not in `rostered`. */
  function AvailableIn(trending: seq<string>, rostered: seq<string>): (out: seq<Player<string>>)
    ensures |out| <= |trending|
    ensures forall p :: p in out ==> p.source in trending && p.source !in rostered
  {
    if |trending| == 0 then []
    else
      var rest := AvailableIn(trending[..|trending| - 1], rostered);
      var last := trending[|trending| - 1];
      if last !in rostered then rest + [Player(last)] else rest
  }

  /**
   * The body of the league loop: extend the rostered list roster by roster,
   * then append the trending ids missing from it.
   */
  function LeaguePass(acc: Accumulators, trending: seq<string>, league: League)
    : (r: Result<Accumulators, ReconcileError>)
    ensures r.Success? <==> HasAllPlayers(league)
    ensures r.Success? ==>
              && acc.rostered <= r.value.rostered
              && (forall k, id ::
                    (0 <= k < |league.rosters| && league.rosters[k].players.Some? && id in league.rosters[k].players.value)
                    ==> id in r.value.rostered)
    ensures r.Success? ==>
              && acc.available <= r.value.available
              && |r.value.available| <= |acc.available| + |trending|
              && forall p :: p in r.value.available[|acc.available|..] ==>
                               p.source in trending && p.source !in r.value.rostered
  {
    if !HasAllPlayers(league) then Failure(MissingPlayers)
    else
      var ids := RosterIds(league.rosters);
      var rostered := acc.rostered + ids;
      forall k, id | 0 <= k < |league.rosters| && league.rosters[k].players.Some?
                     && id in league.rosters[k].players.value
        ensures id in rostered
      {
        RosterIdsContain(league.rosters, k, id);
      }
      var appended := AvailableIn(trending, rostered);
      assert (acc.available + appended)[|acc.available|..] == appended;
      Success(Accumulators(rostered, acc.available + appended))
  }

  /** True when every roster of every league has a `players` list. */
  predicate AllHavePlayers(leagues: seq<League>) {
    forall l :: l in leagues ==> HasAllPlayers(l)
  }

  /** The ids of every roster of every league, league after league. */
  function AllRosteredIds(leagues: seq<League>): seq<string>
    requires AllHavePlayers(leagues)
  {
    if |leagues| == 0 then []
    else
      var init := leagues[..|leagues| - 1];
      assert forall l :: l in init ==> l in leagues;
      assert leagues[|leagues| - 1] in leagues;
      AllRosteredIds(init) + RosterIds(leagues[|leagues| - 1].rosters)
  }

  /**
   * The accumulators after the league loop has run over `leagues`, starting
   * from two empty lists. It fails exactly when some roster lacks `players`;
   * otherwise the rostered list is every rostered id of every league.
   */
  function Reconcile(trending: seq<string>, leagues: seq<League>): (r: Result<Accumulators, ReconcileError>)
    ensures r.Success? <==> AllHavePlayers(leagues)
    ensures r.Success? ==> r.value.rostered == AllRosteredIds(leagues)
  {
    if |leagues| == 0 then Success(Accumulators([], []))
    else
      var init := leagues[..|leagues| - 1];
      assert forall l :: l in init ==> l in leagues;
      match Reconcile(trending, init)
      case Failure(e) =>
        assert !AllHavePlayers(init);
        Failure(e)
      case Success(acc) => LeaguePass(acc, trending, leagues[|leagues| - 1])
  }

  // ---------------------------------------------------------------------------
  // Properties

  /** Splitting the response splits the kept ids: the filter keeps response order. */
  lemma {:induction false} TrendingIdsAppend(a: seq<TrendEntry>, b: seq<TrendEntry>)
    ensures TrendingIds(a + b) == TrendingIds(a) + TrendingIds(b)
    decreases |b|
  {
    if |b| > 0 {
      var b' := b[..|b| - 1];
      assert (a + b)[..|a + b| - 1] == a + b';
      TrendingIdsAppend(a, b');
    } else {
      assert a + b == a;
    }
  }

  /** A single entry is kept exactly when its id has no letter. */
  lemma TrendingIdsSingle(e: TrendEntry)
    ensures TrendingIds([e]) == (if ContainsLetter(e.playerId) then [] else [e.playerId])
  {
    assert [e][..0] == [];
  }

  /** A team defence id such as "DET" is never kept. */
  lemma DefenceNeverTrending(response: seq<TrendEntry>)
    ensures "DET" !in TrendingIds(response)
  {
    assert IsLetter("DET"[0]);
  }

  /** Splitting the trending list splits the available players the same way. */
  lemma {:induction false} AvailableInAppend(a: seq<string>, b: seq<string>, rostered: seq<string>)
    ensures AvailableIn(a + b, rostered) == AvailableIn(a, rostered) + AvailableIn(b, rostered)
    decreases |b|
  {
    if |b| > 0 {
      var b' := b[..|b| - 1];
      assert (a + b)[..|a + b| - 1] == a + b';
      AvailableInAppend(a, b', rostered);
    } else {
      assert a + b == a;
    }
  }

  /**
   * A league pass appends exactly AvailableIn(trending, rostered) for the
   * rostered list as it stands after that league's rosters, and every id it
   * appends is absent from that list.
   */
  lemma PassAppendsOnlyUnrostered(trending: seq<string>, leagues: seq<League>, k: nat)
    requires k < |leagues| && AllHavePlayers(leagues)
    ensures Reconcile(trending, leagues[..k]).Success? && Reconcile(trending, leagues[..k + 1]).Success?
    ensures var before := Reconcile(trending, leagues[..k]).value;
            var after := Reconcile(trending, leagues[..k + 1]).value;
            && after.available == before.available + AvailableIn(trending, after.rostered)
            && forall p :: p in after.available[|before.available|..] ==> p.source !in after.rostered
  {
    var pre := leagues[..k + 1];
    assert pre[..|pre| - 1] == leagues[..k];
    assert forall l :: l in pre ==> l in leagues;
    assert forall l :: l in leagues[..k] ==> l in leagues;
    var before := Reconcile(trending, leagues[..k]).value;
    var after := Reconcile(trending, pre).value;
    assert after.available[|before.available|..] == AvailableIn(trending, after.rostered);
  }

  /** The rostered list only grows: after league k it extends the list after league j <= k. */
  lemma {:induction false} RosteredGrows(leagues: seq<League>, j: nat, k: nat)
    requires j <= k <= |leagues| && AllHavePlayers(leagues)
    ensures AllHavePlayers(leagues[..j]) && AllHavePlayers(leagues[..k])
    ensures AllRosteredIds(leagues[..j]) <= AllRosteredIds(leagues[..k])
    decreases k - j
  {
    assert forall l :: l in leagues[..j] ==> l in leagues;
    assert forall l :: l in leagues[..k] ==> l in leagues;
    if j < k {
      RosteredGrows(leagues, j, k - 1);
      var pre := leagues[..k];
      assert pre[..|pre| - 1] == leagues[..k - 1];
    }
  }

  /** A roster's ids are part of its league's rostered ids. */
  lemma {:induction false} RosterIdsContain(rosters: seq<Roster>, i: nat, id: string)
    requires forall r :: r in rosters ==> r.players.Some?
    requires i < |rosters| && id in rosters[i].players.value
    ensures id in RosterIds(rosters)
  {
    var init := rosters[..|rosters| - 1];
    assert forall r :: r in init ==> r in rosters;
    if i < |rosters| - 1 {
      assert init[i] == rosters[i];
      RosterIdsContain(init, i, id);
    }
  }

  /**
   * A trending id rostered in league j is never reported available during
   * the pass of league j or of any later league k.
   */
  lemma RosteredEarlierNeverAvailable(trending: seq<string>, leagues: seq<League>, j: nat, k: nat, r: nat, id: string)
    requires j <= k < |leagues| && AllHavePlayers(leagues)
    requires r < |leagues[j].rosters| && leagues[j].rosters[r].players.Some?
    requires id in leagues[j].rosters[r].players.value
    ensures Reconcile(trending, leagues[..k]).Success? && Reconcile(trending, leagues[..k + 1]).Success?
    ensures var before := Reconcile(trending, leagues[..k]).value;
            var after := Reconcile(trending, leagues[..k + 1]).value;
            |before.available| <= |after.available|
            && Player(id) !in after.available[|before.available|..]
  {
    assert leagues[j] in leagues;
    RosterIdsContain(leagues[j].rosters, r, id);
    var pre := leagues[..j + 1];
    assert pre[..|pre| - 1] == leagues[..j];
    assert forall l :: l in pre ==> l in leagues;
    assert id in AllRosteredIds(pre);
    RosteredGrows(leagues, j + 1, k + 1);
    PassAppendsOnlyUnrostered(trending, leagues, k);
  }

  /** The number of players appended by one pass for a given id. */
  lemma {:induction false} AvailableInCount(trending: seq<string>, rostered: seq<string>, id: string)
    ensures id !in rostered ==> multiset(AvailableIn(trending, rostered))[Player(id)] == multiset(trending)[id]
    ensures id in rostered ==> multiset(AvailableIn(trending, rostered))[Player(id)] == 0
  {
    if |trending| > 0 {
      var init := trending[..|trending| - 1];
      AvailableInCount(init, rostered, id);
      assert trending == init + [trending[|trending| - 1]];
    }
  }

  /** Each league pass adds AvailableIn(trending, ·) for the rostered list after that league. */
  lemma LastPass(trending: seq<string>, leagues: seq<League>)
    requires |leagues| > 0 && AllHavePlayers(leagues)
    ensures AllHavePlayers(leagues[..|leagues| - 1])
    ensures Reconcile(trending, leagues).value.available
            == Reconcile(trending, leagues[..|leagues| - 1]).value.available
               + AvailableIn(trending, AllRosteredIds(leagues))
    ensures AllRosteredIds(leagues[..|leagues| - 1]) <= AllRosteredIds(leagues)
  {
    assert forall l :: l in leagues[..|leagues| - 1] ==> l in leagues;
  }

  lemma MulSucc(a: nat, b: nat)
    ensures (a + 1) * b == a * b + b
  {
  }

  /** The available list is never cleared, so n league passes add at most n * |trending| players. */
  lemma {:induction false} AvailableBound(trending: seq<string>, leagues: seq<League>)
    requires AllHavePlayers(leagues)
    ensures |Reconcile(trending, leagues).value.available| <= |leagues| * |trending|
  {
    if |leagues| > 0 {
      var init := leagues[..|leagues| - 1];
      LastPass(trending, leagues);
      AvailableBound(trending, init);
      MulSucc(|init|, |trending|);
    }
  }

  /**
   * An id rostered in no league is appended once per league for each time it
   * is trending: the available list is never cleared between leagues.
   */
  lemma {:induction false} UnrosteredRepeatsPerLeague(trending: seq<string>, leagues: seq<League>, id: string)
    requires AllHavePlayers(leagues)
    requires id !in AllRosteredIds(leagues)
    ensures multiset(Reconcile(trending, leagues).value.available)[Player(id)]
            == |leagues| * multiset(trending)[id]
  {
    if |leagues| > 0 {
      var init := leagues[..|leagues| - 1];
      LastPass(trending, leagues);
      UnrosteredRepeatsPerLeague(trending, init, id);
      AvailableInCount(trending, AllRosteredIds(leagues), id);
      var before := Reconcile(trending, init).value.available;
      var added := AvailableIn(trending, AllRosteredIds(leagues));
      assert multiset(before + added) == multiset(before) + multiset(added);
      MulSucc(|init|, multiset(trending)[id]);
    }
  }

  // ---------------------------------------------------------------------------
  // The test body, statement by statement

  /** The first loop of the test: keep the ids of the response that contain no letter. */
  method KeepTrending(response: seq<TrendEntry>) returns (trending: seq<string>)
    ensures trending == TrendingIds(response)
    ensures forall id :: id in trending <==> exists i :: 0 <= i < |response| && response[i].playerId == id && !ContainsLetter(id)
  {
    trending := [];
    var t := 0;
    while t < |response|
      invariant t <= |response|
      invariant trending == TrendingIds(response[..t])
    {
      assert response[..t + 1][..t] == response[..t];
      if !ContainsLetter(response[t].playerId) {
        trending := trending + [response[t].playerId];
      }
      t := t + 1;
    }
    assert response[..t] == response;
  }

  /** The roster loop of one league: `rostered_players.extend(roster["players"])` for each roster. */
  method ExtendRostered(rostered: seq<string>, rosters: seq<Roster>) returns (r: Option<seq<string>>)
    ensures r.Some? <==> forall x :: x in rosters ==> x.players.Some?
    ensures r.Some? ==> r.value == rostered + RosterIds(rosters)
  {
    var acc := rostered;
    var i := 0;
    while i < |rosters|
      invariant i <= |rosters|
      invariant forall j :: 0 <= j < i ==> rosters[j].players.Some?
      invariant acc == rostered + RosterIds(rosters[..i])
    {
      if rosters[i].players.None? {
        assert rosters[i] in rosters;
        return None;
      }
      assert rosters[..i + 1][..i] == rosters[..i];
      acc := acc + rosters[i].players.value;
      i := i + 1;
    }
    assert rosters[..i] == rosters;
    return Some(acc);
  }

  /** The availability loop of one league: a player for each trending id not rostered. */
  method CollectAvailable(trending: seq<string>, rostered: seq<string>) returns (appended: seq<Player<string>>)
    ensures appended == AvailableIn(trending, rostered)
    ensures forall p :: p in appended ==> p.source in trending && p.source !in rostered
  {
    var p := 0;
    appended := [];
    while p < |trending|
      invariant p <= |trending|
      invariant appended == AvailableIn(trending[..p], rostered)
    {
      assert trending[..p + 1][..p] == trending[..p];
      if trending[p] !in rostered {
        appended := appended + [Player(trending[p])];
      }
      p := p + 1;
    }
    assert trending[..p] == trending;
  }

  /**
   * The loops of `test_get_trending_players` over in-memory responses, with
   * the two accumulators created once before the league loop. Its results
   * are those of the fold above: the kept trending list is the letter-free
   * ids, the run fails exactly when a roster lacks `players`, and otherwise
   * the rostered list is every rostered id of every league.
   */
  method RunTrendingCheck(response: seq<TrendEntry>, leagues: seq<League>)
    returns (trending: seq<string>, r: Result<Accumulators, ReconcileError>)
    ensures trending == TrendingIds(response)
    ensures r == Reconcile(trending, leagues)
    ensures r.Success? <==> AllHavePlayers(leagues)
    ensures r.Success? ==> r.value.rostered == AllRosteredIds(leagues)
  {
    trending := KeepTrending(response);
    var rostered: seq<string> := [];
    var available: seq<Player<string>> := [];
    var k := 0;
    while k < |leagues|
      invariant k <= |leagues|
      invariant Reconcile(trending, leagues[..k]) == Success(Accumulators(rostered, available))
    {
      var extended := ExtendRostered(rostered, leagues[k].rosters);
      if extended.None? {
        assert !HasAllPlayers(leagues[k]);
        assert leagues[..k + 1][k] == leagues[k];
        assert leagues[k] in leagues[..k + 1];
        FailureIsPermanent(trending, leagues, k + 1);
        r := Failure(MissingPlayers);
        return;
      }
      rostered := extended.value;
      var appended := CollectAvailable(trending, rostered);
      available := available + appended;
      assert leagues[..k + 1][..k] == leagues[..k];
      k := k + 1;
    }
    assert leagues[..k] == leagues;
    r := Success(Accumulators(rostered, available));
  }

  /** Once the fold has failed on a prefix, it fails on every longer prefix. */
  lemma {:induction false} FailureIsPermanent(trending: seq<string>, leagues: seq<League>, n: nat)
    requires n <= |leagues|
    requires !AllHavePlayers(leagues[..n])
    ensures Reconcile(trending, leagues) == Failure(MissingPlayers)
  {
    assert forall l :: l in leagues[..n] ==> l in leagues;
    assert Reconcile(trending, leagues).error.MissingPlayers?;
  }
}
