/**
 * League enum predicates (script/leagues/leagues.py): roster-slot code
 * validation, the slot-to-player-type chain of `LeaguePositions.add_player`,
 * and the best-ball, league-type and playoff-seeding predicates.
 *
 * The source compares raw JSON values with members of plain `Enum` classes.
 * A plain Enum member equals only itself, so such a comparison is false for
 * every JSON value; `Setting` and `SlotValue` keep the two kinds apart so
 * that this behaviour is stated rather than hidden.
 */
module Leagues {
  import opened Wrappers
  import Constants

  /** The module constant compared with `best_ball`. */
  const TRUE: int := 1

  // ---------------------------------------------------------------------------
  // RosterPosition

  /** The members of `RosterPosition`, in declaration order. */
  datatype RosterPosition = QB | RB | WR | TE | FLEX | SUPER_FLEX | DEF | K | BN

  function PositionValue(p: RosterPosition): string {
    match p
    case QB => "QB"
    case RB => "RB"
    case WR => "WR"
    case TE => "TE"
    case FLEX => "FLEX"
    case SUPER_FLEX => "SUPER_FLEX"
    case DEF => "DEF"
    case K => "K"
    case BN => "BN"
  }

  /** The keys of `_value2member_map_`, in declaration order. */
  const MemberOrder: seq<RosterPosition> := [QB, RB, WR, TE, FLEX, SUPER_FLEX, DEF, K, BN]

  /** The position of a member in declaration order. */
  function MemberIndex(p: RosterPosition): (i: nat)
    ensures i < |MemberOrder|
  {
    match p
    case QB => 0
    case RB => 1
    case WR => 2
    case TE => 3
    case FLEX => 4
    case SUPER_FLEX => 5
    case DEF => 6
    case K => 7
    case BN => 8
  }

  lemma MemberIndexCorrect(p: RosterPosition)
    ensures MemberOrder[MemberIndex(p)] == p
  {
  }

  /** `value in (v for v in ...)`: a linear search with `==` over the member values. */
  function ValueAmong(value: string, members: seq<RosterPosition>): (r: bool)
    ensures r <==> exists i :: 0 <= i < |members| && PositionValue(members[i]) == value
  {
    if |members| == 0 then false
    else if PositionValue(members[0]) == value then true
    else
      var rest := ValueAmong(value, members[1..]);
      assert forall i :: 1 <= i < |members| ==> members[i] == members[1..][i - 1];
      rest
  }

  /** `RosterPosition.validate`: the value is some member's value. */
  function Validate(value: string): (r: bool)
    ensures r <==> exists p :: PositionValue(p) == value
  {
    ValueAmongAllMembers(value);
    ValueAmong(value, MemberOrder)
  }

  /** Searching the declaration order finds a value exactly when some member has it. */
  lemma ValueAmongAllMembers(value: string)
    ensures ValueAmong(value, MemberOrder) <==> exists p :: PositionValue(p) == value
  {
    if ValueAmong(value, MemberOrder) {
      var i :| 0 <= i < |MemberOrder| && PositionValue(MemberOrder[i]) == value;
      assert PositionValue(MemberOrder[i]) == value;
    }
    if exists p :: PositionValue(p) == value {
      var p :| PositionValue(p) == value;
      MemberIndexCorrect(p);
      assert PositionValue(MemberOrder[MemberIndex(p)]) == value;
    }
  }

  /** `validate` accepts exactly the nine codes, case-sensitively. */
  lemma ValidateExactly(value: string)
    ensures Validate(value) <==> value in {"QB", "RB", "WR", "TE", "FLEX", "SUPER_FLEX", "DEF", "K", "BN"}
  {
    if value in {"QB", "RB", "WR", "TE", "FLEX", "SUPER_FLEX", "DEF", "K", "BN"} {
      var p := if value == "QB" then QB else if value == "RB" then RB else if value == "WR" then WR
               else if value == "TE" then TE else if value == "FLEX" then FLEX
               else if value == "SUPER_FLEX" then SUPER_FLEX else if value == "DEF" then DEF
               else if value == "K" then K else BN;
      assert PositionValue(p) == value;
    }
  }

  /** The check is case-sensitive: lower-case codes are rejected. */
  lemma ValidateIsCaseSensitive()
    ensures !Validate("qb") && !Validate("Flex") && !Validate("bn")
  {
    ValidateExactly("qb");
    ValidateExactly("Flex");
    ValidateExactly("bn");
  }

  /**
   * Slot codes against position normalisation: a valid slot maps to itself
   * under `map_position` exactly when it is not FLEX, SUPER_FLEX or BN,
   * which map to "Unknown Position".
   */
  lemma SlotsAsPositions(p: RosterPosition)
    ensures p in {FLEX, SUPER_FLEX, BN} ==> Constants.MapPosition(PositionValue(p)) == Constants.UnknownPosition
    ensures p !in {FLEX, SUPER_FLEX, BN} ==> Constants.MapPosition(PositionValue(p)) == PositionValue(p)
  {
    Constants.SlotCodesAreUnknown();
    match p
    case QB => Constants.CodeMapsToItself(Constants.QB);
    case RB => Constants.CodeMapsToItself(Constants.RB);
    case WR => Constants.CodeMapsToItself(Constants.WR);
    case TE => Constants.CodeMapsToItself(Constants.TE);
    case DEF => Constants.CodeMapsToItself(Constants.DEF);
    case K => Constants.CodeMapsToItself(Constants.K);
    case FLEX =>
    case SUPER_FLEX =>
    case BN =>
  }

  // ---------------------------------------------------------------------------
  // LeaguePositions.add_player

  /**
   * The classes `add_player` appends. The DEF slot appends `Defense`, which
   * in that module names the defence scoring-settings class, not a player
   * type; the tag says so.
   */
  datatype PlayerType =
    Quarterback | RunningBack | WideReceiver | TightEnd | Flex | SuperFlex | DefenseScoring | Kicker | Bench

  /** The branch of `add_player` taken for a member. */
  function TypeOf(p: RosterPosition): (t: PlayerType)
    ensures p == QB <==> t == Quarterback
    ensures p == RB <==> t == RunningBack
    ensures p == WR <==> t == WideReceiver
    ensures p == TE <==> t == TightEnd
    ensures p == FLEX <==> t == Flex
    ensures p == SUPER_FLEX <==> t == SuperFlex
    ensures p == DEF <==> t == DefenseScoring
    ensures p == K <==> t == Kicker
    ensures p == BN <==> t == Bench
  {
    match p
    case QB => Quarterback
    case RB => RunningBack
    case WR => WideReceiver
    case TE => TightEnd
    case FLEX => Flex
    case SUPER_FLEX => SuperFlex
    case DEF => DefenseScoring
    case K => Kicker
    case BN => Bench
  }

  /** An element of `roster_position_data`: an enum member or a raw JSON string. */
  datatype SlotValue = Member(position: RosterPosition) | Raw(text: string)

  datatype PositionsError =
    | NotIterable          // `roster_positions` was missing or null
    | NoValidPlayerType    // the ValueError of the final else branch

  /**
   * A `LeaguePositions` object: the slot data given to the constructor and
   * the list `add_player` appends to (empty after construction).
   */
  datatype LeaguePositions = LeaguePositions(data: Option<seq<SlotValue>>, positions: seq<PlayerType>)

  /** The texts of a slot list made of raw strings only; None once a member occurs. */
  function RawTexts(data: seq<SlotValue>): Option<seq<string>> {
    if |data| == 0 then Some([])
    else match data[0]
      case Member(_) => None
      case Raw(t) =>
        match RawTexts(data[1..])
        case None => None
        case Some(rest) => Some([t] + rest)
  }

  /** Wrapping each string as a raw slot and reading the texts back gives the strings. */
  lemma {:induction false} RawTextsOfRaw(texts: seq<string>, data: seq<SlotValue>)
    requires |data| == |texts| && forall i :: 0 <= i < |texts| ==> data[i] == Raw(texts[i])
    ensures RawTexts(data) == Some(texts)
  {
    if |data| > 0 {
      RawTextsOfRaw(texts[1..], data[1..]);
      assert texts == [texts[0]] + texts[1..];
    }
  }

  /** Reading the texts back succeeds only on raw slots, and gives one text per slot. */
  lemma {:induction false} RawTextsInverse(data: seq<SlotValue>, texts: seq<string>)
    requires RawTexts(data) == Some(texts)
    ensures |data| == |texts| && forall i :: 0 <= i < |data| ==> data[i] == Raw(texts[i])
  {
    if |data| > 0 {
      var rest := RawTexts(data[1..]).value;
      RawTextsInverse(data[1..], rest);
      assert texts == [data[0].text] + rest;
      forall i | 0 <= i < |data|
        ensures data[i] == Raw(texts[i])
      {
        if i > 0 {
          assert data[i] == data[1..][i - 1];
        }
      }
    }
  }

  /**
   * `LeaguePositions(roster_positions)` as `League` builds it from JSON
   * strings: no slot is ever an enum member, the strings read back
   * unchanged, and the position list starts empty.
   */
  function PositionsFromJson(rosterPositions: Option<seq<string>>): (lp: LeaguePositions)
    ensures lp.positions == []
    ensures rosterPositions.Some? <==> lp.data.Some?
    ensures lp.data.Some? ==> forall i :: 0 <= i < |lp.data.value| ==> !lp.data.value[i].Member?
    ensures lp.data.Some? ==> RawTexts(lp.data.value) == rosterPositions
  {
    match rosterPositions
    case None => LeaguePositions(None, [])
    case Some(s) =>
      var data := seq(|s|, i requires 0 <= i < |s| => Raw(s[i]));
      RawTextsOfRaw(s, data);
      LeaguePositions(Some(data), [])
  }

  /** The state after `add_player`: the appended list, and the exception if one was raised. */
  datatype AddOutcome = AddOutcome(positions: seq<PlayerType>, raised: Option<PositionsError>)

  /** True when every slot value is an enum member. */
  predicate AllMembers(data: seq<SlotValue>) {
    forall i :: 0 <= i < |data| ==> data[i].Member?
  }

  /** The loop of `add_player` over `data`, appending to `acc`; it stops at the first raw value. */
  function AppendTypes(acc: seq<PlayerType>, data: seq<SlotValue>): (r: AddOutcome)
    ensures r.raised.None? <==> AllMembers(data)
    ensures r.raised.Some? ==> r.raised.value == NoValidPlayerType
    ensures r.raised.Some? ==>
              && |acc| <= |r.positions| < |acc| + |data|
              && r.positions[..|acc|] == acc
              && data[|r.positions| - |acc|].Raw?
              && forall i :: 0 <= i < |r.positions| - |acc| ==>
                   data[i].Member? && r.positions[|acc| + i] == TypeOf(data[i].position)
    ensures r.raised.None? ==>
              && |r.positions| == |acc| + |data|
              && r.positions[..|acc|] == acc
              && forall i :: 0 <= i < |data| ==> r.positions[|acc| + i] == TypeOf(data[i].position)
    decreases |data|
  {
    if |data| == 0 then AddOutcome(acc, None)
    else match data[0]
      case Raw(_) => AddOutcome(acc, Some(NoValidPlayerType))
      case Member(p) =>
        var r := AppendTypes(acc + [TypeOf(p)], data[1..]);
        assert AllMembers(data) <==> AllMembers(data[1..]) by {
          assert forall i :: 1 <= i < |data| ==> data[i] == data[1..][i - 1];
        }
        assert r.raised.None? ==> r.positions[..|acc| + 1][..|acc|] == r.positions[..|acc|];
        r
  }

  /**
   * `LeaguePositions.add_player`: a missing slot list is not iterable; it
   * finishes exactly when every slot is a member, having appended one tag per
   * slot in slot order after the existing positions. Otherwise it raises at
   * the first raw slot, keeping the tags appended before it.
   */
  function AddPlayer(lp: LeaguePositions): (r: AddOutcome)
    ensures lp.data.None? ==> r == AddOutcome(lp.positions, Some(NotIterable))
    ensures lp.data.Some? && r.raised.Some? ==>
              && r.raised.value == NoValidPlayerType
              && |lp.positions| <= |r.positions| < |lp.positions| + |lp.data.value|
              && r.positions[..|lp.positions|] == lp.positions
              && lp.data.value[|r.positions| - |lp.positions|].Raw?
    ensures r.raised.None? <==> lp.data.Some? && AllMembers(lp.data.value)
    ensures r.raised.None? ==>
              && |r.positions| == |lp.positions| + |lp.data.value|
              && r.positions[..|lp.positions|] == lp.positions
              && forall i :: 0 <= i < |lp.data.value| ==>
                   r.positions[|lp.positions| + i] == TypeOf(lp.data.value[i].position)
  {
    match lp.data
    case None => AddOutcome(lp.positions, Some(NotIterable))
    case Some(data) => AppendTypes(lp.positions, data)
  }

  /** An empty slot list succeeds and leaves the position list as it was. */
  lemma EmptySlotsSucceed(positions: seq<PlayerType>)
    ensures AddPlayer(LeaguePositions(Some([]), positions)) == AddOutcome(positions, None)
  {
  }

  /** On a fresh object, the members give one tag per slot, in slot order, duplicates kept. */
  lemma OneTagPerSlot(slots: seq<RosterPosition>)
    ensures var r := AddPlayer(LeaguePositions(Some(seq(|slots|, i requires 0 <= i < |slots| => Member(slots[i]))), []));
            && r.raised.None?
            && |r.positions| == |slots|
            && forall i :: 0 <= i < |slots| ==> r.positions[i] == TypeOf(slots[i])
  {
    var data := seq(|slots|, i requires 0 <= i < |slots| => Member(slots[i]));
    assert AllMembers(data);
    var r := AppendTypes([], data);
    assert AddPlayer(LeaguePositions(Some(data), [])) == r;
    assert |r.positions| == |slots|;
    forall i | 0 <= i < |slots|
      ensures r.positions[i] == TypeOf(slots[i])
    {
      assert r.positions[0 + i] == TypeOf(data[i].position);
    }
  }

  /** Two RB slots give two running-back tags. */
  lemma DuplicatesKept()
    ensures AddPlayer(LeaguePositions(Some([Member(RB), Member(RB), Member(BN)]), []))
            == AddOutcome([RunningBack, RunningBack, Bench], None)
  {
    var data := [Member(RB), Member(RB), Member(BN)];
    var r := AddPlayer(LeaguePositions(Some(data), []));
    assert r.raised.None?;
    assert r.positions == [RunningBack, RunningBack, Bench];
  }

  /**
   * The JSON strings `League` passes are never equal to an enum member, so
   * any non-empty slot list raises at its first element with nothing added.
   */
  lemma JsonSlotsAlwaysRaise(rosterPositions: seq<string>)
    requires |rosterPositions| > 0
    ensures AddPlayer(PositionsFromJson(Some(rosterPositions))) == AddOutcome([], Some(NoValidPlayerType))
  {
    var lp := PositionsFromJson(Some(rosterPositions));
    assert lp.data.value[0] == Raw(rosterPositions[0]);
  }

  /** Each tag comes from one slot code: the chain is injective. */
  lemma TypeOfInjective(p: RosterPosition, q: RosterPosition)
    ensures TypeOf(p) == TypeOf(q) ==> p == q
  {
  }

  // ---------------------------------------------------------------------------
  // add_player with the comparison its callers need

  /** The member whose value is `text`, if any. */
  function MemberWithValue(text: string): (r: Option<RosterPosition>)
    ensures r.Some? ==> PositionValue(r.value) == text
    ensures r.None? ==> !Validate(text)
  {
    ValidateExactly(text);
    if text == "QB" then Some(QB) else if text == "RB" then Some(RB)
    else if text == "WR" then Some(WR) else if text == "TE" then Some(TE)
    else if text == "FLEX" then Some(FLEX) else if text == "SUPER_FLEX" then Some(SUPER_FLEX)
    else if text == "DEF" then Some(DEF) else if text == "K" then Some(K)
    else if text == "BN" then Some(BN) else None
  }

  /** A slot value resolved by value: a raw string is looked up among the member values. */
  function Resolve(v: SlotValue): Option<RosterPosition> {
    match v
    case Member(p) => Some(p)
    case Raw(text) => MemberWithValue(text)
  }

  /** `add_player` comparing slot values with member values, so that JSON strings are accepted. */
  function AppendTypesByValue(acc: seq<PlayerType>, data: seq<SlotValue>): (r: AddOutcome)
    ensures r.raised.None? <==> forall i :: 0 <= i < |data| ==> Resolve(data[i]).Some?
    ensures r.raised.None? ==>
              && |r.positions| == |acc| + |data|
              && r.positions[..|acc|] == acc
              && forall i :: 0 <= i < |data| ==> r.positions[|acc| + i] == TypeOf(Resolve(data[i]).value)
    decreases |data|
  {
    if |data| == 0 then AddOutcome(acc, None)
    else match Resolve(data[0])
      case None => AddOutcome(acc, Some(NoValidPlayerType))
      case Some(p) =>
        var r := AppendTypesByValue(acc + [TypeOf(p)], data[1..]);
        assert forall i :: 1 <= i < |data| ==> data[i] == data[1..][i - 1];
        assert r.raised.None? ==> r.positions[..|acc| + 1][..|acc|] == r.positions[..|acc|];
        r
  }

  /**
   * The corrected `add_player`: a missing slot list is still not iterable;
   * it finishes exactly when every slot resolves to a member by value, having
   * appended one tag per slot in slot order after the existing positions.
   */
  function AddPlayerByValue(lp: LeaguePositions): (r: AddOutcome)
    ensures lp.data.None? ==> r == AddOutcome(lp.positions, Some(NotIterable))
    ensures r.raised.None? <==> lp.data.Some? && forall i :: 0 <= i < |lp.data.value| ==> Resolve(lp.data.value[i]).Some?
    ensures r.raised.None? ==>
              && |r.positions| == |lp.positions| + |lp.data.value|
              && r.positions[..|lp.positions|] == lp.positions
              && forall i :: 0 <= i < |lp.data.value| ==>
                   r.positions[|lp.positions| + i] == TypeOf(Resolve(lp.data.value[i]).value)
  {
    match lp.data
    case None => AddOutcome(lp.positions, Some(NotIterable))
    case Some(data) => AppendTypesByValue(lp.positions, data)
  }

  /** Valid JSON slot codes give one tag per slot under the corrected comparison. */
  lemma JsonSlotsByValue(rosterPositions: seq<string>)
    requires forall i :: 0 <= i < |rosterPositions| ==> Validate(rosterPositions[i])
    ensures var r := AddPlayerByValue(PositionsFromJson(Some(rosterPositions)));
            && r.raised.None?
            && |r.positions| == |rosterPositions|
            && forall i :: 0 <= i < |rosterPositions| ==>
                 r.positions[i] == TypeOf(MemberWithValue(rosterPositions[i]).value)
  {
    var lp := PositionsFromJson(Some(rosterPositions));
    RawTextsInverse(lp.data.value, rosterPositions);
    forall i | 0 <= i < |rosterPositions|
      ensures Resolve(lp.data.value[i]).Some?
    {
      assert lp.data.value[i] == Raw(rosterPositions[i]);
    }
  }

  /** The corrected comparison agrees with the original on enum members. */
  lemma {:induction false} ByValueAgreesOnMembers(acc: seq<PlayerType>, data: seq<SlotValue>)
    requires AllMembers(data)
    ensures AppendTypesByValue(acc, data) == AppendTypes(acc, data)
    decreases |data|
  {
    if |data| > 0 {
      assert AllMembers(data[1..]) by {
        assert forall i :: 1 <= i < |data| ==> data[i] == data[1..][i - 1];
      }
      ByValueAgreesOnMembers(acc + [TypeOf(data[0].position)], data[1..]);
    }
  }

  /** The input that separates the two: the JSON slot list ["QB"]. */
  lemma JsonQuarterbackCounterexample()
    ensures AddPlayer(PositionsFromJson(Some(["QB"]))) == AddOutcome([], Some(NoValidPlayerType))
    ensures AddPlayerByValue(PositionsFromJson(Some(["QB"]))) == AddOutcome([Quarterback], None)
  {
    JsonSlotsAlwaysRaise(["QB"]);
    var lp := PositionsFromJson(Some(["QB"]));
    assert lp.data.value == [Raw("QB")];
    var data := lp.data.value;
    assert data[1..] == [];
  }

  // ---------------------------------------------------------------------------
  // LeagueTopSettings and LeaguePlayoffData

  /** A scalar JSON value as `settings.get(key)` returns it; a missing key reads as JNull. */
  datatype JsonScalar = JNull | JBool(b: bool) | JInt(i: int) | JString(s: string)

  /** A setting holding either a raw JSON value or a member of the enum `E`. */
  datatype Setting<E> = RawSetting(json: JsonScalar) | EnumSetting(member: E)

  /** The members of `LeagueType` (the second definition, which the module keeps). */
  datatype LeagueType = REDRAFT | KEEPER | DYNASTY

  /** The members of `PlayoffSeedType`. */
  datatype PlayoffSeedType = DEFAULT | RE_SEED

  /** Python `v == n` for a JSON scalar and an int: bools compare as 0 and 1. */
  function PyEqualsInt(v: JsonScalar, n: int): bool {
    match v
    case JBool(b) => (if b then 1 else 0) == n
    case JInt(i) => i == n
    case _ => false
  }

  /** Python `setting == member` for a plain Enum: only the member itself is equal. */
  function PyEqualsMember<E(==)>(s: Setting<E>, m: E): bool {
    match s
    case EnumSetting(e) => e == m
    case RawSetting(_) => false
  }

  /** `is_best_ball`: `best_ball == TRUE`. */
  function IsBestBall(bestBall: JsonScalar): (r: bool)
    ensures r <==> bestBall == JInt(1) || bestBall == JBool(true)
  {
    PyEqualsInt(bestBall, TRUE)
  }

  /** `is_redraft`: holds only for the member REDRAFT itself, never for a raw JSON value. */
  function IsRedraft(leagueType: Setting<LeagueType>): (r: bool)
    ensures r <==> leagueType == EnumSetting(REDRAFT)
  {
    PyEqualsMember(leagueType, REDRAFT)
  }

  /** `is_keeper`: holds only for the member KEEPER itself, never for a raw JSON value. */
  function IsKeeper(leagueType: Setting<LeagueType>): (r: bool)
    ensures r <==> leagueType == EnumSetting(KEEPER)
  {
    PyEqualsMember(leagueType, KEEPER)
  }

  /** `is_dynasty`: holds only for the member DYNASTY itself, never for a raw JSON value. */
  function IsDynasty(leagueType: Setting<LeagueType>): (r: bool)
    ensures r <==> leagueType == EnumSetting(DYNASTY)
  {
    PyEqualsMember(leagueType, DYNASTY)
  }

  /** `is_default_seeding`: holds only for the member DEFAULT itself, never for a raw JSON value. */
  function IsDefaultSeeding(seedType: Setting<PlayoffSeedType>): (r: bool)
    ensures r <==> seedType == EnumSetting(DEFAULT)
  {
    PyEqualsMember(seedType, DEFAULT)
  }

  /** `is_re_seeding`: holds only for the member RE_SEED itself, never for a raw JSON value. */
  function IsReSeeding(seedType: Setting<PlayoffSeedType>): (r: bool)
    ensures r <==> seedType == EnumSetting(RE_SEED)
  {
    PyEqualsMember(seedType, RE_SEED)
  }

  /** Number of the three league-type predicates that hold. */
  function LeagueTypeCount(t: Setting<LeagueType>): nat {
    (if IsRedraft(t) then 1 else 0) + (if IsKeeper(t) then 1 else 0) + (if IsDynasty(t) then 1 else 0)
  }

  /**
   * At most one of is_redraft, is_keeper and is_dynasty holds; exactly one
   * for an enum member, and none for any raw JSON value such as the plain
   * integer the settings object carries.
   */
  lemma LeagueTypePredicates(t: Setting<LeagueType>)
    ensures LeagueTypeCount(t) <= 1
    ensures t.EnumSetting? ==> LeagueTypeCount(t) == 1
    ensures t.RawSetting? ==> LeagueTypeCount(t) == 0
  {
    if t.EnumSetting? {
      match t.member
      case REDRAFT => assert IsRedraft(t) && !IsKeeper(t) && !IsDynasty(t);
      case KEEPER => assert !IsRedraft(t) && IsKeeper(t) && !IsDynasty(t);
      case DYNASTY => assert !IsRedraft(t) && !IsKeeper(t) && IsDynasty(t);
    }
  }

  /** is_default_seeding and is_re_seeding never both hold, and neither holds for a raw value. */
  lemma SeedingPredicates(s: Setting<PlayoffSeedType>)
    ensures !(IsDefaultSeeding(s) && IsReSeeding(s))
    ensures s.EnumSetting? ==> IsDefaultSeeding(s) != IsReSeeding(s)
    ensures s.RawSetting? ==> !IsDefaultSeeding(s) && !IsReSeeding(s)
  {
    if s.EnumSetting? {
      match s.member
      case DEFAULT => assert IsDefaultSeeding(s) && !IsReSeeding(s);
      case RE_SEED => assert !IsDefaultSeeding(s) && IsReSeeding(s);
    }
  }

  /** The integer the API sends for a redraft league makes every type predicate false. */
  lemma RawTypeCounterexample()
    ensures !IsRedraft(RawSetting(JInt(0))) && !IsKeeper(RawSetting(JInt(1))) && !IsDynasty(RawSetting(JInt(2)))
    ensures !IsDefaultSeeding(RawSetting(JInt(0))) && !IsReSeeding(RawSetting(JInt(1)))
  {
  }

  // ---------------------------------------------------------------------------
  // The type and seeding predicates comparing with member values

  function LeagueTypeValue(t: LeagueType): int {
    match t
    case REDRAFT => 0
    case KEEPER => 1
    case DYNASTY => 2
  }

  function SeedTypeValue(s: PlayoffSeedType): int {
    match s
    case DEFAULT => 0
    case RE_SEED => 1
  }

  /** `setting == member.value` for a raw value, identity for a member. */
  function EqualsByValue<E(==)>(s: Setting<E>, m: E, value: int): bool {
    match s
    case EnumSetting(e) => e == m
    case RawSetting(v) => PyEqualsInt(v, value)
  }

  function IsLeagueTypeByValue(t: Setting<LeagueType>, m: LeagueType): bool {
    EqualsByValue(t, m, LeagueTypeValue(m))
  }

  function IsSeedTypeByValue(s: Setting<PlayoffSeedType>, m: PlayoffSeedType): bool {
    EqualsByValue(s, m, SeedTypeValue(m))
  }

  /**
   * Compared by value, the integer setting selects exactly the member with
   * that value, and the predicates agree with the original on members.
   */
  lemma LeagueTypeByValue(n: int, m: LeagueType)
    ensures IsLeagueTypeByValue(RawSetting(JInt(n)), m) <==> LeagueTypeValue(m) == n
    ensures IsLeagueTypeByValue(EnumSetting(m), m) && IsRedraft(EnumSetting(m)) == IsLeagueTypeByValue(EnumSetting(m), REDRAFT)
  {
  }

  /** The same for the seeding predicates. */
  lemma SeedTypeByValue(n: int, m: PlayoffSeedType)
    ensures IsSeedTypeByValue(RawSetting(JInt(n)), m) <==> SeedTypeValue(m) == n
    ensures !(IsSeedTypeByValue(RawSetting(JInt(n)), DEFAULT) && IsSeedTypeByValue(RawSetting(JInt(n)), RE_SEED))
  {
  }
}
