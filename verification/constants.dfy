/**
 * Position-name normalisation (script/constants.py): the `NFLPosition` enum
 * and `map_position`, which looks a free-form position name up among the six
 * NFL position codes and falls back to "Unknown Position".
 */
module Constants {
  import opened Wrappers
  import opened PyText

  /** The members of `NFLPosition`, in declaration order. */
  datatype NflPosition = QB | WR | RB | TE | K | DEF

  /** The member's name, the key `NFLPosition[...]` looks up. */
  function Name(p: NflPosition): string {
    match p
    case QB => "QB"
    case WR => "WR"
    case RB => "RB"
    case TE => "TE"
    case K => "K"
    case DEF => "DEF"
  }

  /** The member's value, what `map_position` returns. */
  function Value(p: NflPosition): string {
    match p
    case QB => "QB"
    case WR => "WR"
    case RB => "RB"
    case TE => "TE"
    case K => "K"
    case DEF => "DEF"
  }

  /** The fallback returned when the lookup raises KeyError. */
  const UnknownPosition: string := "Unknown Position"

  /** `NFLPosition[name]`; a name that is no member's raises KeyError, here None. */
  function MemberNamed(name: string): (r: Option<NflPosition>)
    ensures r.Some? ==> Name(r.value) == name
    ensures r.None? ==> forall p :: Name(p) != name
  {
    if name == "QB" then Some(QB)
    else if name == "WR" then Some(WR)
    else if name == "RB" then Some(RB)
    else if name == "TE" then Some(TE)
    else if name == "K" then Some(K)
    else if name == "DEF" then Some(DEF)
    else None
  }

  /**
   * `position_name.replace(" ", "_").upper()`: same length, no space and no
   * lower-case letter left; every other character is kept.
   */
  function Normalise(positionName: string): (n: string)
    ensures |n| == |positionName|
    ensures ' ' !in n
    ensures forall i :: 0 <= i < |n| ==> !('a' <= n[i] <= 'z')
    ensures forall i :: 0 <= i < |n| && positionName[i] != ' ' && !('a' <= positionName[i] <= 'z') ==> n[i] == positionName[i]
  {
    Upper(ReplaceChar(positionName, ' ', '_'))
  }

  /**
   * `map_position`: the value of the member named by the normalised input,
   * or "Unknown Position". It never fails on a string.
   */
  function MapPosition(positionName: string): (r: string)
    ensures r == UnknownPosition || exists p :: r == Value(p)
  {
    match MemberNamed(Normalise(positionName))
    case Some(p) => Value(p)
    case None => UnknownPosition
  }

  /** The seven possible results of `map_position`. */
  predicate IsMappedPosition(s: string) {
    s in {"QB", "WR", "RB", "TE", "K", "DEF", "Unknown Position"}
  }

  /** `a` equals `code` once `a` is upper-cased (the case-insensitive match). */
  predicate MatchesIgnoringCase(a: string, code: string) {
    |a| == |code| && forall i :: 0 <= i < |a| ==> UpperChar(a[i]) == code[i]
  }

  // ---------------------------------------------------------------------------
  // Properties

  /** Every member's value equals its name. */
  lemma ValueIsName(p: NflPosition)
    ensures Value(p) == Name(p)
  {
  }

  /** The result is one of "QB","WR","RB","TE","K","DEF" or "Unknown Position". */
  lemma MapPositionRange(positionName: string)
    ensures IsMappedPosition(MapPosition(positionName))
  {
  }

  /** Each of the six codes maps to itself. */
  lemma CodeMapsToItself(p: NflPosition)
    ensures MapPosition(Value(p)) == Value(p)
  {
    var v := Value(p);
    assert ReplaceChar(v, ' ', '_') == v;
    assert Upper(v) == v;
  }

  /** The normalised form depends only on the upper-cased input. */
  lemma NormaliseOfUpper(s: string)
    ensures Normalise(Upper(s)) == Normalise(s)
  {
    var a := Normalise(Upper(s));
    var b := Normalise(s);
    assert |a| == |b|;
    forall i | 0 <= i < |a|
      ensures a[i] == b[i]
    {
      assert UpperChar(s[i]) == ' ' <==> s[i] == ' ';
    }
  }

  /** The lookup is case-insensitive: "qb" maps to "QB". */
  lemma CaseInsensitive(positionName: string)
    ensures MapPosition(positionName) == MapPosition(Upper(positionName))
  {
    NormaliseOfUpper(positionName);
  }

  /** No member name contains "_", so any name with a space is unknown. */
  lemma SpaceMeansUnknown(positionName: string, i: nat)
    requires i < |positionName| && positionName[i] == ' '
    ensures MapPosition(positionName) == UnknownPosition
  {
    var n := Normalise(positionName);
    assert n[i] == '_';
    forall p: NflPosition
      ensures Name(p) != n
    {
      assert forall j :: 0 <= j < |Name(p)| ==> Name(p)[j] != '_';
    }
  }

  /** Roster-slot codes that are not NFL positions map to "Unknown Position". */
  lemma SlotCodesAreUnknown()
    ensures MapPosition("FLEX") == UnknownPosition
    ensures MapPosition("SUPER_FLEX") == UnknownPosition
    ensures MapPosition("BN") == UnknownPosition
    ensures MapPosition("flex") == UnknownPosition
  {
    assert Normalise("FLEX") == "FLEX";
    assert Normalise("SUPER_FLEX") == "SUPER_FLEX";
    assert Normalise("BN") == "BN";
    assert Normalise("flex") == "FLEX";
  }

  /** map_position(map_position(s)) == map_position(s). */
  lemma Idempotent(positionName: string)
    ensures MapPosition(MapPosition(positionName)) == MapPosition(positionName)
  {
    var r := MapPosition(positionName);
    if r == UnknownPosition {
      SpaceMeansUnknown(r, 7);
    } else {
      var p :| r == Value(p);
      CodeMapsToItself(p);
    }
  }

  /** Normalising yields a member's name exactly when the input matches it ignoring case. */
  lemma NormaliseMatches(positionName: string, p: NflPosition)
    ensures Normalise(positionName) == Name(p) <==> MatchesIgnoringCase(positionName, Name(p))
  {
    var n := Normalise(positionName);
    var code := Name(p);
    assert forall j :: 0 <= j < |code| ==> code[j] != '_' && code[j] != ' ';
    if n == code {
      forall i | 0 <= i < |positionName|
        ensures UpperChar(positionName[i]) == code[i]
      {
        assert n[i] == code[i];
      }
    }
    if MatchesIgnoringCase(positionName, code) {
      forall i | 0 <= i < |n|
        ensures n[i] == code[i]
      {
        assert positionName[i] != ' ';
      }
    }
  }

  /**
   * Reference characterisation: `map_position` returns a code exactly when
   * the input equals that code ignoring case, and "Unknown Position" exactly
   * when it matches none of them.
   */
  lemma MapPositionMeaning(positionName: string, p: NflPosition)
    ensures MapPosition(positionName) == Value(p) <==> MatchesIgnoringCase(positionName, Value(p))
    ensures MapPosition(positionName) == UnknownPosition
            <==> forall q :: !MatchesIgnoringCase(positionName, Value(q))
  {
    forall q: NflPosition
      ensures MatchesIgnoringCase(positionName, Value(q)) <==> Normalise(positionName) == Name(q)
    {
      NormaliseMatches(positionName, q);
    }
  }
}
