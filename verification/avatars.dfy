/**
 * The two avatar classes: `SleeperAvatar` (script/avatars/avatar.py) and
 * `Avatar` (script/model/avatar.py). Both derive a full-size and a thumbnail
 * URL on the Sleeper CDN from an avatar id; their properties return the
 * stored values, so each class is a record built by one constructor.
 */
module SleeperAvatars {
  import opened Wrappers
  import ApiParser

  datatype SleeperAvatar = SleeperAvatar(avatarId: string, avatarUrl: string, avatarThumbUrl: string)

  const FullPrefix: string := "https://sleepercdn.com/avatars/"
  const ThumbPrefix: string := "https://sleepercdn.com/avatars/thumbs/"

  /** `SleeperAvatar(avatar_id)`: the id is read back from either URL, and the thumbnail path is "thumbs/" longer. */
  function NewSleeperAvatar(avatarId: string): (a: SleeperAvatar)
    ensures a.avatarId == avatarId
    ensures ApiParser.Between(a.avatarUrl, "https://sleepercdn.com/avatars/", "") == Some(avatarId)
    ensures ApiParser.Between(a.avatarThumbUrl, "https://sleepercdn.com/avatars/thumbs/", "") == Some(avatarId)
    ensures |a.avatarThumbUrl| == |a.avatarUrl| + 7
  {
    ApiParser.BetweenRoundTrip(FullPrefix, avatarId, "");
    ApiParser.BetweenRoundTrip(ThumbPrefix, avatarId, "");
    assert FullPrefix + avatarId + "" == FullPrefix + avatarId;
    assert ThumbPrefix + avatarId + "" == ThumbPrefix + avatarId;
    SleeperAvatar(avatarId, FullPrefix + avatarId, ThumbPrefix + avatarId)
  }

  /** Distinct ids give distinct URLs, full-size and thumbnail alike. */
  lemma UrlsDetermineId(a: string, b: string)
    ensures NewSleeperAvatar(a).avatarUrl == NewSleeperAvatar(b).avatarUrl ==> a == b
    ensures NewSleeperAvatar(a).avatarThumbUrl == NewSleeperAvatar(b).avatarThumbUrl ==> a == b
  {
  }

  /** The avatar of the test user: an id of 32 zeros. */
  lemma TestUserAvatar()
    ensures NewSleeperAvatar("00000000000000000000000000000000").avatarUrl
            == "https://sleepercdn.com/avatars/00000000000000000000000000000000"
  {
  }

  /** The thumbnail of the test user's avatar. */
  lemma TestUserThumbnail()
    ensures NewSleeperAvatar("00000000000000000000000000000000").avatarThumbUrl
            == "https://sleepercdn.com/avatars/thumbs/00000000000000000000000000000000"
  {
  }
}

module ModelAvatars {
  import opened Wrappers
  import ApiParser
  import SleeperAvatars

  datatype Avatar = Avatar(avatarId: string, avatarUrl: string, avatarThumbUrl: string)

  /** `Avatar(avatar_id)`: the same id read-back as `SleeperAvatar`. */
  function NewAvatar(avatarId: string): (a: Avatar)
    ensures a.avatarId == avatarId
    ensures ApiParser.Between(a.avatarUrl, "https://sleepercdn.com/avatars/", "") == Some(avatarId)
    ensures ApiParser.Between(a.avatarThumbUrl, "https://sleepercdn.com/avatars/thumbs/", "") == Some(avatarId)
  {
    ApiParser.BetweenRoundTrip("https://sleepercdn.com/avatars/", avatarId, "");
    ApiParser.BetweenRoundTrip("https://sleepercdn.com/avatars/thumbs/", avatarId, "");
    assert "https://sleepercdn.com/avatars/" + avatarId + "" == "https://sleepercdn.com/avatars/" + avatarId;
    assert "https://sleepercdn.com/avatars/thumbs/" + avatarId + "" == "https://sleepercdn.com/avatars/thumbs/" + avatarId;
    Avatar(avatarId, "https://sleepercdn.com/avatars/" + avatarId, "https://sleepercdn.com/avatars/thumbs/" + avatarId)
  }

  /**
   * The model `Avatar`, the `SleeperAvatar` and the parser's `get_avatars`
   * give the same two URLs for every id.
   */
  lemma AvatarsAgree(p: ApiParser.Parser, avatarId: string)
    ensures NewAvatar(avatarId).avatarUrl == SleeperAvatars.NewSleeperAvatar(avatarId).avatarUrl
    ensures NewAvatar(avatarId).avatarThumbUrl == SleeperAvatars.NewSleeperAvatar(avatarId).avatarThumbUrl
    ensures ApiParser.AvatarUrls(p, avatarId) == (NewAvatar(avatarId).avatarUrl, NewAvatar(avatarId).avatarThumbUrl)
  {
    var a := NewAvatar(avatarId);
    var s := SleeperAvatars.NewSleeperAvatar(avatarId);
    assert a.avatarUrl == s.avatarUrl;
    assert a.avatarThumbUrl == s.avatarThumbUrl;
    assert ApiParser.AvatarHost + "/" == "https://sleepercdn.com/avatars/";
    assert ApiParser.AvatarHost + "/thumbs/" == "https://sleepercdn.com/avatars/thumbs/";
    assert ApiParser.AvatarUrls(p, avatarId).0 == "https://sleepercdn.com/avatars/" + avatarId;
    assert ApiParser.AvatarUrls(p, avatarId).1 == "https://sleepercdn.com/avatars/thumbs/" + avatarId;
  }
}
