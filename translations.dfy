/** The friendship-level message shown with a quiz score: a title for the score's
    band in the user's language, and one of the three encouraging texts of that band. */
module Translations {
  import opened Common
  import opened Quiz

  /** The band chosen by the message's own chain of thresholds. */
  function LevelBand(score: int): (b: Band)
  {
    if score >= 80 then BestFriend
    else if score >= 60 then CloseFriend
    else if score >= 40 then Friend
    else Acquaintance
  }

  /** The message module and the result screen band scores identically. */
  lemma LevelBandAgrees(score: int)
    ensures LevelBand(score) == BandOf(score)
    ensures score >= 80 <==> LevelBand(score) == BestFriend
    ensures 60 <= score < 80 <==> LevelBand(score) == CloseFriend
    ensures 40 <= score < 60 <==> LevelBand(score) == Friend
    ensures score < 40 <==> LevelBand(score) == Acquaintance
  {
  }

  /** The level titles, per band and language. */
  function LevelTitle(b: Band, l: Lang): (title: string)
    ensures |title| > 2
  {
    match b
    case BestFriend => (match l case Uz => "💎 Eng yaqin do'st" case Ru => "💎 Лучший друг" case En => "💎 Best Friend")
    case CloseFriend => (match l case Uz => "💫 Yaqin do'st" case Ru => "💫 Близкий друг" case En => "💫 Close Friend")
    case Friend => (match l case Uz => "🤝 Do'st" case Ru => "🤝 Друг" case En => "🤝 Friend")
    case Acquaintance => (match l case Uz => "👋 Tanish" case Ru => "👋 Знакомый" case En => "👋 Acquaintance")
  }

  /** In every language the title tells the band apart. */
  lemma TitlesDistinct(b: Band, c: Band, l: Lang)
    requires b != c
    ensures LevelTitle(b, l) != LevelTitle(c, l)
  {
    assert LevelTitle(b, l)[0] != LevelTitle(c, l)[0];
  }

  /** The encouraging text picked for a band: the `pick`-th of the three texts the
      band has in the language (the texts themselves are not modelled). */
  datatype Encouragement = Encouragement(band: Band, lang: Lang, pick: nat)

  /** `get_friendship_level_message(score, lang)` with the random choice made by
      `pick`: the pair (title, message), both in the language or in English. */
  function FriendshipLevelMessage(score: int, code: string, pick: nat): (r: (string, Encouragement))
    requires pick < 3
    ensures r.1.pick < 3
  {
    var b := LevelBand(score);
    var l := LangOf(code);
    (LevelTitle(b, l), Encouragement(b, l, pick))
  }

  /** The title and the text always belong to the same band, that band is the score's,
      and a language without its own texts gets the English ones. */
  lemma LevelMessageFacts(score: int, code: string, pick: nat)
    requires pick < 3
    ensures FriendshipLevelMessage(score, code, pick).1.band == BandOf(score)
    ensures FriendshipLevelMessage(score, code, pick).0 == LevelTitle(FriendshipLevelMessage(score, code, pick).1.band, FriendshipLevelMessage(score, code, pick).1.lang)
    ensures code != "uz" && code != "ru" ==>
              FriendshipLevelMessage(score, code, pick) == FriendshipLevelMessage(score, "en", pick)
    ensures FriendshipLevelMessage(score, code, pick).1.lang == LangOf(code)
  {
    LevelBandAgrees(score);
  }

  /** The English titles at the band boundaries. */
  lemma BoundaryTitles()
    ensures FriendshipLevelMessage(80, "en", 0).0 == "💎 Best Friend"
    ensures FriendshipLevelMessage(79, "en", 0).0 == "💫 Close Friend"
    ensures FriendshipLevelMessage(40, "fr", 0).0 == "🤝 Friend"
    ensures FriendshipLevelMessage(39, "uz", 0).0 == "👋 Tanish"
  {
  }
}
