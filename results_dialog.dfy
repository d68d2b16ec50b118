/**
 * src/core/resultsDialog.ts: the end-of-game dialog. Its labels, layout
 * and modal behaviour are not modelled; what it shows and the URL its
 * "Next" button opens are.
 */
module ResultsDialogs {
  import opened Wrappers
  import opened Levels
  import opened Contexts
  import Js

  const NewRecordColor: string := "#cbc647"
  const PlainColor: string := "#344996"
  const UnlockedTitle: string := "Congratulations!\nYou unlocked the next level!"
  const ResultsTitle: string := "Results"

  /** The colour of the "New record!" label: highlighted exactly when the score beats the saved highscore. */
  function RecordColor(score: int, highscore: int): (c: string)
    ensures c == NewRecordColor <==> score > highscore
    ensures c == NewRecordColor || c == PlainColor
  {
    if score > highscore then NewRecordColor else PlainColor
  }

  /**
   * The unlock condition of `handleGameResults`: the last level (whose next
   * level is itself) and a level without a threshold unlock nothing.
   */
  predicate Unlocks(current: Level, next: Level, score: int): (b: bool)
    ensures current == next ==> !b
    ensures current.nextLevelTreshold == 0 ==> !b
  {
    current.value != next.value && current.nextLevelTreshold != 0 && score >= current.nextLevelTreshold
  }

  function LevelToUnlock(current: Level, next: Level, score: int): (l: Level)
    ensures l == current || l == next
    ensures l.value != current.value <==> Unlocks(current, next, score)
  {
    if Unlocks(current, next, score) then next else current
  }

  /** The title is the congratulation exactly when a level is unlocked. */
  function Title(current: Level, next: Level, score: int): (t: string)
    ensures t == UnlockedTitle <==> LevelToUnlock(current, next, score).value != current.value
    ensures t == UnlockedTitle || t == ResultsTitle
  {
    if Unlocks(current, next, score) then UnlockedTitle else ResultsTitle
  }

  /** `${x}` for a number that may be undefined. */
  function TemplateNumber(x: Option<int>): string {
    match x
    case Some(n) => Js.IntToString(n)
    case None => "undefined"
  }

  /** `${x}` for a string that may be undefined. */
  function TemplateString(x: Option<string>): string {
    match x
    case Some(s) => s
    case None => "undefined"
  }

  /** The keys of the callback query, in order. */
  const UrlKeys: seq<string> := ["gameId", "playerId", "sessionId", "rank", "highscore", "level", "timestamp", "signature"]

  /** The `key=value` fields of the callback query: one per key, in the order of `UrlKeys`. */
  function UrlFields(data: SessionData, score: int, unlocked: Level): (r: seq<string>)
    ensures |r| == |UrlKeys|
    ensures forall i :: 0 <= i < |r| ==> UrlKeys[i] + "=" <= r[i]
  {
    [ "gameId=" + data.gameId,
      "playerId=" + data.playerId,
      "sessionId=" + data.sessionId,
      "rank=" + Js.IntToString(data.rank),
      "highscore=" + Js.IntToString(score),
      "level=" + Js.IntToString(unlocked.value),
      "timestamp=" + TemplateNumber(data.timestamp),
      "signature=" + TemplateString(data.signature) ]
  }

  /** The URL the "Next" button opens. */
  function CallbackUrl(data: SessionData, score: int, unlocked: Level): (url: string)
    ensures |url| >= 1 && url[0] == '?'
  {
    "?" + Js.Join(UrlFields(data, score, unlocked), '&')
  }

  /** No text the URL copies from the session contains '&'. */
  predicate NoAmpersand(data: SessionData) {
    && '&' !in data.gameId && '&' !in data.playerId && '&' !in data.sessionId
    && (data.signature.Some? ==> '&' !in data.signature.value)
  }

  lemma NumberHasNoAmpersand(n: int)
    ensures '&' !in Js.IntToString(n)
  {
    var s := Js.IntToString(n);
    Js.ParseIntToString(n);
    if s[0] == '-' {
      assert s == [s[0]] + s[1..];
    }
  }

  /**
   * The query reads back field by field: splitting it on '&' gives the
   * eight fields, the highscore field carries this game's score (even below
   * the saved highscore) and the level field the unlocked level's value.
   */
  lemma CallbackUrlReadsBack(data: SessionData, score: int, unlocked: Level)
    requires NoAmpersand(data)
    ensures var url := CallbackUrl(data, score, unlocked);
      var fields := Js.Split(url[1..], '&');
      && fields == UrlFields(data, score, unlocked)
      && fields[0] == "gameId=" + data.gameId
      && fields[4][..10] == "highscore=" && Js.ParseInt(fields[4][10..]) == score
      && fields[5][..6] == "level=" && Js.ParseInt(fields[5][6..]) == unlocked.value
  {
    var fields := UrlFields(data, score, unlocked);
    FieldsHaveNoAmpersand(data, score, unlocked);
    Js.SplitJoin(fields, '&');
    assert CallbackUrl(data, score, unlocked)[1..] == Js.Join(fields, '&');
    assert fields[4][10..] == Js.IntToString(score);
    assert fields[5][6..] == Js.IntToString(unlocked.value);
    Js.ParseIntToString(score);
    Js.ParseIntToString(unlocked.value);
  }

  lemma FieldsHaveNoAmpersand(data: SessionData, score: int, unlocked: Level)
    requires NoAmpersand(data)
    ensures forall i :: 0 <= i < |UrlFields(data, score, unlocked)| ==> '&' !in UrlFields(data, score, unlocked)[i]
  {
    SessionFieldsPlain(data);
    NumberFieldsPlain(data, score, unlocked);
  }

  lemma SessionFieldsPlain(data: SessionData)
    requires NoAmpersand(data)
    ensures '&' !in "gameId=" + data.gameId && '&' !in "playerId=" + data.playerId
    ensures '&' !in "sessionId=" + data.sessionId && '&' !in "signature=" + TemplateString(data.signature)
  {
    KeyValue("gameId=", data.gameId);
    KeyValue("playerId=", data.playerId);
    KeyValue("sessionId=", data.sessionId);
    KeyValue("signature=", TemplateString(data.signature));
  }

  lemma NumberFieldsPlain(data: SessionData, score: int, unlocked: Level)
    ensures '&' !in "rank=" + Js.IntToString(data.rank) && '&' !in "highscore=" + Js.IntToString(score)
    ensures '&' !in "level=" + Js.IntToString(unlocked.value) && '&' !in "timestamp=" + TemplateNumber(data.timestamp)
  {
    NumberHasNoAmpersand(data.rank);
    NumberHasNoAmpersand(score);
    NumberHasNoAmpersand(unlocked.value);
    match data.timestamp {
      case Some(t) => NumberHasNoAmpersand(t);
      case None =>
    }
    KeyValue("rank=", Js.IntToString(data.rank));
    KeyValue("highscore=", Js.IntToString(score));
    KeyValue("level=", Js.IntToString(unlocked.value));
    KeyValue("timestamp=", TemplateNumber(data.timestamp));
  }

  /** A field `key=value` whose key is letters and '=' holds '&' only where its value does. */
  lemma KeyValue(key: string, value: string)
    requires '&' !in value
    requires forall i :: 0 <= i < |key| ==> ('a' <= key[i] <= 'z') || ('A' <= key[i] <= 'Z') || key[i] == '='
    ensures '&' !in key + value
  {
  }

  /** What the dialog shows and where its button leads. */
  datatype ResultsView = ResultsView(
    scoreText: string,
    recordColor: string,
    title: string,
    unlocked: Level,
    url: string)

  /**
   * `showModal(score)` followed by `handleGameResults`, over the context's
   * levels and session: reading the highscore of a missing session throws,
   * and so does a current level that does not resolve.
   */
  function ShowModal(levels: seq<Level>, session: Option<SessionData>, score: int): (r: Result<ResultsView>)
    ensures r.Success? <==> session.Some? && CurrentLevel(levels, session).Success?
    ensures r.Success? ==>
      var current := CurrentLevel(levels, session).value;
      var next := NextLevel(levels, session).value;
      && r.value.recordColor == RecordColor(score, session.value.highscore)
      && r.value.unlocked == LevelToUnlock(current, next, score)
      && r.value.title == Title(current, next, score)
      && r.value.scoreText == Js.IntToString(score)
      && r.value.url == CallbackUrl(session.value, score, r.value.unlocked)
  {
    if session.None? then Failure("TypeError: sessionData is undefined")
    else
      var data := session.value;
      var color := RecordColor(score, data.highscore);
      var current :- CurrentLevel(levels, session);
      var next := NextLevel(levels, session).value;
      var unlocked := LevelToUnlock(current, next, score);
      Success(ResultsView(Js.IntToString(score), color, Title(current, next, score), unlocked, CallbackUrl(data, score, unlocked)))
  }

  /** At the last level nothing is unlocked, whatever the score: the next level is the current one. */
  lemma LastLevelUnlocksNothing(levels: seq<Level>, session: SessionData, score: int)
    requires CurrentLevel(levels, Some(session)).Success?
    requires FindIndex(levels, CurrentLevel(levels, Some(session)).value.value) == |levels| - 1
    ensures var current := CurrentLevel(levels, Some(session)).value;
      LevelToUnlock(current, NextLevel(levels, Some(session)).value, score) == current
  {
  }

  /**
   * With levels numbered 1..n, playing level v < n with a positive
   * threshold unlocks level v+1 exactly when the score reaches the
   * threshold.
   */
  lemma UnlockNumbered(levels: seq<Level>, session: SessionData, score: int)
    requires |levels| > 0 && ConsecutiveFrom(levels, 1)
    requires 1 <= session.level < |levels|
    requires levels[session.level - 1].nextLevelTreshold > 0
    ensures var current := CurrentLevel(levels, Some(session)).value;
      var unlocked := LevelToUnlock(current, NextLevel(levels, Some(session)).value, score);
      unlocked.value == if score >= current.nextLevelTreshold then session.level + 1 else session.level
  {
    CurrentLevelNumbered(levels, session);
    NextLevelNumbered(levels, session);
  }
}
