/**
 * The client-side rules of src/App.tsx: the word counter, the over-limit
 * flag, the guard on the Humanize button, the colour band of an AI score and
 * the visibility of the upgrade button. `isSubscribed` is the client's
 * `boolean | null` state, None until `/api/user` has answered.
 */
module App {
  import opened Js
  import opened Users
  import Server

  /** `getWordCount`: 0 for a blank text, else the number of pieces of the trimmed text split on white space. */
  function GetWordCount(text: string): (n: nat)
    ensures n == CountWords(text)
    ensures n == 0 <==> AllSpace(text)
  {
    var trimmed := Trim(text);
    if trimmed == [] then
      CountWordsOfAllSpace(text);
      0
    else
      SplitWsCountsWords(trimmed);
      CountWordsTrim(text);
      CountWordsOfTrimmed(trimmed);
      |SplitWs(trimmed)|
  }

  /** A trimmed text that is not empty has a word. */
  lemma CountWordsOfTrimmed(t: string)
    requires t != [] && !IsSpace(t[0]) && !IsSpace(t[|t| - 1])
    ensures CountWords(t) > 0
  {
    SplitWsCountsWords(t);
  }

  /** `isOverLimit = wordCount > 100 && !isSubscribed`: an unknown status counts as not subscribed. */
  function IsOverLimit(text: string, isSubscribed: Option<bool>): (b: bool)
    ensures b <==> CountWords(text) > Server.WordLimit && isSubscribed != Some(true)
  {
    GetWordCount(text) > Server.WordLimit && isSubscribed != Some(true)
  }

  /** `!inputText.trim() || isOverLimit`: `handleHumanize` returns at once. */
  function HumanizeBlocked(text: string, isSubscribed: Option<bool>): (b: bool)
    ensures b <==> AllSpace(text) || (CountWords(text) > Server.WordLimit && isSubscribed != Some(true))
  {
    Trim(text) == [] || IsOverLimit(text, isSubscribed)
  }

  /** The button's `disabled`: loading, or the same guard as `handleHumanize`. */
  function HumanizeDisabled(isLoading: bool, text: string, isSubscribed: Option<bool>): (b: bool)
    ensures b <==> isLoading || AllSpace(text) || (CountWords(text) > Server.WordLimit && isSubscribed != Some(true))
  {
    isLoading || HumanizeBlocked(text, isSubscribed)
  }

  /** An enabled button never runs into the handler's guard, and a blank text never gets past either. */
  lemma EnabledButtonPassesGuard(isLoading: bool, text: string, isSubscribed: Option<bool>)
    ensures !HumanizeDisabled(isLoading, text, isSubscribed) ==> !HumanizeBlocked(text, isSubscribed)
    ensures AllSpace(text) ==> HumanizeDisabled(isLoading, text, isSubscribed)
  {
  }

  /**
   * The two word counts agree on every text that is not blank; on a blank
   * one the client counts 0 and the expression of server.ts counts 1.
   */
  lemma ClientAndServerCountsAgree(text: string)
    ensures !AllSpace(text) ==> GetWordCount(text) == Server.ServerWordCount(text)
    ensures AllSpace(text) ==> GetWordCount(text) == 0 && Server.ServerWordCount(text) == 1
  {
  }

  /**
   * Once the client knows the stored status, its over-limit flag is exactly
   * the server's 403 condition, blank texts included.
   */
  lemma ClientLimitMatchesServerGate(user: UserRecord, text: string)
    ensures IsOverLimit(text, Some(user.isSubscribed == 1)) <==> Server.OverWordLimit(user, text)
  {
    ClientAndServerCountsAgree(text);
  }

  /** While the status is unknown the client blocks at least every text it would block for a known one. */
  lemma UnknownStatusIsConservative(text: string, isSubscribed: bool)
    ensures IsOverLimit(text, Some(isSubscribed)) ==> IsOverLimit(text, None)
    ensures IsOverLimit(text, None) <==> IsOverLimit(text, Some(false))
  {
  }

  /**
   * A humanize request the client lets through with the stored status known
   * passes every check of server.ts and goes to Gemini.
   */
  lemma ClientSendsOnlyWhatServerAccepts(user: UserRecord, text: string, tone: Option<string>)
    requires !HumanizeBlocked(text, Some(user.isSubscribed == 1))
    ensures Server.HumanizeRequest(Some(user), Some(text), tone).Rewrite?
  {
    ClientLimitMatchesServerGate(user, text);
  }

  // ---------------------------------------------------------------------------
  // Score band and the upgrade button
  // ---------------------------------------------------------------------------

  /** The colour of an AI score badge. */
  datatype Band = Emerald | Amber | Red

  /** The badge colour of a score, for the input and the output score alike. */
  function ScoreBand(score: int): (b: Band)
    ensures b == Red <==> score > 50
    ensures b == Amber <==> 20 < score <= 50
    ensures b == Emerald <==> score <= 20
  {
    if score > 50 then Red else if score > 20 then Amber else Emerald
  }

  function Severity(b: Band): nat {
    match b
    case Emerald => 0
    case Amber => 1
    case Red => 2
  }

  /** A higher score never gets a milder colour. */
  lemma ScoreBandMonotone(a: int, b: int)
    requires a <= b
    ensures Severity(ScoreBand(a)) <= Severity(ScoreBand(b))
  {
  }

  /** `!isSubscribed && isSubscribed !== null`: shown only once the status is known to be false. */
  function ShowUpgrade(isSubscribed: Option<bool>): (b: bool)
    ensures b <==> isSubscribed == Some(false)
  {
    match isSubscribed
    case None => false
    case Some(s) => !s
  }
}
