/**
 * The request handlers of server.ts, the Express server backed by the SQLite
 * store: the authentication middleware, the 100-word gate of
 * `/api/humanize`, tone selection, the AI-score normalisation of
 * `/api/detect-ai`, `/api/user`, the mock checkout URL and the Lemon Squeezy
 * webhook. Remote calls enter as their outcome (`Upstream`), `JSON.parse` as
 * its result, and HMAC-SHA256 as a function parameter.
 */
module Server {
  import opened Js
  import opened Users
  import opened Http
  import SqliteUsers

  // ---------------------------------------------------------------------------
  // Authentication
  // ---------------------------------------------------------------------------

  /**
   * The middleware: a truthy `x-user-id` header attaches `getUser(id)` to the
   * request (creating the row on first sight); otherwise no user is attached
   * and the table is untouched.
   */
  method Authenticate(table: SqliteUsers.UserTable, header: Option<string>) returns (user: Option<UserRecord>)
    requires table.Valid()
    modifies table
    ensures table.Valid()
    ensures Truthy(header) ==> user.Some? && (table.rows, user.value) == GetOrCreate(old(table.rows), header.value)
    ensures !Truthy(header) ==> user.None? && table.rows == old(table.rows)
  {
    if Truthy(header) {
      var u := table.GetUser(header.value);
      user := Some(u);
    } else {
      user := None;
    }
  }

  // ---------------------------------------------------------------------------
  // Word count and the subscription gate
  // ---------------------------------------------------------------------------

  const WordLimit: nat := 100

  /**
   * `text.trim().split(/\s+/).length`: the number of words, except that a blank
   * text still splits into one (empty) piece.
   */
  function ServerWordCount(text: string): (n: nat)
    ensures n >= 1
    ensures n == if AllSpace(text) then 1 else CountWords(text)
  {
    var t := Trim(text);
    if t == [] then
      assert SplitWs(t) == [[]];
      |SplitWs(t)|
    else
      SplitWsCountsWords(t);
      CountWordsTrim(text);
      |SplitWs(t)|
  }

  /**
   * `wordCount > 100 && !user.is_subscribed`: a non-subscriber's text of more
   * than 100 words; the count of 1 a blank text gets never reaches the limit.
   */
  function OverWordLimit(user: UserRecord, text: string): (b: bool)
    ensures b <==> CountWords(text) > WordLimit && user.isSubscribed == 0
  {
    var over := ServerWordCount(text) > WordLimit && user.isSubscribed == 0;
    if AllSpace(text) then CountWordsOfAllSpace(text); over else over
  }

  // ---------------------------------------------------------------------------
  // Tone
  // ---------------------------------------------------------------------------

  /** The four tone instructions; `Standard` is the default one. */
  datatype Tone = Standard | Friendly | Professional | Narrator

  /** The name the client sends for each tone. */
  function ToneName(t: Tone): string {
    match t
    case Standard => "Standard"
    case Friendly => "Friendly"
    case Professional => "Professional"
    case Narrator => "Narrator"
  }

  /**
   * The instruction chosen for `tone` (defaulting to 'Standard'): each of the
   * three named tones selects its own, and every other value, including a
   * missing one, selects the default.
   */
  function SelectTone(tone: Option<string>): (t: Tone)
    ensures t != Standard ==> tone == Some(ToneName(t))
    ensures t == Standard ==> tone !in {Some("Friendly"), Some("Professional"), Some("Narrator")}
  {
    if tone == Some("Friendly") then Friendly
    else if tone == Some("Professional") then Professional
    else if tone == Some("Narrator") then Narrator
    else Standard
  }

  /** Every tone is selected by its own name. */
  lemma SelectToneByName(t: Tone)
    ensures SelectTone(Some(ToneName(t))) == t
  {
  }

  // ---------------------------------------------------------------------------
  // /api/humanize
  // ---------------------------------------------------------------------------

  /** What a handler does before any remote call: answer at once, or ask Gemini to rewrite `contents` in `tone`. */
  datatype RewriteStep = RewriteStop(response: Response) | Rewrite(contents: Option<string>, tone: Tone)

  /**
   * The checks of `/api/humanize` before Gemini is called: 401 without a
   * user; a missing `text` makes `text.trim()` throw outside the try block;
   * 403 exactly when the text is over the word limit and the user is not
   * subscribed; otherwise the text is sent with the selected tone.
   */
  function HumanizeRequest(user: Option<UserRecord>, text: Option<string>, tone: Option<string>): (s: RewriteStep)
    ensures user.None? ==> s == RewriteStop(Unauthorized)
    ensures user.Some? && text.None? ==> s == RewriteStop(Uncaught)
    ensures user.Some? && text.Some? ==>
      (s == RewriteStop(SubscriptionRequired) <==> ServerWordCount(text.value) > WordLimit && user.value.isSubscribed == 0)
    ensures s.Rewrite? <==> user.Some? && text.Some? && !OverWordLimit(user.value, text.value)
    ensures s.Rewrite? ==> s.contents == text && s.tone == SelectTone(tone)
  {
    if user.None? then RewriteStop(Unauthorized)
    else if text.None? then RewriteStop(Uncaught)
    else if OverWordLimit(user.value, text.value) then RewriteStop(SubscriptionRequired)
    else Rewrite(text, SelectTone(tone))
  }

  /**
   * The answer once the request passed the checks: a missing API key is thrown
   * inside the try block (500), as is a failed call; otherwise the reply text,
   * with a missing or empty one sent as "".
   */
  function RewriteReply(apiKey: Option<string>, upstream: Upstream): (r: Response)
    ensures r.Rewritten? <==> Truthy(apiKey) && upstream.Replied?
    ensures !r.Rewritten? ==> r == UpstreamError
    ensures r.Rewritten? && r.text != "" ==> upstream.text == Some(r.text)
    ensures r.Rewritten? && Truthy(upstream.text) ==> r.text == upstream.text.value
  {
    if !Truthy(apiKey) then UpstreamError
    else match upstream
      case Failed => UpstreamError
      case Replied(t) => Rewritten(if Truthy(t) then t.value else "")
  }

  /** `/api/humanize` end to end: the checks, then (only if they pass) the remote call's outcome. */
  function Humanize(user: Option<UserRecord>, text: Option<string>, tone: Option<string>,
                    apiKey: Option<string>, upstream: Upstream): (r: Response)
    ensures r == Unauthorized <==> user.None?
    ensures r == SubscriptionRequired <==> user.Some? && text.Some? && OverWordLimit(user.value, text.value)
    ensures r.Rewritten? ==> user.Some? && text.Some? && !OverWordLimit(user.value, text.value)
    ensures user.Some? && text.Some? && !OverWordLimit(user.value, text.value) ==> r == RewriteReply(apiKey, upstream)
  {
    match HumanizeRequest(user, text, tone)
    case RewriteStop(response) => response
    case Rewrite(_, _) => RewriteReply(apiKey, upstream)
  }

  /** A subscriber is never stopped by the gate, however long the text. */
  lemma SubscriberPassesGate(user: UserRecord, text: string, tone: Option<string>)
    requires user.isSubscribed == 1
    ensures HumanizeRequest(Some(user), Some(text), tone) == Rewrite(Some(text), SelectTone(tone))
  {
  }

  /** A non-subscriber's text of more than 100 words is refused before any call to Gemini. */
  lemma LongTextNeedsSubscription(user: UserRecord, text: string, tone: Option<string>)
    requires user.isSubscribed == 0 && CountWords(text) > WordLimit
    ensures HumanizeRequest(Some(user), Some(text), tone) == RewriteStop(SubscriptionRequired)
  {
    if AllSpace(text) {
      CountWordsOfAllSpace(text);
    }
  }

  // ---------------------------------------------------------------------------
  // /api/detect-ai
  // ---------------------------------------------------------------------------

  /** What `/api/detect-ai` does before any remote call: answer at once, or ask Gemini to score `contents`. */
  datatype DetectStep = DetectStop(response: Response) | Detect(contents: string)

  /**
   * 401 without a user; a missing, empty or all-white-space text scores 0
   * without a remote call; any other text is sent to the detector.
   */
  function DetectRequest(user: Option<UserRecord>, text: Option<string>): (s: DetectStep)
    ensures user.None? ==> s == DetectStop(Unauthorized)
    ensures user.Some? && (text.None? || AllSpace(text.value)) ==> s == DetectStop(AiScore(0))
    ensures user.Some? && text.Some? && !AllSpace(text.value) ==> s == Detect(text.value)
  {
    if user.None? then DetectStop(Unauthorized)
    else if !Truthy(text) || Trim(text.value) == [] then DetectStop(AiScore(0))
    else Detect(text.value)
  }

  /** `Math.max(0, Math.min(100, x))` */
  function Clamp(x: int): (r: int)
    ensures 0 <= r <= 100
    ensures 0 <= x <= 100 ==> r == x
    ensures x < 0 ==> r == 0
    ensures x > 100 ==> r == 100
  {
    if x < 0 then 0 else if x > 100 then 100 else x
  }

  /**
   * The percentage read from the detector's reply: the trimmed text (or "0"
   * when it is missing or blank) parsed as a decimal integer prefix, NaN
   * taken as 0, and clamped to 0..100.
   */
  function DetectorScore(reply: Option<string>): (p: int)
    ensures 0 <= p <= 100
  {
    var outputText := if reply.Some? && Trim(reply.value) != [] then Trim(reply.value) else "0";
    var parsed := ParseInt(outputText);
    Clamp(if parsed.None? then 0 else parsed.value)
  }

  /** A missing or blank reply scores 0. */
  lemma DetectorScoreOfBlank(reply: Option<string>)
    requires reply.None? || AllSpace(reply.value)
    ensures DetectorScore(reply) == 0
  {
    ParseIntReadsNumeral("", "", "", 0, "");
    assert "" + "" + Decimal(0) + "" == "0";
  }

  /** A reply with no digit where the number should be (NaN) scores 0. */
  lemma DetectorScoreOfNaN(reply: string)
    requires Trim(reply) != [] && ParseInt(Trim(reply)).None?
    ensures DetectorScore(Some(reply)) == 0
  {
  }

  /**
   * A reply holding a numeral, possibly signed and with leading zeros,
   * followed by anything that does not continue the number, and surrounded by
   * white space, scores that number clamped to 0..100.
   */
  lemma DetectorScoreReadsNumeral(ws1: string, sign: string, zeros: string, n: nat, rest: string, ws2: string)
    requires AllSpace(ws1) && AllSpace(ws2)
    requires sign == "" || sign == "+" || sign == "-"
    requires AllZeros(zeros)
    requires rest == [] || (!IsDigit(rest[0]) && !IsSpace(rest[|rest| - 1]))
    ensures DetectorScore(Some(ws1 + sign + zeros + Decimal(n) + rest + ws2)) == Clamp(if sign == "-" then -(n as int) else n)
  {
    var d := zeros + Decimal(n);
    NumeralValueOfPadded(zeros, Decimal(n));
    var x := sign + d + rest;
    NumeralTextEnds(sign, d, rest);
    PaddedRegroup(ws1, sign, zeros, Decimal(n), rest, ws2);
    TrimPadded(ws1, x, ws2);
    ParseIntOfNumeralText(sign, zeros, n, rest);
    DetectorScoreOfTrimmed(ws1 + x + ws2, x);
  }

  lemma PaddedRegroup(a: string, b: string, c: string, d: string, e: string, f: string)
    ensures a + b + c + d + e + f == a + (b + (c + d) + e) + f
  {
  }

  lemma NumeralTextEnds(sign: string, d: string, rest: string)
    requires sign == "" || sign == "+" || sign == "-"
    requires d != [] && AllDigits(d)
    requires rest == [] || !IsSpace(rest[|rest| - 1])
    ensures var x := sign + d + rest; x != [] && !IsSpace(x[0]) && !IsSpace(x[|x| - 1])
  {
    SignedNumeral(sign, d, rest);
    var x := sign + d + rest;
    if rest == [] {
      assert x[|x| - 1] == d[|d| - 1];
    } else {
      assert x[|x| - 1] == rest[|rest| - 1];
    }
  }

  lemma ParseIntOfNumeralText(sign: string, zeros: string, n: nat, rest: string)
    requires sign == "" || sign == "+" || sign == "-"
    requires AllZeros(zeros)
    requires rest == [] || !IsDigit(rest[0])
    ensures ParseInt(sign + (zeros + Decimal(n)) + rest) == Some(if sign == "-" then -(n as int) else n)
  {
    var d := zeros + Decimal(n);
    NumeralValueOfPadded(zeros, Decimal(n));
    var t := sign + d + rest;
    SignedNumeral(sign, d, rest);
    DigitPrefixOfNumeral(d, rest);
    TrimStartSkipsSpaces("", t);
    assert "" + t == t;
    ParseIntOfTrimmed(t, t, d, sign == "-");
  }

  lemma DetectorScoreOfTrimmed(reply: string, x: string)
    requires Trim(reply) == x && x != []
    ensures DetectorScore(Some(reply)) == Clamp(if ParseInt(x).None? then 0 else ParseInt(x).value)
  {
  }

  /** The answer once a non-blank text was sent: 500 if the call failed, else the normalised score. */
  function DetectReply(upstream: Upstream): (r: Response)
    ensures upstream.Failed? <==> r == UpstreamError
    ensures upstream.Replied? ==> r == AiScore(DetectorScore(upstream.text))
  {
    match upstream
    case Failed => UpstreamError
    case Replied(t) => AiScore(DetectorScore(t))
  }

  /** `/api/detect-ai` end to end; every score it answers lies in 0..100. */
  function DetectAi(user: Option<UserRecord>, text: Option<string>, upstream: Upstream): (r: Response)
    ensures r == Unauthorized <==> user.None?
    ensures r.AiScore? ==> 0 <= r.percentage <= 100
    ensures user.Some? && (text.None? || AllSpace(text.value)) ==> r == AiScore(0)
    ensures user.Some? && text.Some? && !AllSpace(text.value) ==> r == DetectReply(upstream)
  {
    match DetectRequest(user, text)
    case DetectStop(response) => response
    case Detect(_) => DetectReply(upstream)
  }

  // ---------------------------------------------------------------------------
  // /api/user
  // ---------------------------------------------------------------------------

  /** `/api/user`: 401 without a user, else `!!is_subscribed`. */
  function UserStatus(user: Option<UserRecord>): (r: Response)
    ensures user.None? <==> r == Unauthorized
    ensures user.Some? ==> r == SubscriptionStatus(user.value.isSubscribed == 1)
  {
    if user.None? then Unauthorized else SubscriptionStatus(user.value.isSubscribed != 0)
  }

  // ---------------------------------------------------------------------------
  // /api/checkout
  // ---------------------------------------------------------------------------

  const CheckoutBase: string := "https://demo.lemonsqueezy.com/checkout/buy/"
  const UserIdQuery: string := "?checkout[custom][user_id]="

  predicate NoQuestionMark(s: string) {
    forall i :: 0 <= i < |s| ==> s[i] != '?'
  }

  /** The demo checkout link for a variant, carrying the user id in its query. */
  function MockCheckoutUrl(variantId: string, userId: string): (url: string)
    ensures CheckoutBase <= url
  {
    CheckoutBase + variantId + UserIdQuery + userId
  }

  /** The index of the first '?' at or after i, or |s|. */
  function QuestionMarkFrom(s: string, i: nat): (k: nat)
    requires i <= |s|
    ensures i <= k <= |s| && (k == |s| || s[k] == '?')
    ensures forall j :: i <= j < k ==> s[j] != '?'
    decreases |s| - i
  {
    if i == |s| || s[i] == '?' then i else QuestionMarkFrom(s, i + 1)
  }

  /**
   * Reads the variant and user id back from a demo checkout link: the text
   * between the base and the first '?', and what follows the user-id query
   * key. Every link it accepts is the link of what it returns.
   */
  function ParseMockCheckoutUrl(url: string): (r: Option<(string, string)>)
    ensures r.Some? ==> NoQuestionMark(r.value.0) && MockCheckoutUrl(r.value.0, r.value.1) == url
  {
    if !(CheckoutBase <= url) then None
    else
      var rest := url[|CheckoutBase|..];
      var q := QuestionMarkFrom(rest, 0);
      if UserIdQuery <= rest[q..] then
        MockCheckoutUrlParts(url, q);
        Some((rest[..q], rest[q + |UserIdQuery|..]))
      else
        None
  }

  /** A link cut after the base, at the first '?' and after the query key, is the demo link of its two pieces. */
  lemma MockCheckoutUrlParts(url: string, q: nat)
    requires CheckoutBase <= url
    requires q == QuestionMarkFrom(url[|CheckoutBase|..], 0)
    requires UserIdQuery <= url[|CheckoutBase|..][q..]
    ensures var rest := url[|CheckoutBase|..];
      NoQuestionMark(rest[..q]) && MockCheckoutUrl(rest[..q], rest[q + |UserIdQuery|..]) == url
  {
    CutThree(url, CheckoutBase, UserIdQuery, q);
  }

  /** A string with prefix b and, q characters later, the text k is b, those q characters, k and the remainder. */
  lemma CutThree(s: string, b: string, k: string, q: nat)
    requires b <= s && q <= |s| - |b| && k <= s[|b|..][q..]
    ensures b + s[|b|..][..q] + k + s[|b|..][q + |k|..] == s
  {
    var rest := s[|b|..];
    assert rest[q..] == k + rest[q + |k|..];
    assert rest == rest[..q] + rest[q..];
    assert s == b + rest;
  }

  /** The link of a variant id without '?' reads back as that variant and user id. */
  lemma MockCheckoutUrlRoundTrip(variantId: string, userId: string)
    requires NoQuestionMark(variantId)
    ensures ParseMockCheckoutUrl(MockCheckoutUrl(variantId, userId)) == Some((variantId, userId))
  {
    var url := MockCheckoutUrl(variantId, userId);
    var rest := variantId + UserIdQuery + userId;
    assert url == CheckoutBase + rest;
    assert url[|CheckoutBase|..] == rest;
    assert rest[|variantId|] == '?';
    assert QuestionMarkFrom(rest, 0) == |variantId|;
    assert rest[|variantId|..] == UserIdQuery + userId;
    assert rest[..|variantId|] == variantId;
    assert rest[|variantId| + |UserIdQuery|..] == userId;
  }

  /** Distinct users get distinct links for the same variant. */
  lemma MockCheckoutUrlSeparatesUsers(variantId: string, u1: string, u2: string)
    requires u1 != u2
    ensures MockCheckoutUrl(variantId, u1) != MockCheckoutUrl(variantId, u2)
  {
    var prefix := CheckoutBase + variantId + UserIdQuery;
    assert MockCheckoutUrl(variantId, u1)[|prefix|..] == u1;
    assert MockCheckoutUrl(variantId, u2)[|prefix|..] == u2;
  }

  /**
   * `/api/checkout`: 401 without a user; without an API key or store id the
   * demo link for the user; otherwise the URL the Lemon Squeezy API returned,
   * or 500 when that call failed or reported errors. `variantId` is the text
   * the request's variant id renders to.
   */
  function Checkout(user: Option<UserRecord>, variantId: string, apiKey: Option<string>,
                    storeId: Option<string>, live: Upstream): (r: Response)
    ensures user.None? <==> r == Unauthorized
    ensures user.Some? && !(Truthy(apiKey) && Truthy(storeId)) ==> r == CheckoutUrl(Some(MockCheckoutUrl(variantId, user.value.id)))
    ensures user.Some? && Truthy(apiKey) && Truthy(storeId) ==>
      (r == UpstreamError <==> live.Failed?) && (live.Replied? ==> r == CheckoutUrl(live.text))
  {
    if user.None? then Unauthorized
    else if !Truthy(apiKey) || !Truthy(storeId) then CheckoutUrl(Some(MockCheckoutUrl(variantId, user.value.id)))
    else match live
      case Failed => UpstreamError
      case Replied(url) => CheckoutUrl(url)
  }

  // ---------------------------------------------------------------------------
  // /api/webhooks/lemonsqueezy
  // ---------------------------------------------------------------------------

  /** The statuses that count as subscribed on a created or updated subscription. */
  function ActiveStatus(status: Option<string>): (b: bool)
    ensures b <==> status.Some? && status.value in {"active", "past_due", "on_trial"}
  {
    status == Some("active") || status == Some("past_due") || status == Some("on_trial")
  }

  /** The events on which the status decides the flag. */
  function GrantingEvent(eventName: Option<string>): (b: bool)
    ensures b <==> eventName.Some? && eventName.value in {"subscription_created", "subscription_updated"}
  {
    eventName == Some("subscription_created") || eventName == Some("subscription_updated")
  }

  /** The events that clear the flag; no event is both granting and ending, so the order of the two tests does not matter. */
  function EndingEvent(eventName: Option<string>): (b: bool)
    ensures b <==> eventName.Some? && eventName.value in {"subscription_cancelled", "subscription_expired"}
    ensures b ==> !GrantingEvent(eventName)
  {
    eventName == Some("subscription_cancelled") || eventName == Some("subscription_expired")
  }

  /**
   * `digest.length !== signature.length || !timingSafeEqual(digest, signature)`:
   * the signature is refused unless the header's bytes are the hex digest's.
   */
  function BadSignature(digest: seq<byte>, signature: seq<byte>): (b: bool)
    ensures b <==> digest != signature
  {
    |digest| != |signature| || digest != signature
  }

  /**
   * The webhook's decision. `digestHex(secret, body)` is the UTF-8 bytes of
   * the hex HMAC-SHA256 of the raw body, `signature` those of the
   * `X-Signature` header (empty when it is absent), and `parsed` the result
   * of `JSON.parse` (None when it throws or yields no object). A property
   * access on a missing object throws inside the try block and answers 500.
   */
  function ServerWebhook(secret: Option<string>, digestHex: (string, seq<byte>) -> seq<byte>,
                         body: seq<byte>, signature: seq<byte>, parsed: Option<Payload>): (o: WebhookOutcome)
    // with a secret configured, a wrong signature is refused before anything is parsed or stored
    ensures Truthy(secret) && digestHex(secret.value, body) != signature ==> o == WebhookOutcome(InvalidSignature, NoChange)
    // only an accepted webhook reaches the store, and it then answers 200 'OK'
    ensures o.effect.SetSubscription? ==> o.reply == WebhookOk
    ensures (!Truthy(secret) || digestHex(secret.value, body) == signature) && parsed.Some? && parsed.value.meta.Some? ==>
      var meta := parsed.value.meta.value;
      // a missing or empty user id is 400 and changes nothing
      (!Truthy(UserIdOf(meta)) ==> o == WebhookOutcome(MissingUserId, NoChange))
      // created and updated subscriptions set the flag from the status whitelist
      && (Truthy(UserIdOf(meta)) && GrantingEvent(meta.eventName) && parsed.value.data.Some?
          && parsed.value.data.value.attributes.Some? ==>
            o.effect == SetSubscription(UserIdOf(meta).value,
                                        ActiveStatus(parsed.value.data.value.attributes.value.status),
                                        parsed.value.data.value.id))
      // reading `data.attributes.status` of a created or updated event without them throws: 500, no change
      && (Truthy(UserIdOf(meta)) && GrantingEvent(meta.eventName)
          && (parsed.value.data.None? || parsed.value.data.value.attributes.None?) ==>
            o == WebhookOutcome(WebhookError, NoChange))
      // cancelled and expired subscriptions clear it
      && (Truthy(UserIdOf(meta)) && EndingEvent(meta.eventName) && parsed.value.data.Some? ==>
            o.effect == SetSubscription(UserIdOf(meta).value, false, parsed.value.data.value.id))
      // reading `data.id` of a cancelled or expired event without `data` throws: 500, no change
      && (Truthy(UserIdOf(meta)) && EndingEvent(meta.eventName) && parsed.value.data.None? ==>
            o == WebhookOutcome(WebhookError, NoChange))
      // every other event is acknowledged and ignored
      && (Truthy(UserIdOf(meta)) && !GrantingEvent(meta.eventName) && !EndingEvent(meta.eventName) ==>
            o == WebhookOutcome(WebhookOk, NoChange))
    // a body that does not parse to an object with `meta` is a 500 with no change
    ensures (!Truthy(secret) || digestHex(secret.value, body) == signature) && (parsed.None? || parsed.value.meta.None?) ==> o == WebhookOutcome(WebhookError, NoChange)
  {
    if Truthy(secret) && BadSignature(digestHex(secret.value, body), signature) then
      WebhookOutcome(InvalidSignature, NoChange)
    else if parsed.None? || parsed.value.meta.None? then
      WebhookOutcome(WebhookError, NoChange)
    else
      var payload := parsed.value;
      var meta := payload.meta.value;
      var userId := UserIdOf(meta);
      if !Truthy(userId) then
        WebhookOutcome(MissingUserId, NoChange)
      else if GrantingEvent(meta.eventName) then
        if payload.data.None? || payload.data.value.attributes.None? then
          WebhookOutcome(WebhookError, NoChange)
        else
          var isSubscribed := ActiveStatus(payload.data.value.attributes.value.status);
          WebhookOutcome(WebhookOk, SetSubscription(userId.value, isSubscribed, payload.data.value.id))
      else if EndingEvent(meta.eventName) then
        if payload.data.None? then
          WebhookOutcome(WebhookError, NoChange)
        else
          WebhookOutcome(WebhookOk, SetSubscription(userId.value, false, payload.data.value.id))
      else
        WebhookOutcome(WebhookOk, NoChange)
  }

  /** Without a secret the signature is not looked at: the outcome is the same for every header. */
  lemma UnsignedWebhookIgnoresSignature(secret: Option<string>, digestHex: (string, seq<byte>) -> seq<byte>,
                                        body: seq<byte>, s1: seq<byte>, s2: seq<byte>, parsed: Option<Payload>)
    requires !Truthy(secret)
    ensures ServerWebhook(secret, digestHex, body, s1, parsed) == ServerWebhook(secret, digestHex, body, s2, parsed)
    ensures ServerWebhook(secret, digestHex, body, s1, parsed).reply != InvalidSignature
  {
  }

  /** With a secret, the header carrying the body's own digest is accepted. */
  lemma SignedWebhookAccepted(secret: string, digestHex: (string, seq<byte>) -> seq<byte>,
                              body: seq<byte>, parsed: Option<Payload>)
    requires secret != ""
    ensures ServerWebhook(Some(secret), digestHex, body, digestHex(secret, body), parsed).reply != InvalidSignature
  {
  }

  /** The table after the webhook's store call. */
  function ApplyToTable(rows: Table, e: Effect): (r: Table)
    ensures e.NoChange? ==> r == rows
    ensures e.SetSubscription? ==> r == SqliteUsers.UpdateWhere(rows, e.userId, e.isSubscribed, e.subscriptionId)
    ensures r.Keys == rows.Keys
  {
    match e
    case NoChange => rows
    case SetSubscription(id, b, sid) => SqliteUsers.UpdateWhere(rows, id, b, sid)
  }

  /**
   * A webhook about a user who never made a request is acknowledged but lost:
   * the update finds no row and the table stays as it was.
   */
  lemma WebhookForUnknownUserIsLost(rows: Table, secret: Option<string>, digestHex: (string, seq<byte>) -> seq<byte>,
                                     body: seq<byte>, signature: seq<byte>, parsed: Option<Payload>)
    requires var o := ServerWebhook(secret, digestHex, body, signature, parsed);
      o.effect.SetSubscription? && o.effect.userId !in rows
    ensures ApplyToTable(rows, ServerWebhook(secret, digestHex, body, signature, parsed).effect) == rows
  {
  }

  /**
   * A granted or revoked subscription of a user who already has a row is
   * what `/api/user` reports next.
   */
  lemma StatusAfterWebhook(rows: Table, e: Effect)
    requires Keyed(rows) && e.SetSubscription? && e.userId in rows
    ensures UserStatus(Some(GetOrCreate(ApplyToTable(rows, e), e.userId).1)) == SubscriptionStatus(e.isSubscribed)
  {
    SqliteUsers.GetUserAfterUpdate(rows, e.userId, e.isSubscribed, e.subscriptionId);
  }

  /** The webhook route: decide, then make the one store call the decision names. */
  method HandleWebhook(table: SqliteUsers.UserTable, secret: Option<string>, digestHex: (string, seq<byte>) -> seq<byte>,
                       body: seq<byte>, signature: seq<byte>, parsed: Option<Payload>) returns (reply: Response)
    requires table.Valid()
    modifies table
    ensures table.Valid()
    ensures var o := ServerWebhook(secret, digestHex, body, signature, parsed);
      reply == o.reply && table.rows == ApplyToTable(old(table.rows), o.effect)
  {
    var o := ServerWebhook(secret, digestHex, body, signature, parsed);
    if o.effect.SetSubscription? {
      table.UpdateUserSubscription(o.effect.userId, o.effect.isSubscribed, o.effect.subscriptionId);
    }
    reply := o.reply;
  }
}
