/**
 * The request handlers of api/server-vercel.ts, the serverless variant backed
 * by the in-memory store. `/api/detect-ai`, `/api/user`, `/api/checkout` and
 * tone selection behave as in server.ts, as far as modelled, and are the
 * functions of module Server; what differs is modelled here: the authentication middleware
 * over the in-memory store, `/api/humanize` without the word gate, and the
 * webhook's substring policy.
 */
module Vercel {
  import opened Js
  import opened Users
  import opened Http
  import MemoryUsers
  import Server

  /** The middleware over the in-memory store: a truthy `x-user-id` attaches `getMemoryUser(id)`. */
  method Authenticate(store: MemoryUsers.MemoryStore, header: Option<string>) returns (user: Option<UserRecord>)
    requires store.Valid()
    modifies store
    ensures store.Valid()
    ensures Truthy(header) ==> user.Some? && (store.entries, user.value) == GetOrCreate(old(store.entries), header.value)
    ensures !Truthy(header) ==> user.None? && store.entries == old(store.entries)
  {
    if Truthy(header) {
      var u := store.GetMemoryUser(header.value);
      user := Some(u);
    } else {
      user := None;
    }
  }

  // ---------------------------------------------------------------------------
  // /api/humanize
  // ---------------------------------------------------------------------------

  /** The checks of this `/api/humanize`: only 401 without a user; the text, whatever it is, goes to Gemini. */
  function HumanizeRequest(user: Option<UserRecord>, text: Option<string>, tone: Option<string>): (s: Server.RewriteStep)
    ensures user.None? <==> s == Server.RewriteStop(Unauthorized)
    ensures user.Some? ==> s.Rewrite? && s.contents == text && s.tone == Server.SelectTone(tone)
  {
    if user.None? then Server.RewriteStop(Unauthorized) else Server.Rewrite(text, Server.SelectTone(tone))
  }

  /** This `/api/humanize` end to end: it never answers 403, whatever the length of the text. */
  function Humanize(user: Option<UserRecord>, text: Option<string>, tone: Option<string>,
                    apiKey: Option<string>, upstream: Upstream): (r: Response)
    ensures r == Unauthorized <==> user.None?
    ensures r != SubscriptionRequired && r != Uncaught
    ensures user.Some? ==> r == Server.RewriteReply(apiKey, upstream)
  {
    match HumanizeRequest(user, text, tone)
    case RewriteStop(response) => response
    case Rewrite(_, _) => Server.RewriteReply(apiKey, upstream)
  }

  /**
   * The two versions differ on a long text from a non-subscriber: server.ts
   * refuses it with 403, this version sends it to Gemini.
   */
  lemma WordGateOnlyInServer(user: UserRecord, text: string, tone: Option<string>)
    requires user.isSubscribed == 0 && CountWords(text) > Server.WordLimit
    ensures Server.HumanizeRequest(Some(user), Some(text), tone) == Server.RewriteStop(SubscriptionRequired)
    ensures HumanizeRequest(Some(user), Some(text), tone) == Server.Rewrite(Some(text), Server.SelectTone(tone))
  {
    Server.LongTextNeedsSubscription(user, text, tone);
  }

  /** Where server.ts lets a request through, both versions send Gemini the same text and tone. */
  lemma SameRewriteWhenAllowed(user: Option<UserRecord>, text: Option<string>, tone: Option<string>)
    requires Server.HumanizeRequest(user, text, tone).Rewrite?
    ensures HumanizeRequest(user, text, tone) == Server.HumanizeRequest(user, text, tone)
  {
  }

  // ---------------------------------------------------------------------------
  // /api/webhooks/lemonsqueezy
  // ---------------------------------------------------------------------------

  /** `event.includes('created') || event.includes('updated')`: either word occurs anywhere in the name. */
  function GrantsByName(eventName: string): (b: bool)
    ensures b <==> (exists i: nat :: OccursAt(eventName, "created", i)) || (exists i: nat :: OccursAt(eventName, "updated", i))
  {
    Includes(eventName, "created") || Includes(eventName, "updated")
  }

  /**
   * This version's webhook decision; `Accepted` (below) says which headers pass. With a secret configured, a header whose
   * length differs from the digest's makes `timingSafeEqual` throw outside
   * the try block; one of the same length but other bytes is 403. A payload
   * without a user id is acknowledged and ignored; any other is stored with
   * the subscription flag read from the event name alone and the raw
   * `data.id`. A property access on a missing object throws inside the try
   * block and answers 500.
   */
  function VercelWebhook(secret: Option<string>, digestHex: (string, seq<byte>) -> seq<byte>,
                         body: seq<byte>, signature: seq<byte>, parsed: Option<Payload>): (o: WebhookOutcome)
    ensures Truthy(secret) && |digestHex(secret.value, body)| != |signature| ==> o == WebhookOutcome(Uncaught, NoChange)
    ensures Truthy(secret) && |digestHex(secret.value, body)| == |signature| && digestHex(secret.value, body) != signature ==>
      o == WebhookOutcome(InvalidSignature, NoChange)
    ensures o.effect.SetSubscription? ==> o.reply == WebhookOk
    ensures Accepted(secret, digestHex, body, signature) && parsed.Some? && parsed.value.meta.Some? ==>
      var meta := parsed.value.meta.value;
      // no user id: 200 'OK' and nothing stored
      (!Truthy(UserIdOf(meta)) ==> o == WebhookOutcome(WebhookOk, NoChange))
      // a user id: stored, subscribed exactly when the event name mentions created or updated
      && (Truthy(UserIdOf(meta)) && meta.eventName.Some? && parsed.value.data.Some? ==>
            o == WebhookOutcome(WebhookOk, SetSubscription(UserIdOf(meta).value,
                                                           GrantsByName(meta.eventName.value),
                                                           parsed.value.data.value.id)))
      // `event.includes` without `event_name`, or `data.id` without `data`, throws: 500, no change
      && (Truthy(UserIdOf(meta)) && (meta.eventName.None? || parsed.value.data.None?) ==>
            o == WebhookOutcome(WebhookError, NoChange))
    ensures Accepted(secret, digestHex, body, signature) && (parsed.None? || parsed.value.meta.None?) ==>
      o == WebhookOutcome(WebhookError, NoChange)
    ensures o.reply != MissingUserId
  {
    if Truthy(secret) && |digestHex(secret.value, body)| != |signature| then
      WebhookOutcome(Uncaught, NoChange)
    else if Truthy(secret) && digestHex(secret.value, body) != signature then
      WebhookOutcome(InvalidSignature, NoChange)
    else if parsed.None? || parsed.value.meta.None? then
      WebhookOutcome(WebhookError, NoChange)
    else
      var payload := parsed.value;
      var meta := payload.meta.value;
      var userId := UserIdOf(meta);
      if !Truthy(userId) then
        WebhookOutcome(WebhookOk, NoChange)
      else if meta.eventName.None? || payload.data.None? then
        WebhookOutcome(WebhookError, NoChange)
      else
        WebhookOutcome(WebhookOk, SetSubscription(userId.value, GrantsByName(meta.eventName.value), payload.data.value.id))
  }

  /** The payload of a subscription event for `userId` with the given name, status and subscription id. */
  function Event(userId: string, eventName: string, status: string, subscriptionId: string): Option<Payload> {
    Some(Payload(Some(Meta(Some(eventName), Some(CustomData(Some(userId))))),
                 Some(Data(Some(subscriptionId), Some(Attributes(Some(status)))))))
  }

  /** A webhook both versions accept: no secret, or a header equal to the digest. */
  predicate Accepted(secret: Option<string>, digestHex: (string, seq<byte>) -> seq<byte>,
                     body: seq<byte>, signature: seq<byte>) {
    !Truthy(secret) || digestHex(secret.value, body) == signature
  }

  /**
   * On an accepted created or updated subscription whose status is on the
   * whitelist, both versions store the same call: subscribed, with `data.id`.
   */
  lemma {:induction false} PoliciesAgreeOnActiveSubscription(secret: Option<string>, digestHex: (string, seq<byte>) -> seq<byte>,
                                                             body: seq<byte>, signature: seq<byte>,
                                                             userId: string, created: bool, status: string, sid: string)
    requires Accepted(secret, digestHex, body, signature)
    requires userId != "" && Server.ActiveStatus(Some(status))
    ensures var name := if created then "subscription_created" else "subscription_updated";
      var parsed := Event(userId, name, status, sid);
      VercelWebhook(secret, digestHex, body, signature, parsed)
        == Server.ServerWebhook(secret, digestHex, body, signature, parsed)
        == WebhookOutcome(WebhookOk, SetSubscription(userId, true, Some(sid)))
  {
    GrantingEventsGrantByName();
  }

  /** Both granting event names of server.ts also grant by name here. */
  lemma {:induction false} GrantingEventsGrantByName()
    ensures GrantsByName("subscription_created") && GrantsByName("subscription_updated")
  {
    IncludesSuffix("subscription_", "created");
    assert "subscription_" + "created" == "subscription_created";
    IncludesSuffix("subscription_", "updated");
    assert "subscription_" + "updated" == "subscription_updated";
  }

  /**
   * An updated subscription whose status is off the whitelist (for instance
   * "cancelled" or "unpaid") unsubscribes the user in server.ts but keeps
   * them subscribed here.
   */
  lemma {:induction false} PoliciesDifferOnInactiveUpdate(secret: Option<string>, digestHex: (string, seq<byte>) -> seq<byte>,
                                                          body: seq<byte>, signature: seq<byte>,
                                                          userId: string, status: string, sid: string)
    requires Accepted(secret, digestHex, body, signature)
    requires userId != "" && !Server.ActiveStatus(Some(status))
    ensures var parsed := Event(userId, "subscription_updated", status, sid);
      Server.ServerWebhook(secret, digestHex, body, signature, parsed) == WebhookOutcome(WebhookOk, SetSubscription(userId, false, Some(sid)))
      && VercelWebhook(secret, digestHex, body, signature, parsed) == WebhookOutcome(WebhookOk, SetSubscription(userId, true, Some(sid)))
  {
    GrantingEventsGrantByName();
  }

  /**
   * Any event whose name mentions "created" subscribes the user here, such
   * as an `order_created`, which server.ts acknowledges without a store call.
   */
  lemma {:induction false} PoliciesDifferOnOrderCreated(secret: Option<string>, digestHex: (string, seq<byte>) -> seq<byte>,
                                                        body: seq<byte>, signature: seq<byte>,
                                                        userId: string, status: string, sid: string)
    requires Accepted(secret, digestHex, body, signature)
    requires userId != ""
    ensures var parsed := Event(userId, "order_created", status, sid);
      Server.ServerWebhook(secret, digestHex, body, signature, parsed) == WebhookOutcome(WebhookOk, NoChange)
      && VercelWebhook(secret, digestHex, body, signature, parsed) == WebhookOutcome(WebhookOk, SetSubscription(userId, true, Some(sid)))
  {
    IncludesSuffix("order_", "created");
    assert "order_" + "created" == "order_created";
  }

  /**
   * Any other event about a user, one whose name mentions neither "created"
   * nor "updated" and that server.ts does not treat as an ending (for
   * instance `subscription_payment_success` or `subscription_resumed`), is
   * acknowledged without a store call in server.ts but unsubscribes the user
   * here, overwriting the stored subscription id with that event's `data.id`.
   */
  lemma {:induction false} PoliciesDifferOnOtherEvent(secret: Option<string>, digestHex: (string, seq<byte>) -> seq<byte>,
                                                      body: seq<byte>, signature: seq<byte>,
                                                      userId: string, name: string, status: string, sid: string)
    requires Accepted(secret, digestHex, body, signature)
    requires userId != "" && !GrantsByName(name) && !Server.EndingEvent(Some(name))
    ensures var parsed := Event(userId, name, status, sid);
      Server.ServerWebhook(secret, digestHex, body, signature, parsed) == WebhookOutcome(WebhookOk, NoChange)
      && VercelWebhook(secret, digestHex, body, signature, parsed) == WebhookOutcome(WebhookOk, SetSubscription(userId, false, Some(sid)))
  {
    GrantingEventsGrantByName();
    assert !Server.GrantingEvent(Some(name));
  }

  /** A payload without a user id is 400 in server.ts and 200 'OK' here; neither stores anything. */
  lemma PoliciesDifferOnMissingUserId(secret: Option<string>, digestHex: (string, seq<byte>) -> seq<byte>,
                                      body: seq<byte>, signature: seq<byte>, parsed: Option<Payload>)
    requires Accepted(secret, digestHex, body, signature)
    requires parsed.Some? && parsed.value.meta.Some? && !Truthy(UserIdOf(parsed.value.meta.value))
    ensures Server.ServerWebhook(secret, digestHex, body, signature, parsed) == WebhookOutcome(MissingUserId, NoChange)
    ensures VercelWebhook(secret, digestHex, body, signature, parsed) == WebhookOutcome(WebhookOk, NoChange)
  {
  }

  /** A signature of the wrong length is 403 in server.ts and an uncaught error here. */
  lemma PoliciesDifferOnSignatureLength(secret: string, digestHex: (string, seq<byte>) -> seq<byte>,
                                        body: seq<byte>, signature: seq<byte>, parsed: Option<Payload>)
    requires secret != "" && |digestHex(secret, body)| != |signature|
    ensures Server.ServerWebhook(Some(secret), digestHex, body, signature, parsed).reply == InvalidSignature
    ensures VercelWebhook(Some(secret), digestHex, body, signature, parsed).reply == Uncaught
  {
  }

  /** The map after the webhook's store call. */
  function ApplyToStore(entries: Table, e: Effect): (r: Table)
    ensures e.NoChange? ==> r == entries
    ensures e.SetSubscription? ==> r == MemoryUsers.Upsert(entries, e.userId, e.isSubscribed, e.subscriptionId)
    ensures r.Keys == entries.Keys + (if e.SetSubscription? then {e.userId} else {})
  {
    match e
    case NoChange => entries
    case SetSubscription(id, b, sid) => MemoryUsers.Upsert(entries, id, b, sid)
  }

  /**
   * Unlike server.ts, a webhook here about a user never seen before creates
   * the record, and a later lookup of that user sees the stored flag.
   */
  lemma WebhookCreatesUnknownUser(entries: Table, secret: Option<string>, digestHex: (string, seq<byte>) -> seq<byte>,
                                  body: seq<byte>, signature: seq<byte>, parsed: Option<Payload>)
    requires Keyed(entries)
    requires var o := VercelWebhook(secret, digestHex, body, signature, parsed); o.effect.SetSubscription?
    ensures var e := VercelWebhook(secret, digestHex, body, signature, parsed).effect;
      GetOrCreate(ApplyToStore(entries, e), e.userId).1 == UserRecord(e.userId, BitOf(e.isSubscribed), e.subscriptionId)
  {
    var e := VercelWebhook(secret, digestHex, body, signature, parsed).effect;
    MemoryUsers.GetAfterUpsert(entries, e.userId, e.isSubscribed, e.subscriptionId);
  }

  /** Any stored webhook is what `/api/user` reports next, known user or not. */
  lemma StatusAfterWebhook(entries: Table, e: Effect)
    requires Keyed(entries) && e.SetSubscription?
    ensures Server.UserStatus(Some(GetOrCreate(ApplyToStore(entries, e), e.userId).1)) == SubscriptionStatus(e.isSubscribed)
  {
    MemoryUsers.GetAfterUpsert(entries, e.userId, e.isSubscribed, e.subscriptionId);
  }

  /** The webhook route: decide, then make the one store call the decision names. */
  method HandleWebhook(store: MemoryUsers.MemoryStore, secret: Option<string>, digestHex: (string, seq<byte>) -> seq<byte>,
                       body: seq<byte>, signature: seq<byte>, parsed: Option<Payload>) returns (reply: Response)
    requires store.Valid()
    modifies store
    ensures store.Valid()
    ensures var o := VercelWebhook(secret, digestHex, body, signature, parsed);
      reply == o.reply && store.entries == ApplyToStore(old(store.entries), o.effect)
  {
    var o := VercelWebhook(secret, digestHex, body, signature, parsed);
    if o.effect.SetSubscription? {
      store.UpdateMemorySubscription(o.effect.userId, o.effect.isSubscribed, o.effect.subscriptionId);
    }
    reply := o.reply;
  }
}
