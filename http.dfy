/**
 * What the Express handlers answer and what the webhook asks the store to
 * do, shared by server.ts and api/server-vercel.ts; and the webhook payload
 * as the handlers read it after `JSON.parse`, every field optional.
 */
module Http {
  import opened Js

  /** The replies the modelled routes send. */
  datatype Response =
    | Unauthorized                      // 401 { error: 'Unauthorized' }
    | SubscriptionRequired              // 403, the 100-word gate of /api/humanize
    | InvalidSignature                  // 403 { error: 'Invalid signature' }
    | MissingUserId                     // 400 { error: 'No user_id in custom_data' }
    | UpstreamError                     // 500 from a handler's own catch block
    | Rewritten(text: string)           // 200 { text }
    | AiScore(percentage: int)          // 200 { aiPercentage }
    | CheckoutUrl(url: Option<string>)  // 200 { url }
    | SubscriptionStatus(isSubscribed: bool) // 200 { is_subscribed }
    | WebhookOk                         // 200 'OK'
    | WebhookError                      // 500 from the webhook's catch block
    | Uncaught                          // thrown outside any try block; left to the framework

  /** The outcome of a call to a remote service (Gemini, Lemon Squeezy): it throws, or answers a text that may be missing. */
  datatype Upstream = Failed | Replied(text: Option<string>)

  /** The webhook body after parsing: `{ meta: { event_name, custom_data: { user_id } }, data: { id, attributes: { status } } }`. */
  datatype Payload = Payload(meta: Option<Meta>, data: Option<Data>)
  datatype Meta = Meta(eventName: Option<string>, customData: Option<CustomData>)
  datatype CustomData = CustomData(userId: Option<string>)
  datatype Data = Data(id: Option<string>, attributes: Option<Attributes>)
  datatype Attributes = Attributes(status: Option<string>)

  /** `payload.meta.custom_data?.user_id`, once `payload.meta` is known to exist. */
  function UserIdOf(meta: Meta): (r: Option<string>)
    ensures meta.customData.None? ==> r.None?
    ensures meta.customData.Some? ==> r == meta.customData.value.userId
  {
    if meta.customData.Some? then meta.customData.value.userId else None
  }

  /** The one store call a webhook makes, if any: `update...(userId, isSubscribed, data.id)`. */
  datatype Effect =
    | NoChange
    | SetSubscription(userId: string, isSubscribed: bool, subscriptionId: Option<string>)

  datatype WebhookOutcome = WebhookOutcome(reply: Response, effect: Effect)
}
