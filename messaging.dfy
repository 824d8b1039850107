/**
 * The part of the messaging platform's webhook SDK that the three bots
 * see: parsed events, the outcome of parsing a signed body, the payloads a
 * bot can reply with and the HTTP statuses the views return. Signature
 * checking and JSON parsing stay opaque: a request carries the outcome the
 * SDK's parser would produce for its body and signature.
 */
module Messaging {

  /** The content of a message event: only text messages carry `.text`. */
  datatype Message = TextMessage(text: string) | NonTextMessage

  /** A webhook event; follow, unfollow, join and the like are `OtherEvent`. */
  datatype Event =
    | MessageEvent(replyToken: string, userId: string, message: Message)
    | PostbackEvent(replyToken: string, userId: string, data: string)
    | OtherEvent(replyToken: string)

  /** What `parser.parse(body, signature)` does: return the events or raise. */
  datatype ParseOutcome =
    | Parsed(events: seq<Event>)
    | InvalidSignature  // InvalidSignatureError
    | ApiError          // LineBotApiError
    | Malformed         // any other exception, e.g. a body that is not JSON

  /** An incoming HTTP request to the webhook. */
  datatype Request = Request(isPost: bool, hasSignatureHeader: bool, parse: ParseOutcome)

  /** A quick-reply button that sends a postback with `data`. */
  datatype PostbackOption = PostbackOption(buttonLabel: string, data: string)

  /** The payload of one reply. */
  datatype Payload =
    | Text(text: string)
    | QuickReplyText(text: string, options: seq<PostbackOption>)
    | Image(originalContentUrl: string, previewImageUrl: string)
    | Sticker(packageId: string, stickerId: string)
    | Translation(toLang: string, fromLang: string, source: string)  // the translation service's output for `source`

  /** One call of `reply_message`: the payload sent with an event's reply token. */
  datatype Reply = Reply(token: string, payload: Payload)

  const OK := 200
  const BadRequest := 400
  const Forbidden := 403
  const MethodNotAllowed := 405
  const ServerError := 500
}
