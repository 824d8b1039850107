/**
 * The demo bot's webhook view: six `@` commands answered with fixed
 * payloads, and every other text message echoed back unchanged.
 */
module TestBot {
  import opened Messaging

  /** sendText's fixed greeting. */
  const GreetingText: string := "我是中原 Linebot,\n您好!"

  /** sendImage's picture, used both as the original and as the preview. */
  const ImageUrl: string :=
    "https://upload.wikimedia.org/wikipedia/commons/thumb/4/47/PNG_transparency_demonstration_1.png/640px-PNG_transparency_demonstration_1.png"

  const Commands: set<string> := {"@傳送文字", "@傳送圖片", "@傳送貼圖", "@多項傳送", "@傳送位置", "@快速選單"}

  /** The if/elif chain on `mtext` with sendText, sendImage and sendStick inlined. */
  function PayloadFor(mtext: string): (p: Payload)
    ensures p == Text(mtext) <==> mtext !in Commands
    ensures p.Image? <==> mtext == "@傳送圖片"
    ensures p.Image? ==> p.originalContentUrl == p.previewImageUrl
    ensures p.Sticker? <==> mtext == "@傳送貼圖"
    ensures p.Sticker? ==> p == Sticker("446", "1988")
    ensures mtext == "@傳送文字" ==> p == Text(GreetingText)
    ensures mtext == "@多項傳送" ==> p == Text("case 4")
    ensures mtext == "@傳送位置" ==> p == Text("case 5")
    ensures mtext == "@快速選單" ==> p == Text("case 6")
  {
    if mtext == "@傳送文字" then Text(GreetingText)
    else if mtext == "@傳送圖片" then Image(ImageUrl, ImageUrl)
    else if mtext == "@傳送貼圖" then Sticker("446", "1988")
    else if mtext == "@多項傳送" then Text("case 4")
    else if mtext == "@傳送位置" then Text("case 5")
    else if mtext == "@快速選單" then Text("case 6")
    else Text(mtext)
  }

  predicate IsTextMessage(e: Event) {
    e.MessageEvent? && e.message.TextMessage?
  }

  /** The one reply a text message event gets. */
  function AnswerTo(e: Event): (r: Reply)
    requires IsTextMessage(e)
  {
    Reply(e.replyToken, PayloadFor(e.message.text))
  }

  /** The replies for a batch of events, in event order. */
  function RepliesFor(events: seq<Event>): (r: seq<Reply>)
    ensures |r| <= |events|
    ensures (forall j :: 0 <= j < |events| ==> !IsTextMessage(events[j])) ==> r == []
    decreases |events|
  {
    if events == [] then []
    else
      var last := events[|events| - 1];
      RepliesFor(events[..|events| - 1]) + (if IsTextMessage(last) then [AnswerTo(last)] else [])
  }

  datatype Response = Response(status: int, replies: seq<Reply>)

  /** The view from the request to the response and the replies sent. */
  function HandleRequest(req: Request): (r: Response)
    ensures r.status != OK ==> r.replies == []
    ensures !req.isPost ==> r.status == BadRequest
    ensures req.isPost && req.parse.InvalidSignature? ==> r.status == Forbidden
    ensures req.isPost && req.parse.ApiError? ==> r.status == BadRequest
    ensures req.isPost && req.parse.Parsed? ==> r.status == OK
  {
    if !req.isPost then Response(BadRequest, [])
    else
      match req.parse
      case InvalidSignature => Response(Forbidden, [])
      case ApiError => Response(BadRequest, [])
      case Malformed => Response(ServerError, [])  // the exception escapes the view
      case Parsed(events) => Response(OK, RepliesFor(events))
  }

  /** callback: replies to the events one at a time. */
  method Callback(req: Request) returns (status: int, replies: seq<Reply>)
    ensures Response(status, replies) == HandleRequest(req)
  {
    replies := [];
    if !req.isPost {
      return BadRequest, replies;
    }
    match req.parse
    case InvalidSignature => return Forbidden, replies;
    case ApiError => return BadRequest, replies;
    case Malformed => return ServerError, replies;
    case Parsed(events) =>
      var i := 0;
      while i < |events|
        invariant 0 <= i <= |events|
        invariant replies == RepliesFor(events[..i])
      {
        assert events[..i + 1][..i] == events[..i];
        var e := events[i];
        if e.MessageEvent? && e.message.TextMessage? {
          replies := replies + [Reply(e.replyToken, PayloadFor(e.message.text))];
        }
        i := i + 1;
      }
      assert events[..i] == events;
      return OK, replies;
  }

  /** Every text message in the batch is answered. */
  lemma {:induction false} EveryTextMessageAnswered(events: seq<Event>, j: nat)
    requires j < |events| && IsTextMessage(events[j])
    ensures AnswerTo(events[j]) in RepliesFor(events)
    decreases |events|
  {
    if j < |events| - 1 {
      var shorter := events[..|events| - 1];
      assert shorter[j] == events[j];
      EveryTextMessageAnswered(shorter, j);
    }
  }

  /** Every reply answers a text message of the batch; nothing else is replied to. */
  lemma {:induction false} OnlyTextMessagesAnswered(events: seq<Event>, r: Reply)
    requires r in RepliesFor(events)
    ensures exists j :: 0 <= j < |events| && IsTextMessage(events[j]) && r == AnswerTo(events[j])
    decreases |events|
  {
    var shorter := events[..|events| - 1];
    if r in RepliesFor(shorter) {
      OnlyTextMessagesAnswered(shorter, r);
      var j :| 0 <= j < |shorter| && IsTextMessage(shorter[j]) && r == AnswerTo(shorter[j]);
      assert events[j] == shorter[j];
    } else {
      assert IsTextMessage(events[|events| - 1]);
    }
  }

  /** Replies come in the order of the events they answer. */
  lemma {:induction false} RepliesForAppend(a: seq<Event>, b: seq<Event>)
    ensures RepliesFor(a + b) == RepliesFor(a) + RepliesFor(b)
    decreases |b|
  {
    if b == [] {
      assert a + b == a;
    } else {
      var b' := b[..|b| - 1];
      assert (a + b)[..|a + b| - 1] == a + b';
      RepliesForAppend(a, b');
    }
  }
}
