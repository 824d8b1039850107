/**
 * The invoice-lottery bot's webhook view: three `@` commands, a
 * three-digit prize check against the current period's winning numbers,
 * and a canned answer for every other text. The winning numbers come from
 * a published feed whose fetching and XML parsing stay outside the model:
 * the view sees the feed's `<item>` elements as the text of their children.
 */
module InvoiceBot {
  import opened Opt
  import opened Text
  import opened Messaging

  /* ---------------- The feed ---------------- */

  /** An `<item>` of the feed: the text of each child element in order, `None` for an element without text. */
  type Item = seq<Option<string>>

  /** The outcome of fetching and parsing the feed. */
  datatype Feed = FetchFailed | Document(items: seq<Item>)

  const FetchErrorText: string := "An error occurred while fetching the winning numbers!"
  const CheckErrorText: string := "讀取發票號碼發生錯誤！"

  /** The winning-number text with `<p>` removed and each `</p>` turned into a line break. */
  function CleanText(ptext: string): (r: string)
    ensures !Contains(ptext, "<p>") && !Contains(ptext, "</p>") ==> r == ptext
  {
    ReplaceAll(ReplaceAll(ptext, "<p>", ""), "</p>", "\n")
  }

  /* ---------------- showCurrent ---------------- */

  /** The reply of showCurrent: the first item's title, then its cleaned winning numbers without their final character. */
  function CurrentMessage(feed: Feed): (msg: string)
    ensures (feed.FetchFailed? || |feed.items| == 0 || |feed.items[0]| < 4 ||
             feed.items[0][0].None? || feed.items[0][3].None?) ==> msg == FetchErrorText
    ensures (feed.Document? && |feed.items| > 0 && |feed.items[0]| >= 4 &&
             feed.items[0][0].Some? && feed.items[0][3].Some?) ==>
        var title, cleaned := feed.items[0][0].value, CleanText(feed.items[0][3].value);
        && title + "\n" <= msg
        && (|cleaned| > 0 ==> msg + [cleaned[|cleaned| - 1]] == title + "\n" + cleaned)
        && (|cleaned| == 0 ==> msg == title + "\n")
  {
    if feed.FetchFailed? || |feed.items| == 0 || |feed.items[0]| < 4 then FetchErrorText
    else
      match (feed.items[0][0], feed.items[0][3])
      case (Some(title), Some(ptext)) =>
        var msg := title + "\n" + DropLast(CleanText(ptext));
        msg
      case _ => FetchErrorText  // `title + ...` or `ptext.replace` on None raises
  }

  /* ---------------- showOld ---------------- */

  /** `f"{title}"`: a missing title prints as `None`. */
  function Render(title: Option<string>): (r: string)
    ensures r == "None" <==> title == None || title == Some("None")
    ensures title.Some? ==> r == title.value
  {
    match title
    case None => "None"
    case Some(t) => t
  }

  /** The part of showOld's message for one item, or `None` when the item lacks what showOld reads. */
  function Block(item: Item): (b: Option<string>)
    ensures b.Some? <==> |item| >= 4 && item[3].Some?
    ensures b.Some? ==> Render(item[0]) + "\n" <= b.value && b.value[|b.value| - 1] == '\n'
  {
    if |item| < 4 || item[3].None? then None
    else Some(Render(item[0]) + "\n" + CleanText(item[3].value) + "\n")
  }

  /** The reply of showOld: the blocks of items 1 and 2 with the final character dropped. */
  function OldMessage(feed: Feed): (msg: string)
    ensures (feed.FetchFailed? || |feed.items| < 3 || Block(feed.items[1]).None? || Block(feed.items[2]).None?)
            ==> msg == FetchErrorText
    ensures (feed.Document? && |feed.items| >= 3 && Block(feed.items[1]).Some? && Block(feed.items[2]).Some?) ==>
            msg + ["\n"[0]] == Block(feed.items[1]).value + Block(feed.items[2]).value
  {
    if feed.FetchFailed? || |feed.items| < 3 then FetchErrorText
    else
      match (Block(feed.items[1]), Block(feed.items[2]))
      case (Some(b1), Some(b2)) => DropLast(b1 + b2)
      case _ => FetchErrorText
  }

  /** showOld: builds the message item by item. */
  method ShowOld(feed: Feed) returns (message: string)
    ensures message == OldMessage(feed)
  {
    if feed.FetchFailed? {
      return FetchErrorText;
    }
    var items := feed.items;
    message := "";
    for i := 1 to 3
      invariant i >= 2 ==> |items| > 1 && Block(items[1]).Some?
      invariant i == 3 ==> |items| > 2 && Block(items[2]).Some?
      invariant message == if i == 1 then "" else if i == 2 then Block(items[1]).value
                           else Block(items[1]).value + Block(items[2]).value
    {
      if |items| <= i || |items[i]| < 4 || items[i][3].None? {
        return FetchErrorText;
      }
      var title := items[i][0];
      var ptext := items[i][3].value;
      var block := Render(title) + "\n" + CleanText(ptext) + "\n";
      assert Block(items[i]) == Some(block);
      assert i == 1 ==> message + block == block;
      message := message + block;
    }
    message := DropLast(message);
  }

  /* ---------------- show3digit ---------------- */

  /** The last three digits of each winning number of the current period. */
  datatype Prizes = Prizes(special: string, grand: string, first: seq<string>)

  /** The winning-number text with `<p>` removed, split at `</p>`. */
  function Segments(ptext: string): (r: seq<string>)
    ensures |r| >= 1
  {
    Split(ReplaceAll(ptext, "<p>", ""), "</p>")
  }

  /** `[prize[-3:] for prize in numbers]` */
  function LastThreeOfEach(numbers: seq<string>): (r: seq<string>)
    ensures |r| == |numbers|
    ensures forall k :: 0 <= k < |r| ==> r[k] == SuffixSlice(numbers[k], 3)
  {
    if numbers == [] then [] else [SuffixSlice(numbers[0], 3)] + LastThreeOfEach(numbers[1..])
  }

  /** show3digit's extraction; `None` when the text has fewer than three segments (an IndexError). */
  function ExtractPrizes(ptext: string): (r: Option<Prizes>)
    ensures r.Some? <==> |Segments(ptext)| >= 3
  {
    var seg := Segments(ptext);
    if |seg| < 3 then None
    else
      var special, grand := SuffixSlice(seg[0], 3), SuffixSlice(seg[1], 3);
      var first := LastThreeOfEach(Split(seg[2], "、"));
      Some(Prizes(special, grand, first))
  }

  datatype PrizeMatch = SpecialPrize | GrandPrize | FirstPrize | NoPrize

  /** The if/elif chain comparing the user's digits with the prizes, in priority order. */
  function MatchPrize(digits: string, p: Prizes): (o: PrizeMatch)
    ensures o == SpecialPrize <==> digits == p.special
    ensures o == GrandPrize <==> digits != p.special && digits == p.grand
    ensures o == FirstPrize <==> digits != p.special && digits != p.grand && digits in p.first
    ensures o == NoPrize <==> digits != p.special && digits != p.grand && digits !in p.first
  {
    if digits == p.special then SpecialPrize
    else if digits == p.grand then GrandPrize
    else if digits in p.first then FirstPrize
    else NoPrize
  }

  function MatchText(o: PrizeMatch): (msg: string)
    ensures msg != CheckErrorText
  {
    match o
    case SpecialPrize => "符合特別獎後三碼！"
    case GrandPrize => "符合特獎後三碼！"
    case FirstPrize => "符合頭獎後三碼！恭喜！至少中六獎！"
    case NoPrize => "很可惜，未中獎。請輸入下一張發票最後三碼。"
  }

  /** The reply of show3digit: one of the four match texts, or the fixed error text. */
  function CheckMessage(feed: Feed, digits: string): (msg: string)
    ensures msg == CheckErrorText || exists o: PrizeMatch :: msg == MatchText(o)
    ensures msg == CheckErrorText <==>
      feed.FetchFailed? || |feed.items| == 0 || |feed.items[0]| < 4 || feed.items[0][3].None? ||
      |Segments(feed.items[0][3].value)| < 3
  {
    if feed.FetchFailed? || |feed.items| == 0 || |feed.items[0]| < 4 || feed.items[0][3].None? then CheckErrorText
    else
      match ExtractPrizes(feed.items[0][3].value)
      case None => CheckErrorText
      case Some(p) =>
        MatchText(MatchPrize(digits, p))
  }

  /* ---------------- Well-formed winning-number texts ---------------- */

  /** A line of the winning-number text carries no markup. */
  predicate Plain(line: string) {
    '<' !in line
  }

  predicate AllPlain(lines: seq<string>) {
    forall k :: 0 <= k < |lines| ==> Plain(lines[k])
  }

  /** The winning-number text as the feed publishes it: every line wrapped in `<p>` and `</p>`. */
  function Paragraphs(lines: seq<string>): (text: string) {
    if lines == [] then "" else "<p>" + (lines[0] + "</p>" + Paragraphs(lines[1..]))
  }

  /** The same text once `<p>` is removed. */
  function Closed(lines: seq<string>): (text: string) {
    if lines == [] then "" else lines[0] + "</p>" + Closed(lines[1..])
  }

  /** The lines, each followed by a line break. */
  function Broken(lines: seq<string>): (text: string) {
    if lines == [] then "" else lines[0] + "\n" + Broken(lines[1..])
  }

  /** `</p>` after a plain line holds no `<p>`. */
  lemma NoOpenTagInClosedLine(l: string, y: string)
    requires Plain(l)
    ensures forall j: nat :: j < |l| + 4 ==> !OccursAt(l + "</p>" + y, "<p>", j)
  {
    var s := l + "</p>" + y;
    forall j: nat | j < |l| + 4 ensures !OccursAt(s, "<p>", j) {
      if j < |l| {
        assert s[j] == l[j];
      } else if j == |l| {
        assert s[j + 1] == '/';
      } else {
        assert s[j] == "</p>"[j - |l|];
      }
    }
  }

  lemma OpenTagFreeLine(l: string)
    requires Plain(l)
    ensures ReplaceAll(l + "</p>", "<p>", "") == l + "</p>"
  {
    NoOpenTagInClosedLine(l, "");
    assert l + "</p>" + "" == l + "</p>";
  }

  /** `</p>` followed by `<p>` after a plain line: the first `<p>` is the one after `</p>`. */
  lemma NoOpenTagBeforeNext(l: string, y: string)
    requires Plain(l)
    ensures forall j: nat :: j < |l + "</p>"| ==> !OccursAt(l + "</p>" + "<p>" + y, "<p>", j)
  {
    var s := l + "</p>" + "<p>" + y;
    forall j: nat | j < |l| + 4 ensures !OccursAt(s, "<p>", j) {
      if j < |l| {
        assert s[j] == l[j];
      } else if j == |l| {
        assert s[j + 1] == '/';
      } else {
        assert s[j] == "</p>"[j - |l|];
      }
    }
  }

  lemma ReplaceOpenAfterLine(l: string, y: string)
    requires Plain(l)
    ensures ReplaceAll(l + "</p>" + "<p>" + y, "<p>", "") == l + "</p>" + ReplaceAll(y, "<p>", "")
  {
    var x := l + "</p>";
    NoOpenTagBeforeNext(l, y);
    ReplaceAllAfter(x, "<p>", "", y);
    assert x + "" == x;
  }

  lemma {:induction false} OpenTagsRemovedAfter(l: string, rest: seq<string>)
    requires Plain(l) && AllPlain(rest)
    ensures ReplaceAll(l + "</p>" + Paragraphs(rest), "<p>", "") == l + "</p>" + Closed(rest)
    decreases |rest|
  {
    if rest == [] {
      OpenTagFreeLine(l);
      assert l + "</p>" + Paragraphs(rest) == l + "</p>";
    } else {
      var y := rest[0] + "</p>" + Paragraphs(rest[1..]);
      assert l + "</p>" + Paragraphs(rest) == l + "</p>" + "<p>" + y;
      ReplaceOpenAfterLine(l, y);
      OpenTagsRemovedAfter(rest[0], rest[1..]);
    }
  }

  /** Removing `<p>` from well-formed text leaves each line followed by `</p>`. */
  lemma {:induction false} ParagraphsUnopened(lines: seq<string>)
    requires AllPlain(lines)
    ensures ReplaceAll(Paragraphs(lines), "<p>", "") == Closed(lines)
  {
    if lines != [] {
      var y := lines[0] + "</p>" + Paragraphs(lines[1..]);
      OpenTagsRemovedAfter(lines[0], lines[1..]);
      LeadingOpenTagRemoved(Paragraphs(lines), y, Closed(lines));
    }
  }

  lemma LeadingOpenTagRemoved(p: string, y: string, c: string)
    requires p == "<p>" + y && ReplaceAll(y, "<p>", "") == c
    ensures ReplaceAll(p, "<p>", "") == c
  {
    var z := ReplaceAll(y, "<p>", "");
    ReplaceAllAfter("", "<p>", "", y);
    assert "" + "<p>" + y == "<p>" + y;
    assert "" + "" + z == z;
  }

  /** A plain line followed by `</p>` is the first piece when splitting at `</p>`. */
  lemma SplitAfterPlain(l: string, y: string)
    requires Plain(l)
    ensures Split(l + "</p>" + y, "</p>") == [l] + Split(y, "</p>")
  {
    forall j: nat | j < |l| ensures !OccursAt(l + "</p>" + y, "</p>", j) {
      assert (l + "</p>" + y)[j] == l[j];
    }
    SplitAfter(l, "</p>", y);
  }

  /** Replacing `</p>` after a plain line gives the line and a line break. */
  lemma ReplaceAfterPlain(l: string, y: string)
    requires Plain(l)
    ensures ReplaceAll(l + "</p>" + y, "</p>", "\n") == l + "\n" + ReplaceAll(y, "</p>", "\n")
  {
    forall j: nat | j < |l| ensures !OccursAt(l + "</p>" + y, "</p>", j) {
      assert (l + "</p>" + y)[j] == l[j];
    }
    ReplaceAllAfter(l, "</p>", "\n", y);
  }

  /** Splitting the unopened text at `</p>` gives back the lines and an empty remainder. */
  lemma {:induction false} ClosedSplit(lines: seq<string>)
    requires AllPlain(lines)
    ensures Split(Closed(lines), "</p>") == lines + [""]
  {
    if lines == [] {
      SplitWithout("", "</p>");
    } else {
      SplitAfterPlain(lines[0], Closed(lines[1..]));
      ClosedSplit(lines[1..]);
      assert lines + [""] == [lines[0]] + (lines[1..] + [""]);
    }
  }

  /** Replacing `</p>` by a line break in the unopened text ends each line with a line break. */
  lemma {:induction false} ClosedBroken(lines: seq<string>)
    requires AllPlain(lines)
    ensures ReplaceAll(Closed(lines), "</p>", "\n") == Broken(lines)
  {
    if lines == [] {
      SplitWithout("", "</p>");
    } else {
      ReplaceAfterPlain(lines[0], Closed(lines[1..]));
      ClosedBroken(lines[1..]);
    }
  }

  lemma {:induction false} BrokenJoin(lines: seq<string>)
    requires lines != []
    ensures Broken(lines) == Join(lines, "\n") + "\n"
  {
    if |lines| > 1 {
      BrokenJoin(lines[1..]);
    }
  }

  /** Cleaning well-formed text puts each line on a line of its own. */
  lemma CleanParagraphs(lines: seq<string>)
    requires AllPlain(lines)
    ensures CleanText(Paragraphs(lines)) == Broken(lines)
  {
    ParagraphsUnopened(lines);
    ClosedBroken(lines);
  }

  /** An item whose title is `title` and whose winning numbers are `lines` in paragraphs. */
  predicate WellFormedItem(item: Item, title: string, lines: seq<string>) {
    |item| >= 4 && item[0] == Some(title) && item[3] == Some(Paragraphs(lines)) && AllPlain(lines)
  }

  /** On a well-formed feed showCurrent answers with the period and its winning numbers, one per line. */
  lemma CurrentShowsLines(feed: Feed, title: string, lines: seq<string>)
    requires feed.Document? && |feed.items| > 0 && WellFormedItem(feed.items[0], title, lines)
    requires lines != []
    ensures CurrentMessage(feed) == title + "\n" + Join(lines, "\n")
  {
    CleanParagraphs(lines);
    BrokenJoin(lines);
    var cleaned := Join(lines, "\n") + "\n";
    assert DropLast(cleaned) + ["\n"[0]] == Join(lines, "\n") + "\n";
  }

  /**
   * On a well-formed feed showOld answers with the two previous periods, a blank
   * line between them; only one of the two final line breaks is dropped.
   */
  lemma OldShowsTwoPeriods(feed: Feed, t1: string, lines1: seq<string>, t2: string, lines2: seq<string>)
    requires feed.Document? && |feed.items| > 2
    requires WellFormedItem(feed.items[1], t1, lines1) && lines1 != []
    requires WellFormedItem(feed.items[2], t2, lines2) && lines2 != []
    ensures OldMessage(feed) ==
      t1 + "\n" + Join(lines1, "\n") + "\n\n" + t2 + "\n" + Join(lines2, "\n") + "\n"
  {
    CleanParagraphs(lines1);
    BrokenJoin(lines1);
    CleanParagraphs(lines2);
    BrokenJoin(lines2);
    var all := t1 + "\n" + Join(lines1, "\n") + "\n\n" + t2 + "\n" + Join(lines2, "\n") + "\n";
    assert Block(feed.items[1]).value + Block(feed.items[2]).value == all + "\n";
    assert DropLast(all + "\n") + ["\n"[0]] == all + "\n";
  }

  /**
   * On well-formed text whose third line lists the first prizes separated by `、`,
   * show3digit compares against the last three digits of the first line, of the
   * second line and of every first prize.
   */
  lemma PrizesOfParagraphs(lines: seq<string>, firsts: seq<string>)
    requires AllPlain(lines) && |lines| >= 3
    requires firsts != [] && lines[2] == Join(firsts, "、")
    requires forall k :: 0 <= k < |firsts| ==> '、' !in firsts[k]
    ensures ExtractPrizes(Paragraphs(lines)) ==
      Some(Prizes(SuffixSlice(lines[0], 3), SuffixSlice(lines[1], 3), LastThreeOfEach(firsts)))
  {
    ParagraphsUnopened(lines);
    ClosedSplit(lines);
    var seg := lines + [""];
    assert Segments(Paragraphs(lines)) == seg;
    assert seg[0] == lines[0] && seg[1] == lines[1] && seg[2] == lines[2];
    SplitJoin(firsts, "、");
  }

  /** show3digit on a well-formed feed: the reply is the match of the digits against those prizes. */
  lemma CheckAgainstParagraphs(feed: Feed, digits: string, title: string, lines: seq<string>, firsts: seq<string>)
    requires feed.Document? && |feed.items| > 0 && WellFormedItem(feed.items[0], title, lines) && |lines| >= 3
    requires firsts != [] && lines[2] == Join(firsts, "、")
    requires forall k :: 0 <= k < |firsts| ==> '、' !in firsts[k]
    ensures CheckMessage(feed, digits) ==
      MatchText(MatchPrize(digits, Prizes(SuffixSlice(lines[0], 3), SuffixSlice(lines[1], 3), LastThreeOfEach(firsts))))
  {
    PrizesOfParagraphs(lines, firsts);
    CheckWithPrizes(feed, digits);
  }

  /** Once the text splits into at least three segments, the reply is the match against the extracted prizes. */
  lemma CheckWithPrizes(feed: Feed, digits: string)
    requires feed.Document? && |feed.items| > 0 && |feed.items[0]| >= 4 && feed.items[0][3].Some?
    ensures ExtractPrizes(feed.items[0][3].value).Some? ==>
      CheckMessage(feed, digits) == MatchText(MatchPrize(digits, ExtractPrizes(feed.items[0][3].value).value))
  {
  }

  /* ---------------- Command and canned-reply selection (callback) ---------------- */

  datatype Command =
    | ShowCurrent
    | ShowPrevious
    | AskForDigits
    | CheckDigits(digits: string)
    | Chat(text: string)

  const Keywords: set<string> := {"@顯示本期中獎號碼", "@顯示前期中獎號碼", "@對獎"}

  /** Three characters, all digits (`len(mtext) == 3 and mtext.isdigit()`). */
  predicate IsThreeDigits(mtext: string) {
    |mtext| == 3 && IsDigits(mtext)
  }

  /** The if/elif chain on `mtext`. */
  function CommandOf(mtext: string): (c: Command)
    ensures c == ShowCurrent <==> mtext == "@顯示本期中獎號碼"
    ensures c == ShowPrevious <==> mtext == "@顯示前期中獎號碼"
    ensures c == AskForDigits <==> mtext == "@對獎"
    ensures c.CheckDigits? <==> mtext !in Keywords && IsThreeDigits(mtext)
    ensures c.Chat? <==> mtext !in Keywords && !IsThreeDigits(mtext)
    ensures c.CheckDigits? ==> c.digits == mtext
    ensures c.Chat? ==> c.text == mtext
  {
    if mtext == "@顯示本期中獎號碼" then ShowCurrent
    else if mtext == "@顯示前期中獎號碼" then ShowPrevious
    else if mtext == "@對獎" then AskForDigits
    else if IsThreeDigits(mtext) then CheckDigits(mtext)
    else Chat(mtext)
  }

  datatype ChatKind = Greeting | InvoiceHelp | Menu

  predicate IsGreeting(mtext: string) {
    Contains(mtext, "你好") || Contains(mtext, "嗨") || Contains(Lower(mtext), "hello")
  }

  /** The canned answer's kind: a greeting wins over a mention of invoices. */
  function ChatKindOf(mtext: string): (k: ChatKind)
    ensures k == Greeting <==> IsGreeting(mtext)
    ensures k == InvoiceHelp <==> !IsGreeting(mtext) && Contains(mtext, "發票")
    ensures k == Menu <==> !IsGreeting(mtext) && !Contains(mtext, "發票")
  {
    if IsGreeting(mtext) then Greeting
    else if Contains(mtext, "發票") then InvoiceHelp
    else Menu
  }

  /** A "hello" in any mix of cases, anywhere in the message, makes it a greeting. */
  lemma HelloInAnyCase(x: string, w: string, y: string)
    requires Lower(w) == "hello"
    ensures ChatKindOf(x + w + y) == Greeting
  {
    var s := x + w + y;
    var low := Lower(s);
    forall i | 0 <= i < 5 ensures low[|x| + i] == "hello"[i] {
      assert s[|x| + i] == w[i];
    }
    assert low[|x|..|x| + 5] == "hello";
    assert OccursAt(low, "hello", |x|);
  }

  function ChatText(k: ChatKind): (text: string)
    ensures text != FetchErrorText && text != CheckErrorText && text != AskForDigitsText
  {
    match k
    case Greeting => "你好！我是發票小幫手，可以協助您處理發票相關事務。請問需要什麼服務呢？"
    case InvoiceHelp => "我可以協助您處理發票相關的需求，例如儲存發票、查詢發票或對獎。請告訴我您想做什麼。"
    case Menu => "感謝您的訊息！我是發票小幫手，目前我可以協助您處理發票相關事務。\n\n請試試以下功能：\n@顯示本期中獎號碼\n@顯示前期中獎號碼\n@對獎"
  }

  const AskForDigitsText: string := "請輸入發票後面後三碼以進行對獎"

  /** The three canned answers differ, so the answer tells which kind of message was recognised. */
  lemma ChatTextsDistinct(a: ChatKind, b: ChatKind)
    ensures a != b ==> ChatText(a) != ChatText(b)
  {
  }

  /** The text replied to a text message. */
  function ReplyText(mtext: string, feed: Feed): (text: string)
    ensures mtext == "@顯示本期中獎號碼" ==> text == CurrentMessage(feed)
    ensures mtext == "@顯示前期中獎號碼" ==> text == OldMessage(feed)
    ensures mtext == "@對獎" ==> text == AskForDigitsText
    ensures mtext !in Keywords && IsThreeDigits(mtext) ==> text == CheckMessage(feed, mtext)
    ensures mtext !in Keywords && !IsThreeDigits(mtext) ==> text == ChatText(ChatKindOf(mtext))
  {
    match CommandOf(mtext)
    case ShowCurrent => CurrentMessage(feed)
    case ShowPrevious => OldMessage(feed)
    case AskForDigits => AskForDigitsText
    case CheckDigits(digits) => CheckMessage(feed, digits)
    case Chat(text) => ChatText(ChatKindOf(text))
  }

  predicate IsTextMessage(e: Event) {
    e.MessageEvent? && e.message.TextMessage?
  }

  /** The reply to one text message. */
  function AnswerTo(e: Event, feed: Feed): (r: Reply)
    requires IsTextMessage(e)
  {
    Reply(e.replyToken, Text(ReplyText(e.message.text, feed)))
  }

  /** The replies for a batch of events, in event order: one per text message. */
  function RepliesFor(events: seq<Event>, feed: Feed): (r: seq<Reply>)
    ensures |r| <= |events|
    ensures (forall j :: 0 <= j < |events| ==> !IsTextMessage(events[j])) ==> r == []
    decreases |events|
  {
    if events == [] then []
    else
      var last := events[|events| - 1];
      RepliesFor(events[..|events| - 1], feed) + (if IsTextMessage(last) then [AnswerTo(last, feed)] else [])
  }

  /** Every text message of the batch is answered. */
  lemma {:induction false} EveryTextMessageAnswered(events: seq<Event>, feed: Feed, j: nat)
    requires j < |events| && IsTextMessage(events[j])
    ensures AnswerTo(events[j], feed) in RepliesFor(events, feed)
    decreases |events|
  {
    if j < |events| - 1 {
      var shorter := events[..|events| - 1];
      assert shorter[j] == events[j];
      EveryTextMessageAnswered(shorter, feed, j);
    }
  }

  /** Every reply answers a text message of the batch. */
  lemma {:induction false} OnlyTextMessagesAnswered(events: seq<Event>, feed: Feed, r: Reply)
    requires r in RepliesFor(events, feed)
    ensures exists j :: 0 <= j < |events| && IsTextMessage(events[j]) && r == AnswerTo(events[j], feed)
    decreases |events|
  {
    var shorter := events[..|events| - 1];
    if r in RepliesFor(shorter, feed) {
      OnlyTextMessagesAnswered(shorter, feed, r);
      var j :| 0 <= j < |shorter| && IsTextMessage(shorter[j]) && r == AnswerTo(shorter[j], feed);
      assert events[j] == shorter[j];
    } else {
      assert IsTextMessage(events[|events| - 1]);
    }
  }

  datatype Response = Response(status: int, replies: seq<Reply>)

  /** The view from the request to the response and the replies sent. */
  function HandleRequest(req: Request, feed: Feed): (r: Response)
    ensures r.status != OK ==> r.replies == []
    ensures !req.isPost ==> r.status == MethodNotAllowed
    ensures req.isPost && (req.parse.InvalidSignature? || req.parse.ApiError?) ==> r.status == BadRequest
    ensures req.isPost && req.parse.Malformed? ==> r.status == ServerError
    ensures req.isPost && req.parse.Parsed? ==> r.status == OK
  {
    if !req.isPost then Response(MethodNotAllowed, [])  // the POST-only decorator
    else
      match req.parse
      case InvalidSignature => Response(BadRequest, [])
      case ApiError => Response(BadRequest, [])
      case Malformed => Response(ServerError, [])
      case Parsed(events) => Response(OK, RepliesFor(events, feed))
  }

  /** callback: replies to the events one at a time; every fetch of the feed sees `feed`. */
  method Callback(req: Request, feed: Feed) returns (status: int, replies: seq<Reply>)
    ensures Response(status, replies) == HandleRequest(req, feed)
  {
    replies := [];
    if !req.isPost {
      return MethodNotAllowed, replies;
    }
    match req.parse
    case InvalidSignature => return BadRequest, replies;
    case ApiError => return BadRequest, replies;
    case Malformed => return ServerError, replies;
    case Parsed(events) =>
      var i := 0;
      while i < |events|
        invariant 0 <= i <= |events|
        invariant replies == RepliesFor(events[..i], feed)
      {
        assert events[..i + 1][..i] == events[..i];
        var e := events[i];
        if e.MessageEvent? && e.message.TextMessage? {
          var mtext := e.message.text;
          var text;
          if mtext == "@顯示本期中獎號碼" {
            text := CurrentMessage(feed);
          } else if mtext == "@顯示前期中獎號碼" {
            text := ShowOld(feed);
          } else if mtext == "@對獎" {
            text := AskForDigitsText;
          } else if |mtext| == 3 && IsDigits(mtext) {
            text := CheckMessage(feed, mtext);
          } else {
            text := ChatText(ChatKindOf(mtext));
          }
          replies := replies + [Reply(e.replyToken, Text(text))];
        }
        i := i + 1;
      }
      assert events[..i] == events;
      return OK, replies;
  }
}
