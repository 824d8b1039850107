/**
 * The translate bot's webhook view: each message event reads the sender's
 * language (storing English the first time), then either answers one of
 * five `@` commands or asks the translation service to translate the text;
 * a postback carrying `lang=<code>` changes the sender's language.
 */
module TranslateBot {
  import opened Opt
  import opened Text
  import opened Messaging
  import opened VariableSettings

  const DefaultLanguage: Language := "en"

  /* ---------------- Postback data: `dict(parse_qsl(data))` ---------------- */

  /**
   * One `&`-separated field of a query string, as `parse_qsl` reads it with
   * its defaults: a field without `=` or with an empty value is dropped, the
   * name ends at the first `=`, and `+` stands for a space.
   */
  function FieldPair(field: string): (r: Option<(string, string)>)
    ensures r.Some? ==> |r.value.1| > 0
  {
    match IndexOf(field, "=")
    case None => None
    case Some(i) =>
      if i + 1 < |field| then
        var value := ReplaceAll(field[i + 1..], "+", " ");
        assert |value| > 0 by {
          var raw := field[i + 1..];
          assert Split(raw, "+") != [""];
          SplitNonEmpty(raw, "+");
        }
        Some((ReplaceAll(field[..i], "+", " "), value))
      else None
  }

  /** Joining pieces that are not all empty gives a non-empty string. */
  lemma {:induction false} SplitNonEmpty(s: string, sep: string)
    requires |sep| > 0 && |s| > 0
    ensures |Join(Split(s, sep), " ")| > 0
  {
    JoinKeepsNonEmpty(Split(s, sep), sep, " ");
  }

  /** If joining with `sep` gives a non-empty string, so does joining with a non-empty `rep`. */
  lemma {:induction false} JoinKeepsNonEmpty(parts: seq<string>, sep: string, rep: string)
    requires |Join(parts, sep)| > 0 && |rep| > 0
    ensures |Join(parts, rep)| > 0
  {
    if |parts| > 1 {
      assert |Join(parts, rep)| >= |rep|;
    }
  }

  /** `parse_qsl(data)`: the name/value pairs of the fields, in order. */
  function ParseQsl(data: string): (pairs: seq<(string, string)>)
    ensures forall k :: 0 <= k < |pairs| ==> |pairs[k].1| > 0
  {
    Pairs(Split(data, "&"))
  }

  function Pairs(fields: seq<string>): (pairs: seq<(string, string)>)
    ensures |pairs| <= |fields|
    ensures forall k :: 0 <= k < |pairs| ==> |pairs[k].1| > 0
  {
    if fields == [] then []
    else
      var rest := Pairs(fields[1..]);
      match FieldPair(fields[0])
      case None => rest
      case Some(p) => [p] + rest
  }

  /** `dict(pairs)`: a later pair for the same name overrides an earlier one. */
  function ToDict(pairs: seq<(string, string)>): (d: map<string, string>)
    ensures d.Keys == set k | 0 <= k < |pairs| :: pairs[k].0
    ensures forall name :: name in d ==> exists k :: 0 <= k < |pairs| && pairs[k] == (name, d[name])
  {
    if pairs == [] then map[]
    else
      var last := pairs[|pairs| - 1];
      var d := ToDict(pairs[..|pairs| - 1])[last.0 := last.1];
      assert forall k :: 0 <= k < |pairs| - 1 ==> pairs[..|pairs| - 1][k] == pairs[k];
      d
  }

  /** The last pair with a given name decides that name's value. */
  lemma {:induction false} ToDictLastWins(pairs: seq<(string, string)>, k: nat)
    requires k < |pairs|
    requires forall j :: k < j < |pairs| ==> pairs[j].0 != pairs[k].0
    ensures pairs[k].0 in ToDict(pairs) && ToDict(pairs)[pairs[k].0] == pairs[k].1
    decreases |pairs|
  {
    if k < |pairs| - 1 {
      var prefix := pairs[..|pairs| - 1];
      assert prefix[k] == pairs[k];
      ToDictLastWins(prefix, k);
    }
  }

  /** The postback's data as the view sees it. */
  function BackData(data: string): (d: map<string, string>)
    ensures forall name :: name in d ==> |d[name]| > 0
  {
    ToDict(ParseQsl(data))
  }

  /* ---------------- Command selection (callback) ---------------- */

  datatype Command =
    | ShowUsage
    | SetEnglish
    | SetJapanese
    | OtherLanguages
    | ShowSettings
    | Translate(text: string)

  /** The exact text that selects a command. */
  function Keyword(c: Command): (kw: string)
    requires !c.Translate?
  {
    match c
    case ShowUsage => "@使用說明"
    case SetEnglish => "@英文"
    case SetJapanese => "@日文"
    case OtherLanguages => "@其他語文"
    case ShowSettings => "@顯示設定"
  }

  const Keywords: set<string> := {"@使用說明", "@英文", "@日文", "@其他語文", "@顯示設定"}

  /** The if/elif chain on `mtext`: an exact keyword, or else a translation request. */
  function CommandOf(mtext: string): (c: Command)
    ensures c.Translate? <==> mtext !in Keywords
    ensures c.Translate? ==> c.text == mtext
    ensures !c.Translate? ==> Keyword(c) == mtext
  {
    if mtext == "@使用說明" then ShowUsage
    else if mtext == "@英文" then SetEnglish
    else if mtext == "@日文" then SetJapanese
    else if mtext == "@其他語文" then OtherLanguages
    else if mtext == "@顯示設定" then ShowSettings
    else Translate(mtext)
  }

  /* ---------------- Reply texts ---------------- */

  const UsageText: string :=
    "1. 本應用程式可以將中文翻譯成多種語言。\n" +
    "2. 預設翻譯語言為「英文」，預設發音為「關閉」。\n" +
    "3. 按下「翻譯成英文」、「翻譯成日文」或「其他語言」來設定目標語言。\n" +
    "4. 按下「顯示設定」以顯示當前翻譯語言以及是否要朗讀翻譯的文本。\n" +
    "5. 輸入中文句子以進行翻譯。"

  /** The start of every confirmation that a language was chosen. */
  const ChosenPrefix: string := "已設定翻譯語言為"

  /** setLang's confirmation text; it names English and Japanese as showConfig does. */
  function SetLangText(language: Language): (text: string)
    ensures ChosenPrefix <= text
    ensures language == "en" || language == "ja" ==> text == ChosenPrefix + DisplayName(language)
  {
    if language == "en" then ChosenPrefix + "英文"
    else if language == "ja" then ChosenPrefix + "日文"
    else ChosenPrefix + " " + language
  }

  /** showConfig's table of display names. */
  const LanguageNames: map<Language, string> := map[
    "en" := "英文", "ja" := "日文", "fr" := "法文", "de" := "德文",
    "es" := "西班牙文", "ko" := "韓文", "th" := "泰文"]

  /** `language_names.get(lang, lang)` in showConfig. */
  function DisplayName(lang: Language): (name: string)
    ensures name == lang <==> lang !in LanguageNames
    ensures lang in LanguageNames ==> name == LanguageNames[lang]
  {
    if lang in LanguageNames then LanguageNames[lang] else lang
  }

  const ConfigPrefix: string := "目前設定：\n翻譯語言："

  /**
   * showConfig's text. For a language chosen by command or from the menu it
   * names the language exactly as the confirmation of that choice did.
   */
  function ConfigText(lang: Language): (text: string)
    ensures ConfigPrefix <= text
    ensures lang == "en" || lang == "ja" ==> text[|ConfigPrefix|..] == SetLangText(lang)[|ChosenPrefix|..]
    ensures lang in PostbackNames ==> text[|ConfigPrefix|..] == LangChosenText(lang)[|ChosenPrefix|..]
  {
    var text := ConfigPrefix + DisplayName(lang);
    assert text[|ConfigPrefix|..] == DisplayName(lang);
    text
  }

  /** The five languages offered by setElselang, in menu order. */
  const OtherCodes: seq<Language> := ["fr", "de", "es", "ko", "th"]

  /** sendData's table of display names. */
  const PostbackNames: map<Language, string> := map[
    "fr" := "法文", "de" := "德文", "es" := "西班牙文", "ko" := "韓文", "th" := "泰文"]

  /**
   * sendData's confirmation text. Its table lacks English and Japanese, so
   * for those two codes it shows the code where showConfig shows the name.
   */
  function LangChosenText(language: Language): (text: string)
    ensures ChosenPrefix <= text
  {
    ChosenPrefix + (if language in PostbackNames then PostbackNames[language] else language)
  }

  /** sendData names the menu languages and unknown codes as showConfig does, and English and Japanese by their codes. */
  lemma LangChosenTextNames(language: Language)
    ensures language in PostbackNames || language !in LanguageNames ==>
      LangChosenText(language) == ChosenPrefix + DisplayName(language)
    ensures language == "en" || language == "ja" ==> LangChosenText(language) == ChosenPrefix + language
  {
  }

  /** setElselang's quick-reply menu. */
  const OtherLanguageMenu: Payload := QuickReplyText("請選擇要翻譯的語言：", [
    PostbackOption("法文", "lang=fr"),
    PostbackOption("德文", "lang=de"),
    PostbackOption("西班牙文", "lang=es"),
    PostbackOption("韓文", "lang=ko"),
    PostbackOption("泰文", "lang=th")])

  /* ---------------- Effect of one event and of one request ---------------- */

  /** readData: the stored language, storing the default first for a user with no entry. */
  function AfterReadData(m: Settings, userId: UserId): (r: (Settings, Language))
    ensures userId in r.0 && r.0[userId] == r.1
    ensures userId in m ==> r.0 == m
    ensures userId !in m ==> r.1 == DefaultLanguage
    ensures r.0.Keys == m.Keys + {userId}
    ensures forall u :: u != userId ==> Lookup(r.0, u) == Lookup(m, u)
  {
    if userId in m then (m, m[userId]) else (m[userId := DefaultLanguage], DefaultLanguage)
  }

  /** What handling one event does: the store after it, the replies sent, and whether it raised. */
  datatype Outcome = Outcome(settings: Settings, replies: seq<Reply>, crashed: bool)

  function HandleEvent(m: Settings, e: Event): (r: Outcome)
    ensures m.Keys <= r.settings.Keys
    ensures |r.replies| <= 1
    ensures r.crashed <==> e.MessageEvent? && e.message.NonTextMessage?
    ensures r.crashed ==> r.replies == []
  {
    match e
    case MessageEvent(token, userId, message) =>
      var (m1, lang) := AfterReadData(m, userId);
      if message.NonTextMessage? then
        Outcome(m1, [], true)  // `event.message.text` raises for a non-text message
      else
        (match CommandOf(message.text)
        case ShowUsage => Outcome(m1, [Reply(token, Text(UsageText))], false)
        case SetEnglish => Outcome(m1[userId := "en"], [Reply(token, Text(SetLangText("en")))], false)
        case SetJapanese => Outcome(m1[userId := "ja"], [Reply(token, Text(SetLangText("ja")))], false)
        case OtherLanguages => Outcome(m1, [Reply(token, OtherLanguageMenu)], false)
        case ShowSettings => Outcome(m1, [Reply(token, Text(ConfigText(lang)))], false)
        case Translate(text) => Outcome(m1, [Reply(token, Translation(lang, "zh", text))], false))
    case PostbackEvent(token, userId, data) =>
      var (m1, _) := AfterReadData(m, userId);
      var backdata := BackData(data);
      if "lang" in backdata then
        Outcome(m1[userId := backdata["lang"]], [Reply(token, Text(LangChosenText(backdata["lang"])))], false)
      else
        Outcome(m1, [], false)
    case OtherEvent(_) => Outcome(m, [], false)
  }

  /** The events handled in order; the first one that raises ends the loop. */
  function HandleEvents(m: Settings, events: seq<Event>): (r: Outcome)
    ensures |r.replies| <= |events|
    ensures r.crashed ==> exists j :: 0 <= j < |events| && events[j].MessageEvent? && events[j].message.NonTextMessage?
    decreases |events|
  {
    if events == [] then Outcome(m, [], false)
    else
      var prev := HandleEvents(m, events[..|events| - 1]);
      if prev.crashed then prev
      else
        var last := HandleEvent(prev.settings, events[|events| - 1]);
        Outcome(last.settings, prev.replies + last.replies, last.crashed)
  }

  datatype Response = Response(status: int, replies: seq<Reply>, settings: Settings)

  /** The view as a whole, from the request and the store before it to the response and the store after it. */
  function HandleRequest(m: Settings, req: Request): (r: Response)
    ensures r.status != OK ==> r.settings == m || req.parse.Parsed?
    ensures !req.isPost ==> r == Response(BadRequest, [], m)
    ensures req.isPost && req.hasSignatureHeader && req.parse.InvalidSignature? ==> r == Response(Forbidden, [], m)
    ensures req.isPost && req.hasSignatureHeader && req.parse.ApiError? ==> r == Response(BadRequest, [], m)
  {
    if !req.isPost then Response(BadRequest, [], m)
    else if !req.hasSignatureHeader then Response(ServerError, [], m)  // `request.META[...]` raises KeyError
    else
      match req.parse
      case InvalidSignature => Response(Forbidden, [], m)
      case ApiError => Response(BadRequest, [], m)
      case Malformed => Response(ServerError, [], m)
      case Parsed(events) =>
        var o := HandleEvents(m, events);
        Response(if o.crashed then ServerError else OK, o.replies, o.settings)
  }

  /* ---------------- The view's code, step by step over the shared store ---------------- */

  /** readData: reads the sender's language, storing the default for a user with no entry. */
  method ReadData(store: SettingsStore, userId: UserId) returns (lang: Language)
    modifies store
    ensures (store.userSettings, lang) == AfterReadData(old(store.userSettings), userId)
  {
    var stored := store.Get(userId);
    if stored.None? {
      store.Set(userId, DefaultLanguage);
      lang := DefaultLanguage;
    } else {
      lang := stored.value;
    }
  }

  /** setLang: stores the chosen language and confirms it. */
  method SetLang(store: SettingsStore, token: string, language: Language, userId: UserId) returns (reply: Reply)
    modifies store
    ensures store.userSettings == old(store.userSettings)[userId := language]
    ensures reply == Reply(token, Text(SetLangText(language)))
  {
    store.Set(userId, language);
    reply := Reply(token, Text(SetLangText(language)));
  }

  /** sendData: a `lang` field stores that language and confirms it; anything else is ignored. */
  method SendData(store: SettingsStore, token: string, backdata: map<string, string>, userId: UserId)
    returns (replies: seq<Reply>)
    modifies store
    ensures "lang" in backdata ==> store.userSettings == old(store.userSettings)[userId := backdata["lang"]]
    ensures "lang" in backdata ==> replies == [Reply(token, Text(LangChosenText(backdata["lang"])))]
    ensures "lang" !in backdata ==> store.userSettings == old(store.userSettings) && replies == []
  {
    replies := [];
    if "lang" in backdata {
      var language := backdata["lang"];
      store.Set(userId, language);
      replies := [Reply(token, Text(LangChosenText(language)))];
    }
  }

  /** The body of the loop in callback, for one event. */
  method Dispatch(store: SettingsStore, e: Event) returns (replies: seq<Reply>, crashed: bool)
    modifies store
    ensures Outcome(store.userSettings, replies, crashed) == HandleEvent(old(store.userSettings), e)
  {
    replies, crashed := [], false;
    match e
    case MessageEvent(token, userId, message) =>
      var lang := ReadData(store, userId);
      if message.NonTextMessage? {
        crashed := true;
        return;
      }
      var mtext := message.text;
      if mtext == "@使用說明" {
        replies := [Reply(token, Text(UsageText))];
      } else if mtext == "@英文" {
        var r := SetLang(store, token, "en", userId);
        replies := [r];
      } else if mtext == "@日文" {
        var r := SetLang(store, token, "ja", userId);
        replies := [r];
      } else if mtext == "@其他語文" {
        replies := [Reply(token, OtherLanguageMenu)];
      } else if mtext == "@顯示設定" {
        replies := [Reply(token, Text(ConfigText(lang)))];
      } else {
        replies := [Reply(token, Translation(lang, "zh", mtext))];
      }
    case PostbackEvent(token, userId, data) =>
      var _ := ReadData(store, userId);
      replies := SendData(store, token, BackData(data), userId);
    case OtherEvent(_) =>
  }

  /** The loop of callback over the parsed events; it ends early when an event raises. */
  method HandleAll(store: SettingsStore, events: seq<Event>) returns (replies: seq<Reply>, crashed: bool)
    modifies store
    ensures Outcome(store.userSettings, replies, crashed) == HandleEvents(old(store.userSettings), events)
  {
    replies, crashed := [], false;
    var i := 0;
    while i < |events|
      invariant 0 <= i <= |events|
      invariant HandleEvents(old(store.userSettings), events[..i]) == Outcome(store.userSettings, replies, false)
    {
      assert events[..i + 1][..i] == events[..i];
      var sent, raised := Dispatch(store, events[i]);
      replies := replies + sent;
      if raised {
        StopsAtCrash(old(store.userSettings), events, i + 1);
        crashed := true;
        return;
      }
      i := i + 1;
    }
    assert events[..i] == events;
  }

  /** callback: the webhook view, handling the parsed events in order. */
  method Callback(store: SettingsStore, req: Request) returns (status: int, replies: seq<Reply>)
    modifies store
    ensures Response(status, replies, store.userSettings) == HandleRequest(old(store.userSettings), req)
  {
    replies := [];
    if !req.isPost {
      return BadRequest, replies;
    }
    if !req.hasSignatureHeader {
      return ServerError, replies;
    }
    match req.parse
    case InvalidSignature => return Forbidden, replies;
    case ApiError => return BadRequest, replies;
    case Malformed => return ServerError, replies;
    case Parsed(events) =>
      var crashed;
      replies, crashed := HandleAll(store, events);
      status := if crashed then ServerError else OK;
  }

  /* ---------------- Properties ---------------- */

  /** Once an event has raised, the later events are not handled. */
  lemma {:induction false} StopsAtCrash(m: Settings, events: seq<Event>, n: nat)
    requires n <= |events| && HandleEvents(m, events[..n]).crashed
    ensures HandleEvents(m, events) == HandleEvents(m, events[..n])
    decreases |events|
  {
    if n < |events| {
      var shorter := events[..|events| - 1];
      assert shorter[..n] == events[..n];
      StopsAtCrash(m, shorter, n);
    } else {
      assert events[..n] == events;
    }
  }

  /** An event changes no entry but its sender's. */
  lemma HandleEventFrame(m: Settings, e: Event, u: UserId)
    requires !e.OtherEvent? ==> u != e.userId
    ensures Lookup(HandleEvent(m, e).settings, u) == Lookup(m, u)
  {
  }

  /**
   * Apart from readData's default, only `@英文`, `@日文` and a postback
   * with a `lang` field change the store.
   */
  lemma OnlySelectionsChangeLanguage(m: Settings, e: Event)
    requires e.MessageEvent? ==> !(e.message.TextMessage? && e.message.text in {"@英文", "@日文"})
    requires e.PostbackEvent? ==> "lang" !in BackData(e.data)
    ensures HandleEvent(m, e).settings == if e.OtherEvent? then m else AfterReadData(m, e.userId).0
  {
  }

  /** A postback without a `lang` field changes nothing beyond readData and sends no reply. */
  lemma PostbackWithoutLang(m: Settings, token: string, userId: UserId, data: string)
    requires "lang" !in BackData(data)
    ensures HandleEvent(m, PostbackEvent(token, userId, data)) == Outcome(AfterReadData(m, userId).0, [], false)
  {
  }

  /** No entry is ever removed, whatever the batch and wherever it stops. */
  lemma {:induction false} HandleEventsKeys(m: Settings, events: seq<Event>)
    ensures m.Keys <= HandleEvents(m, events).settings.Keys
  {
    if events != [] {
      HandleEventsKeys(m, events[..|events| - 1]);
    }
  }

  predicate NoEmptyLanguage(m: Settings) {
    forall u :: u in m ==> |m[u]| > 0
  }

  /**
   * A stored language is never the empty string: the default and the two
   * commands store non-empty codes, and `parse_qsl` drops empty values.
   */
  lemma {:induction false} HandleEventsKeepLanguagesNonEmpty(m: Settings, events: seq<Event>)
    requires NoEmptyLanguage(m)
    ensures NoEmptyLanguage(HandleEvents(m, events).settings)
  {
    if events != [] {
      var prev := HandleEvents(m, events[..|events| - 1]);
      HandleEventsKeepLanguagesNonEmpty(m, events[..|events| - 1]);
      if !prev.crashed {
        HandleEventKeepsLanguagesNonEmpty(prev.settings, events[|events| - 1]);
      }
    }
  }

  lemma HandleEventKeepsLanguagesNonEmpty(m: Settings, e: Event)
    requires NoEmptyLanguage(m)
    ensures NoEmptyLanguage(HandleEvent(m, e).settings)
  {
    match e
    case MessageEvent(token, userId, message) =>
      MessageKeepsLanguagesNonEmpty(m, token, userId, message);
    case PostbackEvent(token, userId, data) =>
      PostbackKeepsLanguagesNonEmpty(m, token, userId, data);
    case OtherEvent(_) =>
  }

  lemma MessageKeepsLanguagesNonEmpty(m: Settings, token: string, userId: UserId, message: Message)
    requires NoEmptyLanguage(m)
    ensures NoEmptyLanguage(HandleEvent(m, MessageEvent(token, userId, message)).settings)
  {
    MessageSettings(m, token, userId, message);
    ReadDataKeepsLanguagesNonEmpty(m, userId);
  }

  /** A message changes the store as readData does, then stores `en` or `ja` at most. */
  lemma MessageSettings(m: Settings, token: string, userId: UserId, message: Message)
    ensures var m1, s := AfterReadData(m, userId).0, HandleEvent(m, MessageEvent(token, userId, message)).settings;
      s == m1 || s == m1[userId := "en"] || s == m1[userId := "ja"]
  {
  }

  lemma PostbackKeepsLanguagesNonEmpty(m: Settings, token: string, userId: UserId, data: string)
    requires NoEmptyLanguage(m)
    ensures NoEmptyLanguage(HandleEvent(m, PostbackEvent(token, userId, data)).settings)
  {
    PostbackSettings(m, token, userId, data);
    ReadDataKeepsLanguagesNonEmpty(m, userId);
  }

  /** A postback changes the store as readData does, then stores the `lang` value if there is one. */
  lemma PostbackSettings(m: Settings, token: string, userId: UserId, data: string)
    ensures var m1, backdata := AfterReadData(m, userId).0, BackData(data);
      HandleEvent(m, PostbackEvent(token, userId, data)).settings ==
        if "lang" in backdata then m1[userId := backdata["lang"]] else m1
  {
  }

  lemma ReadDataKeepsLanguagesNonEmpty(m: Settings, userId: UserId)
    requires NoEmptyLanguage(m)
    ensures NoEmptyLanguage(AfterReadData(m, userId).0)
  {
  }

  /** The display names of showConfig are distinct, so a name identifies its code. */
  lemma DisplayNamesDistinct(a: Language, b: Language)
    requires a in LanguageNames && b in LanguageNames && DisplayName(a) == DisplayName(b)
    ensures a == b
  {
  }

  /**
   * Choosing the k-th entry of the other-language menu stores that code for
   * the sender and confirms with the same name the button showed.
   */
  lemma MenuChoiceSetsLanguage(m: Settings, token: string, userId: UserId, k: nat)
    requires k < |OtherCodes|
    ensures |OtherLanguageMenu.options| == |OtherCodes|
    ensures OtherLanguageMenu.options[k].data == "lang=" + OtherCodes[k]
    ensures HandleEvent(m, PostbackEvent(token, userId, OtherLanguageMenu.options[k].data)) ==
      Outcome(AfterReadData(m, userId).0[userId := OtherCodes[k]],
              [Reply(token, Text("已設定翻譯語言為" + OtherLanguageMenu.options[k].buttonLabel))], false)
    ensures OtherLanguageMenu.options[k].buttonLabel == DisplayName(OtherCodes[k])
  {
    var code, option := OtherCodes[k], OtherLanguageMenu.options[k];
    assert option.data == "lang=" + code && option.buttonLabel == PostbackNames[code] by {
      if k == 0 {} else if k == 1 {} else if k == 2 {} else if k == 3 {} else {}
    }
    assert |code| > 0 && '&' !in code && '+' !in code by {
      if k == 0 {} else if k == 1 {} else if k == 2 {} else if k == 3 {} else {}
    }
    LangPostback(m, token, userId, code);
  }

  /** A postback carrying `lang=<code>` stores the code for its sender and confirms it. */
  lemma LangPostback(m: Settings, token: string, userId: UserId, code: string)
    requires |code| > 0 && '&' !in code && '+' !in code
    ensures HandleEvent(m, PostbackEvent(token, userId, "lang=" + code)) ==
      Outcome(AfterReadData(m, userId).0[userId := code], [Reply(token, Text(LangChosenText(code)))], false)
  {
    LangDataRoundTrip(code);
  }

  /** A `lang=<code>` postback reads back as the single field `lang` with that code. */
  lemma LangDataRoundTrip(code: string)
    requires |code| > 0 && '&' !in code && '+' !in code
    ensures BackData("lang=" + code) == map["lang" := code]
  {
    var data := "lang=" + code;
    assert '&' !in data;
    SplitLacksHead(data, "&");
    FirstOccurrenceAfter("lang", "=", code);
    assert "lang" + "=" + code == data;
    assert data[5..] == code && data[..4] == "lang";
    LacksHead(code, "+");
    LacksHead("lang", "+");
    assert FieldPair(data) == Some(("lang", code));
    assert ParseQsl(data) == [("lang", code)];
  }
}
