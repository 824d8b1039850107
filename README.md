# ChatBotCourse core, modelled in Dafny

ChatBotCourse is a set of small Django projects built around chat bots on a
messaging platform. Each bot exposes one webhook view. The view checks the
request, has the platform SDK verify and parse the signed body into events,
and answers each event with a reply. This project models the logic under that
glue:

- **Translate bot** (`translate_bot.dfy`, `variable_settings.dfy`). There is a
  per-user language store: a map from user id to language code, with `get`,
  `set`, `clear` and `get_all`. The bot reads it with a default of `en` on a
  miss. Five `@` commands show usage, set English or Japanese, offer a
  five-language quick-reply menu, or show the current setting. Any other text
  goes to the translation service. A `lang=<code>` postback, read through
  `dict(parse_qsl(...))`, stores a language.
- **Invoice bot** (`invoice_bot.dfy`). The bot classifies commands: the current
  period, the previous periods, a prompt, three digits to check, or a canned
  chat answer. The chat answer is chosen by greeting/invoice keywords. The
  winning-number feed text is cleaned (`<p>` removed, `</p>` turned into line
  breaks) and split into prizes. A three-digit check is matched in priority
  order (special, grand, first prizes).
- **Test bot** (`test_bot.dfy`). Six commands reply with fixed text, image or
  sticker payloads; every other text is echoed.
- **Drink catalogue** (`drinks.dfy`). The `Drink` record, its category choices,
  default and length limits, and its string form. The import command clears the
  table and inserts nine seed drinks.
- **Student loader** (`students.dfy`). Each listed student is inserted unless a
  row with the same name exists. The record built has a fixed birthday, an email
  derived from the student number, and an empty phone and address.

Shared pieces:

- `messaging.dfy` holds the SDK surface: events, the parse outcome, payloads,
  replies and HTTP statuses.
- `text.dfy` holds the Python string operations the views use: `in`/`find`,
  `split`, `join`, `replace`, `s[-n:]`, `s[:-1]`, `isdigit` and `lower`.
- `option.dfy` holds `Option`.

Imperative code stays imperative:

- The settings store is a class whose methods update its map.
- Each webhook view is a method looping over the events. Each is proved equal
  to a function over the store or over the events, and the properties are
  lemmas about that function.
- `showOld` accumulates its message in a loop.
- The drink and student tables are classes whose load methods insert row by row.

Signature checking, JSON parsing and reply delivery are opaque. A request
carries the outcome the SDK's parser produces: events, an invalid signature,
an API error, or another exception. Replies are values. The translation
service's answer is the value `Translation(to, from, text)`. The invoice bot's
feed is an input (`Feed`): a failed fetch, or the items with their child texts.

Where the code is read differently from its comments, the model follows the code:

- The translate bot reads the signature header with `META[...]`, so a request
  without it ends in a server error.
- The translate bot lets exceptions from the parser other than the two SDK
  errors, and a non-text message (which has no `.text`), escape as a server
  error. That stops the loop over the remaining events.
- The invoice bot's view accepts only POST through a decorator (405 otherwise).
  It answers 400 for both SDK errors.
- `showOld` prints a missing title as `None` (f-string formatting).
  `showCurrent` fails on a missing title and answers with its error text.

## Model

| member | source | states |
|---|---|---|
| `VariableSettings.Lookup` | linebotTranslate/variable_settings.py:18 | `dict.get`: a value exactly for the users with an entry, and then the stored one |
| `VariableSettings.SettingsStore.constructor` | linebotTranslate/variable_settings.py:6 | the store starts empty |
| `VariableSettings.SettingsStore.Get` | linebotTranslate/variable_settings.py:8-18 | `None` for a user never set, otherwise the stored language |
| `VariableSettings.SettingsStore.Set` | linebotTranslate/variable_settings.py:20-28 | afterwards `get` gives the new language, every other user's entry is unchanged, and the users with an entry grow by this user only |
| `VariableSettings.SettingsStore.Clear` | linebotTranslate/variable_settings.py:30-38 | afterwards `get` gives `None`, other entries are unchanged, and clearing an absent user changes nothing |
| `VariableSettings.SettingsStore.GetAll` | linebotTranslate/variable_settings.py:40-47 | the copy has the same users and the same languages; as a value it shares nothing with the store |
| `VariableSettings.EditCopy` | linebotTranslate/variable_settings.py:40-47 | writing into the copy from `get_all()` changes that one entry of the copy and leaves the store as it was |
| `TranslateBot.FieldPair` | linebotTranslate/translateapi/views.py:63 | a field of the postback data gives a pair only with a non-empty value |
| `TranslateBot.ParseQsl` | linebotTranslate/translateapi/views.py:63 | every pair `parse_qsl` keeps has a non-empty value |
| `TranslateBot.Pairs` | linebotTranslate/translateapi/views.py:63 | at most one pair per field, each with a non-empty value |
| `TranslateBot.ToDict` | linebotTranslate/translateapi/views.py:63 | `dict(pairs)` has exactly the names of the pairs as keys, and each entry comes from one of the pairs |
| `TranslateBot.ToDictLastWins` | linebotTranslate/translateapi/views.py:63 | when a name occurs in several pairs, the last of them gives its value |
| `TranslateBot.BackData` | linebotTranslate/translateapi/views.py:63 | no value of the postback dictionary is empty |
| `TranslateBot.LangDataRoundTrip` | linebotTranslate/translateapi/views.py:63 | the data `lang=<code>` reads back as the dictionary holding only `lang` mapped to that code |
| `TranslateBot.CommandOf` | linebotTranslate/translateapi/views.py:43-59 | each of the five keywords selects its own command by exact match; every other text is translated as it is |
| `TranslateBot.DisplayName` | linebotTranslate/translateapi/views.py:161-172 | each of the seven known codes maps to its own name in the table; any other code maps to itself, and only such codes do |
| `TranslateBot.DisplayNamesDistinct` | linebotTranslate/translateapi/views.py:161-169 | no two known codes share a display name |
| `TranslateBot.SetLangText` | linebotTranslate/translateapi/views.py:116-122 | every confirmation starts `已設定翻譯語言為`; for `en` and `ja` it names the language as showConfig's table does |
| `TranslateBot.ConfigText` | linebotTranslate/translateapi/views.py:157-175 | the settings text names a language chosen by command or from the menu exactly as the confirmation of that choice named it |
| `TranslateBot.LangChosenText` | linebotTranslate/translateapi/views.py:217-230 | every confirmation starts `已設定翻譯語言為` |
| `TranslateBot.LangChosenTextNames` | linebotTranslate/translateapi/views.py:217-230 | the confirmation names the five menu languages and unknown codes as showConfig does, but shows `en` and `ja` as bare codes |
| `TranslateBot.AfterReadData` | linebotTranslate/translateapi/views.py:72-85 | afterwards the user has an entry equal to the returned language: the stored one, unchanged, if there was one, otherwise `en`; no other user is affected |
| `TranslateBot.HandleEvent` | linebotTranslate/translateapi/views.py:38-64 | one event never removes a store entry, sends at most one reply, and raises exactly for a non-text message, which then gets no reply |
| `TranslateBot.HandleEvents` | linebotTranslate/translateapi/views.py:37-64 | a batch sends at most one reply per event, and ends in an error only if it holds a non-text message |
| `TranslateBot.HandleRequest` | linebotTranslate/translateapi/views.py:19-69 | a non-POST request gets 400; with the signature header, an invalid signature gets 403 and an API error 400; none of these touches the store or replies |
| `TranslateBot.ReadData` | linebotTranslate/translateapi/views.py:72-85 | the store and the language read are those of `AfterReadData` |
| `TranslateBot.SetLang` | linebotTranslate/translateapi/views.py:110-131 | stores the language for the user only and replies with the confirmation for that language |
| `TranslateBot.SendData` | linebotTranslate/translateapi/views.py:207-237 | with a `lang` entry, stores it for the user and confirms it; without one, changes nothing and sends no reply |
| `TranslateBot.Dispatch` | linebotTranslate/translateapi/views.py:37-64 | handling one event changes the store and replies exactly as `HandleEvent` says |
| `TranslateBot.Callback` | linebotTranslate/translateapi/views.py:19-69 | the status, the replies and the new store are those of `HandleRequest` on the store before the request |
| `TranslateBot.StopsAtCrash` | linebotTranslate/translateapi/views.py:37-40 | once an event raises, the events after it are not handled |
| `TranslateBot.HandleEventFrame` | linebotTranslate/translateapi/views.py:37-64 | an event changes no entry but its sender's |
| `TranslateBot.OnlySelectionsChangeLanguage` | linebotTranslate/translateapi/views.py:37-64 | apart from the `en` default, only `@英文`, `@日文` and a postback with `lang` change the store |
| `TranslateBot.PostbackWithoutLang` | linebotTranslate/translateapi/views.py:207-232 | a postback without `lang` changes nothing beyond the default and sends no reply |
| `TranslateBot.HandleEventsKeys` | linebotTranslate/translateapi/views.py:72-85 | no request removes a user's entry |
| `TranslateBot.HandleEventKeepsLanguagesNonEmpty` | linebotTranslate/translateapi/views.py:61-64 | one event never stores an empty language |
| `TranslateBot.MessageSettings` | linebotTranslate/translateapi/views.py:38-59 | a message event leaves the store as readData left it, or with `en` or `ja` stored for the sender |
| `TranslateBot.PostbackSettings` | linebotTranslate/translateapi/views.py:61-64 | a postback leaves the store as readData left it, with the `lang` value stored for the sender when there is one |
| `TranslateBot.HandleEventsKeepLanguagesNonEmpty` | linebotTranslate/translateapi/views.py:37-64 | a whole batch of events never stores an empty language |
| `TranslateBot.HandleAll` | linebotTranslate/translateapi/views.py:37-64 | handling the events one by one in a loop leaves the store, the replies and the crash flag that `HandleEvents` describes |
| `TranslateBot.LangPostback` | linebotTranslate/translateapi/views.py:207-232 | a postback `lang=<code>` stores the code for the user and confirms it with sendData's name for the code |
| `TranslateBot.MenuChoiceSetsLanguage` | linebotTranslate/translateapi/views.py:137-143 | the menu has five options with data `lang=fr`, `de`, `es`, `ko`, `th` in order; choosing one stores that code and confirms with the label the button showed |
| `InvoiceBot.CurrentMessage` | linebotinvoice/linebotinvoice/views.py:106-134 | a failed fetch or a missing item, title or text gives the error reply; otherwise the reply is the title and a line break followed by the cleaned text minus its final character, or by nothing when the cleaned text is empty |
| `InvoiceBot.CleanText` | linebotinvoice/linebotinvoice/views.py:123 | a text with neither `<p>` nor `</p>` is left as it is |
| `InvoiceBot.OldMessage` | linebotinvoice/linebotinvoice/views.py:136-172 | a failed fetch or a missing item or text gives the error reply; otherwise it is the two items' blocks minus the final character |
| `InvoiceBot.Render` | linebotinvoice/linebotinvoice/views.py:160 | a title is shown as itself; a missing title is shown as `None`, the same as the title `None` |
| `InvoiceBot.Block` | linebotinvoice/linebotinvoice/views.py:155-160 | an item yields its block exactly when it has a fourth child with text; the block starts with the shown title and a line break and ends with a line break |
| `InvoiceBot.ShowOld` | linebotinvoice/linebotinvoice/views.py:136-172 | the loop over items 1 and 2 builds `OldMessage` |
| `InvoiceBot.Segments` | linebotinvoice/linebotinvoice/views.py:190-191 | the split always yields at least one segment |
| `InvoiceBot.LastThreeOfEach` | linebotinvoice/linebotinvoice/views.py:197 | one entry per prize, each that prize's `[-3:]` |
| `InvoiceBot.ExtractPrizes` | linebotinvoice/linebotinvoice/views.py:189-197 | extraction succeeds exactly when there are at least three segments |
| `InvoiceBot.MatchPrize` | linebotinvoice/linebotinvoice/views.py:200-207 | special before grand before first prize before no prize, each exactly under its condition |
| `InvoiceBot.MatchText` | linebotinvoice/linebotinvoice/views.py:200-207 | no match reply is the error reply |
| `InvoiceBot.CheckMessage` | linebotinvoice/linebotinvoice/views.py:174-216 | the reply is one of the four match replies or the error reply, and the error reply exactly when the fetch fails, the item or text is missing, or fewer than three segments exist |
| `InvoiceBot.ParagraphsUnopened` | linebotinvoice/linebotinvoice/views.py:190 | removing `<p>` from well-formed text leaves each line followed by `</p>` |
| `InvoiceBot.ClosedSplit` | linebotinvoice/linebotinvoice/views.py:191 | splitting that at `</p>` gives back the lines, then an empty segment |
| `InvoiceBot.ClosedBroken` | linebotinvoice/linebotinvoice/views.py:123 | replacing `</p>` with a line break ends every line with one |
| `InvoiceBot.CleanParagraphs` | linebotinvoice/linebotinvoice/views.py:123 | cleaning well-formed text puts each line on a line of its own |
| `InvoiceBot.CurrentShowsLines` | linebotinvoice/linebotinvoice/views.py:121-126 | on a well-formed feed the current reply is the title, then the winning-number lines joined by line breaks |
| `InvoiceBot.OldShowsTwoPeriods` | linebotinvoice/linebotinvoice/views.py:151-163 | on a well-formed feed the previous-period reply is both periods with a blank line between them, still ending in one line break |
| `InvoiceBot.PrizesOfParagraphs` | linebotinvoice/linebotinvoice/views.py:189-197 | on well-formed text the prizes are the last three characters of lines 1 and 2 and of each `、`-separated first prize on line 3 |
| `InvoiceBot.CheckAgainstParagraphs` | linebotinvoice/linebotinvoice/views.py:182-210 | on a well-formed feed the digit check matches the digits against exactly those prizes |
| `InvoiceBot.CommandOf` | linebotinvoice/linebotinvoice/views.py:70-78 | the three keywords by exact match first, then exactly three digits, then chat |
| `InvoiceBot.ChatKindOf` | linebotinvoice/linebotinvoice/views.py:80-88 | a greeting wins even over an invoice mention; invoice help needs `發票`; the menu otherwise |
| `InvoiceBot.ChatText` | linebotinvoice/linebotinvoice/views.py:80-88 | each canned answer differs from the two error replies and from the request for three digits |
| `InvoiceBot.ChatTextsDistinct` | linebotinvoice/linebotinvoice/views.py:80-88 | the three canned answers are pairwise different |
| `InvoiceBot.ReplyText` | linebotinvoice/linebotinvoice/views.py:70-90 | each keyword gets its command's reply, three digits outside the keywords get the prize check, and any other text the canned answer for its kind |
| `InvoiceBot.RepliesFor` | linebotinvoice/linebotinvoice/views.py:65-90 | at most one reply per event, and none for a batch without text messages |
| `InvoiceBot.HelloInAnyCase` | linebotinvoice/linebotinvoice/views.py:80 | `hello` in any mix of cases, anywhere in the text, is a greeting |
| `InvoiceBot.HandleRequest` | linebotinvoice/linebotinvoice/views.py:38-103 | non-POST gets 405, both SDK errors 400, another exception 500, parsed events 200; only a 200 comes with replies |
| `InvoiceBot.Callback` | linebotinvoice/linebotinvoice/views.py:40-103 | the status and replies of the loop are those of `HandleRequest` |
| `InvoiceBot.EveryTextMessageAnswered` | linebotinvoice/linebotinvoice/views.py:65-90 | every text message of the batch gets its reply |
| `InvoiceBot.OnlyTextMessagesAnswered` | linebotinvoice/linebotinvoice/views.py:65-90 | every reply answers a text message of the batch |
| `TestBot.PayloadFor` | linebottest/testapp/views.py:58-84 | exactly non-command texts are echoed; the image iff `@傳送圖片`, with equal original and preview URLs; the sticker 446/1988 iff `@傳送貼圖`; the greeting and `case 4`..`case 6` for their commands |
| `TestBot.RepliesFor` | linebottest/testapp/views.py:49-87 | at most one reply per event, and none for a batch without text messages |
| `TestBot.HandleRequest` | linebottest/testapp/views.py:24-87 | non-POST gets 400, an invalid signature 403, an API error 400, parsed events 200; only a 200 comes with replies |
| `TestBot.Callback` | linebottest/testapp/views.py:24-87 | the status and replies of the loop are those of `HandleRequest` |
| `TestBot.EveryTextMessageAnswered` | linebottest/testapp/views.py:49-84 | every text message of the batch gets its reply |
| `TestBot.OnlyTextMessagesAnswered` | linebottest/testapp/views.py:49-84 | non-message events and non-text messages get no reply |
| `TestBot.RepliesForAppend` | linebottest/testapp/views.py:49-87 | replies follow event order: a batch's replies are its parts' replies in turn |
| `Drinks.CategoryLabel` | linebottest/testapp/models.py:5-9 | a label exactly for the three choice codes, the one paired with the code |
| `Drinks.CategoryCode` | linebottest/testapp/models.py:5-9 | the choices table read from label to code (the program itself never does this): a code is found only for a label of the table, and it is the code paired with that label |
| `Drinks.CategoryRoundTrip` | linebottest/testapp/models.py:5-9 | in the choices table, code to label to code gives the code back, so a label identifies its code |
| `Drinks.ChoicesDistinct` | linebottest/testapp/models.py:5-9 | no two choices share a code or a label |
| `Drinks.Valid` | linebottest/testapp/models.py:5-14 | a row that meets the field rules has one of the three category codes `tea`, `milk`, `other` |
| `Drinks.ChoicesFitColumn` | linebottest/testapp/models.py:5-12 | every choice fits the 50-character category column |
| `Drinks.NewDrink` | linebottest/testapp/models.py:11-14 | an omitted category is `other` and an omitted image URL blank; such a drink with a name of 1 to 100 characters and a description is valid |
| `Drinks.Str` | linebottest/testapp/models.py:16-17 | the string form of a valid drink is between 1 and 100 characters long |
| `Drinks.SeedsValid` | linebottest/testapp/management/commands/import_drinks.py:13-73 | nine seeds, each meeting the field rules |
| `Drinks.SeedsPerCategory` | linebottest/testapp/management/commands/import_drinks.py:13-73 | three tea, then three milk, then three other |
| `Drinks.SeedNamesDistinct` | linebottest/testapp/management/commands/import_drinks.py:13-73 | no two seeds share a name or a string form |
| `Drinks.DrinkTable.constructor` | linebottest/testapp/models.py:4 | the table starts empty |
| `Drinks.DrinkTable.DeleteAll` | linebottest/testapp/management/commands/import_drinks.py:9 | every row is deleted |
| `Drinks.DrinkTable.Create` | linebottest/testapp/management/commands/import_drinks.py:77 | one row is appended; nothing else changes |
| `Drinks.DrinkTable.ImportDrinks` | linebottest/testapp/management/commands/import_drinks.py:7-79 | whatever was there before, the table then holds exactly the seeds in seed order, all valid, and the reported count is 9 |
| `Drinks.ImportTwice` | linebottest/testapp/management/commands/import_drinks.py:9-77 | a second import leaves the same table as the first |
| `Students.RecordFor` | firstProject/myapp/add_students.py:33-40 | name and sex from the list, birthday 2000-01-01, email the student number followed by `@cycu.edu.tw`, empty phone and address |
| `Students.HasName` | firstProject/myapp/add_students.py:31 | the `exists()` query holds exactly when some row of the table has that name |
| `Students.AfterAdd` | firstProject/myapp/add_students.py:29-43 | the loop never shrinks the table and adds at most one row per listed student |
| `Students.AfterAddKeepsRows` | firstProject/myapp/add_students.py:29-43 | existing rows are never changed or removed; rows are only appended |
| `Students.AfterAddHasAll` | firstProject/myapp/add_students.py:29-43 | every listed name is present afterwards |
| `Students.AddedRowsAreRecords` | firstProject/myapp/add_students.py:31-40 | each added row is the record of a listed student whose name was not in the table before |
| `Students.NothingNewToAdd` | firstProject/myapp/add_students.py:31 | when every listed name is present, nothing is added |
| `Students.AddTwice` | firstProject/myapp/add_students.py:28-43 | a second run inserts nothing |
| `Students.AfterAddConcat` | firstProject/myapp/add_students.py:29 | students are processed in list order |
| `Students.AfterAddKeepsNamesDistinct` | firstProject/myapp/add_students.py:31-40 | a table without duplicate names stays without them |
| `Students.DistinctListAddedWhole` | firstProject/myapp/add_students.py:28-43 | from an empty table, a list with no repeated name is inserted whole, in list order |
| `Students.StudentNamesDistinct` | firstProject/myapp/add_students.py:16-22 | the five listed names are pairwise different |
| `Students.FromEmpty` | firstProject/myapp/add_students.py:16-43 | on an empty table the five listed students are inserted, in list order |
| `Students.StudentTable.constructor` | firstProject/myapp/add_students.py:13 | the table starts empty |
| `Students.StudentTable.Create` | firstProject/myapp/add_students.py:33-40 | one row is appended; nothing else changes |
| `Students.StudentTable.AddStudents` | firstProject/myapp/add_students.py:28-43 | the table afterwards is `AfterAdd` of the table before and the list |
| `Text.IndexOf` | linebotinvoice/linebotinvoice/views.py:80-83 | the first occurrence of the pattern, or `None` exactly when it does not occur |
| `Text.Contains` | linebotinvoice/linebotinvoice/views.py:80-83 | `pat in s` holds exactly when `pat` occurs at some position of `s`, and always for an empty `pat` |
| `Text.Split` | linebotinvoice/linebotinvoice/views.py:191 | at least one piece, and joining the pieces with the separator gives the text back |
| `Text.SplitPiecesLackSeparator` | linebotinvoice/linebotinvoice/views.py:191 | no piece of a split contains the separator |
| `Text.SplitJoin` | linebotinvoice/linebotinvoice/views.py:196 | splitting at a one-character separator undoes joining pieces free of it |
| `Text.ReplaceAll` | linebotinvoice/linebotinvoice/views.py:123 | a text without the pattern is unchanged, and so is any text when the pattern replaces itself |
| `Text.ReplaceAllAfter` | linebotinvoice/linebotinvoice/views.py:123 | the first occurrence is replaced first, and the rest of the text after it |
| `Text.SuffixSlice` | linebotinvoice/linebotinvoice/views.py:194 | `s[-n:]` is a suffix of `s` of length `n`, or all of `s` when shorter |
| `Text.DropLast` | linebotinvoice/linebotinvoice/views.py:126 | `s[:-1]` is `s` minus its last character, and empty for an empty `s` |
| `Text.IsDigits` | linebotinvoice/linebotinvoice/views.py:76 | `isdigit()` holds exactly for a non-empty text whose every character is an ASCII digit `0`-`9`, so it is false on the empty text |
| `Text.Lower` | linebotinvoice/linebotinvoice/views.py:80 | same length, no upper-case ASCII letter remains, each upper-case letter becomes its lower-case partner and every other character is kept |
| `Text.LowerIdempotent` | linebotinvoice/linebotinvoice/views.py:80 | lowering an already lowered text changes nothing |

## Left out

- Signature verification and JSON parsing inside the SDK's parser: a request carries the parser's outcome.
- Reply delivery: `reply_message` is a value. A failed reply is not modelled, nor are the error-reply fallbacks that reuse a reply token after one (for example linebotTranslate/translateapi/views.py:104-106). Their outcome depends on the platform.
- The translation service: its answer is the opaque `Translation(to, from, text)` payload. A failing translation is not modelled, so its error reply is not modelled either.
- Fetching the invoice feed over HTTP and parsing its XML: the feed is an input. One request sees one `Feed` for every fetch it makes, although the code fetches once per command.
- `parse_qsl` percent-decoding: names and values are taken as written, apart from `+` standing for a space.
- `str.isdigit` and `str.lower` are modelled for ASCII only. Other Unicode digits and letter cases are not covered.
- The image, follow and unfollow handlers registered on the invoice bot's webhook handler: the view never dispatches through that handler.
- firstProject's list and greeting views and its admin page, the URL configurations and the invoice bot's test page: template and framework configuration.
- Concurrent requests sharing the translate bot's store: the store is used by one request at a time.
- Logging, `print` output and the management command's styled `stdout` messages.
- Database primary keys and the ORM's `create` validation: `create` inserts a row as given, and `Drinks.Valid` states the field rules separately.
- InvoiceBot.ExtractPrizes: its own contract states only when extraction succeeds. What it extracts is stated for well-formed feed text by `InvoiceBot.PrizesOfParagraphs`.
- InvoiceBot.CurrentMessage: does not state that a successful reply differs from the error text.
