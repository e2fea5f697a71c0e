# Bus-ticket search bot: a Dafny model

This project models the two pieces of logic in a Telegram bot that looks up intercity bus
tickets. The rest of the bot is framework and HTTP glue.

- **The ticket search** (`scraper.py`, module `Scraper`). `find_tickets` takes an origin
  name, a destination name and a date such as `۲۸ شهریور`. It translates Persian digits to
  ASCII, looks both cities up in a fixed table of provider slugs, and builds the date
  string `1404-MM-DD` from a fixed month table. It then turns the provider's answer into
  one message: a header and at most five offer blocks, each price divided by 10 and
  grouped by thousands, or one of the no-tickets or error messages. The model splits it
  in two. `Reply` is a pure specification of the returned text. It is built from `Query`
  (the early exits and the request parameters) and `Answer` (the handling of the
  response). `FindTickets` is the imperative version: it builds the message with `+=` in a
  loop over the first five offers, and it is proved equal to `Reply`.
- **The step-by-step dialogue** (`bot.py`, module `Bot`). `/search` starts a form with
  three states: ORIGIN, DESTINATION and START_DATE. Each answer is written into the user's
  `user_data` dictionary. The last answer runs the search on the three stored values,
  sends the result, clears the dictionary and ends the conversation. `/cancel` clears the
  dictionary from any state. `Next` specifies one update: the routing of the
  `ConversationHandler`, then the chosen handler. `Run` applies a sequence of updates.
  The class `Conversation` holds the state, the `user_data` map and the list of replies
  sent. It has one method per handler, and its `Handle` method is proved to follow `Next`.
- The module `PyStrings` models the Python built-ins the scraper relies on:
  `str.isspace`, `str.split()`, `str.zfill`, `str(int)` and `format(n, ',')`. `Wrappers`
  holds `Option` and `Result`.

The HTTP call is not modelled. Its outcome is a `Response` value: `ConnectionError` (a
`RequestException`), `InvalidJson` (a `ValueError` while decoding), or `Payload(items)`,
where `items` is absent or a list of `Offer` records.

The model follows the code on three points:
- an unknown month and a wrong token count produce the same message (`DateError` still
  records which of the two happened);
- the price is divided as `int(price / 10)`, which truncates toward zero;
- a cancelled or finished dialogue returns to the framework's END state; there is no
  separate "cancelled" state.

## Model

| member | source | states |
|---|---|---|
| `Scraper.TranslateNumeral` | scraper.py:6-8 | the table maps the k-th Persian digit to the k-th ASCII digit; every other character maps to itself |
| `Scraper.ConvertPersianToEnglishNumerals` | scraper.py:4-9 | the result has the input's length, and each position is the input's character put through the digit table |
| `Scraper.NumeralsTranslated` | scraper.py:4-9 | each Persian digit becomes the ASCII digit of the same value; every other character, including the Arabic-Indic digits U+0660..U+0669, is unchanged |
| `Scraper.NoPersianNumeralsLeft` | scraper.py:4-9 | the normalised text contains no Persian digit |
| `Scraper.NumeralsIdempotent` | scraper.py:4-9 | normalising twice gives the same text as normalising once |
| `Scraper.CityCode` | scraper.py:27-28 | `.get(name)` returns a slug exactly for the names in the city table, that slug is the table's entry, and it is never the empty string, which the falsiness test of line 30 relies on |
| `Scraper.CityAliases` | scraper.py:17 | `آران`, `آران و بیدگل` and `بیدگل` all resolve to `aranvabidgol` |
| `Scraper.CityUnknownIffAbsent` | scraper.py:30 | `Falsy` (`not origin_en`): no slug is empty, so the falsiness test of line 30 fails exactly when the name is not a key |
| `Scraper.MonthKeys` | scraper.py:20-24 | the month table's keys are exactly the twelve month names |
| `Scraper.MonthCodes` | scraper.py:20-24 | the i-th month of the calendar (counting from 0) has the code `str(i + 1).zfill(2)` |
| `Scraper.TwoDigitMonth` | scraper.py:20-24 | `str(n).zfill(2)` for a month number n is `0` and the digit of n below 10, or `1` and the digit of n - 10 |
| `Scraper.MonthTableCode` | scraper.py:20-24 | the table's code for the i-th month is the two digits of i + 1 |
| `Scraper.MonthCount` | scraper.py:20-24 | the month table has twelve entries |
| `Scraper.MonthCodeValues` | scraper.py:20-24 | each code is two digits and denotes the month's position in the calendar, 1 to 12 |
| `Scraper.MonthsInjective` | scraper.py:20-24 | two months with the same code are the same month |
| `Scraper.MonthCodeLength` | scraper.py:20-24 | every month code has length two |
| `Scraper.FormatDateAccepts` | scraper.py:36-46 | `FormatDate`: a date is accepted iff the normalised text splits into exactly two tokens and the second is a month name; the error kind says which test failed; an accepted date is `1404-` + month code + `-` + the day token zero-filled to width 2 |
| `Scraper.FormatDateOfTokens` | scraper.py:39-44 | a date whose tokens are (day, month) with a known month gives `1404-<code>-<zfill(day, 2)>` |
| `Scraper.DateLayout` | scraper.py:43-44 | the year stands in characters 0-4, the month code in 5-6, a `-` in 7, and the day from 8 on |
| `Scraper.FormattedDayValue` | scraper.py:44 | a day token of digits keeps its numeric value and becomes at least two digits wide |
| `Scraper.FormatDateIgnoresNumeralForm` | scraper.py:36 | normalising the date before formatting does not change the result |
| `Scraper.ShahrivarExample` | scraper.py:80 | `۲۸ شهریور` and `28 شهریور` both give `1404-06-28` |
| `Scraper.ShahrivarPersian` | scraper.py:80 | `۲۸ شهریور` gives `1404-06-28` |
| `Scraper.ShahrivarAscii` | scraper.py:36-44 | `28 شهریور` gives `1404-06-28` |
| `Scraper.ShahrivarNormalised` | scraper.py:36 | normalising `۲۸ شهریور` gives `28 شهریور`, and `28 شهریور` is unchanged |
| `Scraper.ShahrivarTokens` | scraper.py:39 | `28 شهریور` splits into `28` and `شهریور` |
| `Scraper.ShahrivarCode` | scraper.py:22 | the code of `شهریور` is `06` |
| `Scraper.ShahrivarDay` | scraper.py:44 | `28` zero-filled to width 2 is `28` |
| `Scraper.ShahrivarJoined` | scraper.py:43-44 | year, code `06` and day `28` join to `1404-06-28` |
| `Scraper.ShahrivarAssembled` | scraper.py:42-44 | the date assembled from `شهریور` and `28` is `1404-06-28` |
| `Scraper.DayNotRangeChecked` | scraper.py:39-44 | the day is not range-checked: `40 مرداد` gives `1404-05-40` |
| `Scraper.MordadNormalised` | scraper.py:36 | `40 مرداد` contains no Persian digit to translate |
| `Scraper.MordadTokens` | scraper.py:39 | `40 مرداد` splits into `40` and `مرداد` |
| `Scraper.MordadCode` | scraper.py:22 | the code of `مرداد` is `05` |
| `Scraper.MordadDay` | scraper.py:44 | `40` zero-filled to width 2 is `40` |
| `Scraper.MordadJoined` | scraper.py:43-44 | year, code `05` and day `40` join to `1404-05-40` |
| `Scraper.MordadAssembled` | scraper.py:42-44 | the date assembled from `مرداد` and `40` is `1404-05-40` |
| `Scraper.DisplayPrice` | scraper.py:64 | `int(price / 10)`: the largest multiple of 10 not above a non-negative price, divided by 10; for a negative price, truncation toward zero |
| `Scraper.PriceExamples` | scraper.py:64 | prices 1234500 and 500000 are shown as `123,450` and `50,000` |
| `Scraper.PriceLineExample` | scraper.py:64 | the price line of an offer priced 500000 reads `💰 قیمت: 50,000 تومان` |
| `Scraper.FirstFive` | scraper.py:60 | `available_tickets[:5]` is the prefix of the list of length min(5, n) |
| `Scraper.LongListFiveBlocks` | scraper.py:60-68 | a list of five or more offers is shown as the blocks of its first five, in order |
| `Scraper.BlocksStep` | scraper.py:60-68 | adding the next offer appends exactly its block to the listing |
| `Scraper.BlockEndsWithSeparator` | scraper.py:61-67 | `OfferBlock` (the six lines of `BlockLines`): every offer block ends with the separator line |
| `Scraper.FindTickets` | scraper.py:26-77 | the message built by early returns and the loop over `available_tickets[:5]` equals `Reply`, the pure description of the returned text (its properties are the rows below) |
| `Scraper.UnknownCityFirst` | scraper.py:27-31 | `Query` and `UnknownCityMessage`: if either name is not in the city table, the reply is the unknown-city message naming both inputs, whatever the date and the response |
| `Scraper.BadDateSecond` | scraper.py:33-46 | `Query` and `DateFormatMessage`: with both cities known, a rejected date gives the date-format message, whatever the response |
| `Scraper.QueryCarriesSlugs` | scraper.py:27-49 | `Query`: a request is sent iff both cities are known and the date is accepted; it carries the formatted date and the two slugs |
| `Scraper.AnswerCases` | scraper.py:52-77 | `Answer`, with `Reply`, `ConnectionErrorMessage`, `InvalidResponseMessage`, `NoTicketsMessage` and `ResultsHeader`: a failed connection and an invalid body have fixed messages; an absent or empty list gives the no-tickets message for the date; otherwise the reply is the header followed by exactly min(5, n) blocks of the first offers, in order, each ending with the separator |
| `Scraper.ReplyIgnoresNumeralForm` | scraper.py:36 | a date written with Persian digits gets the same reply as the same date written with ASCII digits |
| `Scraper.SevenOffersFiveBlocks` | scraper.py:60 | seven offers give the header and the blocks of the first five only |
| `Scraper.FiveOfSevenAnswered` | scraper.py:57-69 | the answer to a list of seven offers is the header followed by the blocks of the first five |
| `Scraper.ReplyAnswers` | scraper.py:48-77 | `Reply`: once the request is sent, the reply depends only on the response and the formatted date |
| `Scraper.OneOfferListed` | scraper.py:57-69 | a single offer gives the header and that offer's block |
| `Scraper.TehranBabolExample` | scraper.py:59-68 | from تهران to بابل on `28 شهریور` with one offer, the reply is the header for that route and `1404-06-28`, followed by that offer's block |
| `PyStrings.TokenLength` | scraper.py:39 | the length of the longest whitespace-free prefix |
| `PyStrings.PersianSpacing` | scraper.py:39 | `IsSpace` (`str.isspace`): blank, tab, newline and the no-break space are whitespace; the zero-width space, non-joiner and joiner are not |
| `PyStrings.Split` | scraper.py:39 | `str.split()`: every token is non-empty and contains no whitespace |
| `PyStrings.SplitKeepsNonSpace` | scraper.py:39 | split only drops whitespace: joining the tokens gives the non-whitespace characters in order |
| `PyStrings.SplitAtSpace` | scraper.py:39 | splitting at a whitespace character gives the tokens of the left part followed by those of the right part |
| `PyStrings.SplitWord` | scraper.py:39 | a non-empty string without whitespace is one token |
| `PyStrings.SplitBlank` | scraper.py:39 | a string of whitespace only has no tokens |
| `PyStrings.SplitTwoWords` | scraper.py:39 | two words around one whitespace character split into exactly those two tokens |
| `PyStrings.Zfill` | scraper.py:44 | `str.zfill`: the result has length max(width, len); a string that is long enough is unchanged; otherwise a leading `+` or `-` stays first, the padding after it is all `0`, and the original characters after the sign end the result |
| `PyStrings.ZfillDigits` | scraper.py:44 | zero-filling a digit string keeps its digits right-aligned and its value, and the result is at least `width` long |
| `PyStrings.DecimalString` | scraper.py:64 | `str(n)` is a non-empty string of digits |
| `PyStrings.DecimalStringValue` | scraper.py:64 | `str(n)` denotes n |
| `PyStrings.DecimalStringNoLeadingZero` | scraper.py:64 | `str(n)` starts with `0` only for n = 0 |
| `PyStrings.WithThousandsDigits` | scraper.py:64 | `WithThousands` (`format(n, ',')` for any integer): without its commas it is `str(n)`, with a leading `-` for a negative n |
| `PyStrings.GroupedDigits` | scraper.py:64 | `Grouped`: removing the commas from `format(n, ',')` gives `str(n)` |
| `PyStrings.GroupedLayout` | scraper.py:64 | `Grouped`: `format(n, ',')` starts with a digit, and a `,` stands exactly at every fourth position from the right, so the groups after the first are three digits wide |
| `PyStrings.DecimalStringThousands` | scraper.py:64 | `str(n)` for n >= 1000 is `str(n // 1000)` followed by the last three digits |
| `Bot.StatesDistinct` | bot.py:25 | the state constants are 0, 1 and 2, and END is none of them |
| `Bot.RouteCases` | bot.py:82-90 | `Route`: `/search` is routed to the entry point only outside the dialogue, `/cancel` to the fallback and text to the state's handler only inside it, and every other update is ignored, so the dialogue is not re-entered |
| `Bot.DispatchOutcome` | bot.py:34-73 | `Dispatch`: each handler returns its next state (ORIGIN, DESTINATION, START_DATE, END, END), only appends replies (two for the search, one otherwise), adds its answer to `user_data` keeping the other keys, or clears `user_data` |
| `Bot.OneTextHandlerPerState` | bot.py:84-88 | `StateHandler`: each of the three states has exactly one text handler, a different one for each; no other state has one |
| `Bot.NextKeepsConsistent` | bot.py:34-90 | `Next` keeps `Consistent`: every update preserves the invariant: `user_data` is empty outside the dialogue and in ORIGIN, holds `origin` in DESTINATION, and holds `origin` and `destination` in START_DATE |
| `Bot.SearchEntersOrigin` | bot.py:34-36 | `/search` outside the dialogue enters ORIGIN with an empty `user_data` |
| `Bot.OriginStored` | bot.py:38-41 | in ORIGIN, the text is stored under `origin` and the dialogue moves to DESTINATION |
| `Bot.DestinationStored` | bot.py:43-46 | in DESTINATION, the text is stored under `destination`, the origin is kept, and the dialogue moves to START_DATE |
| `Bot.StartDateSearches` | bot.py:49-67 | in START_DATE, the search runs on exactly the stored origin, the stored destination and this text; its result is sent after the waiting notice; `user_data` is cleared and the dialogue ends |
| `Bot.CancelFromAnyState` | bot.py:70-73 | `/cancel` in any of the three states clears `user_data` and ends the dialogue |
| `Bot.EndedMeansCleared` | bot.py:66 | after any sequence of updates, a dialogue that has ended has an empty `user_data` |
| `Bot.RunAppend` | bot.py:82-90 | running two sequences of updates one after the other is the same as running their concatenation |
| `Bot.Run` | bot.py:82-90 | every sequence of updates keeps the invariant |
| `Bot.FullDialogue` | bot.py:34-67 | `/search` followed by the origin, the destination and the date runs the search on those three answers; its result is the last reply, and `user_data` ends empty |
| `Bot.CancelThenSearchIsFresh` | bot.py:70-73 | cancelling in DESTINATION and then sending `/search` gives a clean ORIGIN state with nothing from the cancelled dialogue |
| `Bot.Conversation.constructor` | bot.py:82-90 | a new conversation is outside the dialogue, with an empty `user_data` and no replies |
| `Bot.Conversation.SearchStart` | bot.py:34-36 | sends the prompt, returns ORIGIN, and leaves `user_data` unchanged |
| `Bot.Conversation.OriginReceived` | bot.py:38-41 | sets `user_data['origin']`, keeps the other keys, sends the prompt, and returns DESTINATION |
| `Bot.Conversation.DestinationReceived` | bot.py:43-46 | sets `user_data['destination']`, keeps the other keys, sends the prompt, and returns START_DATE |
| `Bot.Conversation.StartDateReceived` | bot.py:49-67 | sends the waiting notice and then `FindTickets` of the stored origin and destination and this text; clears `user_data`; returns END |
| `Bot.Conversation.Cancel` | bot.py:70-73 | sends the cancel notice, clears `user_data`, and returns END |
| `Bot.Conversation.Handle` | bot.py:82-90 | routes one update as the `ConversationHandler` does, runs the handler, and stores the state it returns; the new state is `Next` of the old one and the invariant is kept |

## Left out

- The HTTP request is replaced by the `Response` parameter (scraper.py:48-55): the URL, the
  headers, the 20-second timeout, `raise_for_status` and `response.json()`. The logging
  `print` in the connection-error handler is left out too.
- Which exception a body that is not JSON raises depends on the installed version of the
  `requests` library, and that library is not part of this model. `InvalidJson` takes the
  `ValueError` branch, as the code at scraper.py:76-77 intends.
- An offer is a record with all five fields present. A missing field raises an uncaught
  `KeyError` at scraper.py:62-66 and is not modelled. Neither is an `items` value that is
  not a list, or a price that is not a number.
- DisplayPrice: exact integer truncation toward zero. The float rounding of `price / 10`,
  which differs for magnitudes above 2^53, is not modelled.
- The `__main__` demo (scraper.py:79-81) appears only as the `ShahrivarExample` test
  vector.
- The Telegram framework is left out: `async`/`await`, `reply_text` and `reply_html`
  (replies are appended to a list instead), logging, the token lookup, `Application.builder`
  and `run_polling` (bot.py:1-23, 75-99).
- The `/start` greeting handler (bot.py:27-32) needs `mention_html` from the framework and is
  not modelled. In the model, commands other than `/search` and `/cancel` leave the dialogue
  unchanged.
- One user's dialogue is modelled. `user_data` is per user and shared across chats, so two
  dialogues of one user in two chats could interfere. That is framework behaviour and is not
  modelled.
- Bot.Conversation.StartDateReceived: requires both `origin` and `destination` to be
  stored because the source raises `KeyError` otherwise. The framework's reaction to a
  handler exception is not modelled. `Next` requires the invariant `Consistent`, under which
  this case cannot occur.
- The natural-language extraction entry point, which sends the sentence to a hosted
  language model, is not part of this model. Its source is not among the modelled files.
