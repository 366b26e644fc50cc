# SynologyBot menu engine in Dafny

This project models the conversational core of SynologyBot, a chat bot that
answers Synology NAS questions from a fixed knowledge base by menu navigation.
Each user has a session in one of three states: main menu, category selected
or question selected. Every incoming message is first normalised: it is
lower-cased, punctuation becomes spaces, whitespace runs collapse to one space,
and the ends are trimmed. The message is then read against the session:

- a reset word (`меню`, `menu`, `начать`, `старт`, `start`) goes back to the
  main menu from anywhere;
- `назад` goes back one level;
- otherwise a number selects a category or a question, 1-based and in
  knowledge-base order.

Anything else gets an error notice before the current menu is shown again.
Each reply carries a tag: the category key, `main_menu` or `error`. The
statistics store records that tag, except for `error`.

Modules:

- `TextNorm`: `_normalize_text`, over an explicit character-class model.
- `Decimal`: printing menu numbers (`f"{i}"`) and reading choices back
  (`isdigit()` and `int()`).
- `Duration`: `format_timedelta`.
- `KnowledgeBase`: the ordered dictionary of categories, as a sequence with
  distinct keys.
- `Menus`: the three renderers. The two list renderers are loop methods
  proved equal to a recursive numbered-list function.
- `Engine`: one turn of `process_question` as the pure function `Step` on a
  session value, with the transition properties as lemmas.
- `Stats`: the statistics calls a turn makes, as abstract events.
- `Bot`: the mutable side. It has the classes `UserSession` (with `reset`)
  and `ChatBot`, which owns the `user_sessions` map. Its method
  `ProcessQuestion` updates the user's session object in place and is proved
  to compute exactly `Step`. It is also proved to leave every other session
  untouched and to keep every session inside the invariant `SessionOk`.

`SessionOk` is the invariant `process_question` keeps:

- outside the main menu, the selected category is a key of the knowledge base;
- in `question_selected`, the question index lies inside that category;
- in the main menu, nothing is selected.

So the renderers never index out of range.

Behaviour that is modelled as written:

- The main menu footer and its "enter a number" error both say "1 до 5",
  whatever the number of categories.
- `назад` from an answer does not clear `selected_question` (bot.py:444-448),
  so a stale question index stays in `category_selected`
  (`Engine.BackFromAnswer`).
- The statistics decision compares the tag's text with `'error'`, so a
  category whose key is literally `error` is never recorded.

## Model

| member | source | states |
|---|---|---|
| `TextNorm.NormalizeText` | bot.py:308-317 | The normalised text has no whitespace at either end and no two whitespace characters in a row. Every character is a space or a lower-case word character. |
| `TextNorm.NormalizeKeepsWords` | bot.py:308-317 | The word characters of the result are those of the lower-cased input, in order. The result is empty exactly when the input has no word character. |
| `TextNorm.CanonicalFixed` | bot.py:308-317 | A text of that shape is left unchanged by normalisation. |
| `TextNorm.NormalizeIdempotent` | bot.py:308-317 | Normalising twice equals normalising once. |
| `TextNorm.Lowered` | bot.py:311 | `lower()` keeps the length. Every character of the result is its own lower case, and it has the same lower case as the input character at its position, so it is that character's lower case. |
| `TextNorm.Upper` | bot.py:311 | Upper-casing a lower-case letter changes it, and lowering gives the letter back. For every character, lowering after upper-casing equals lowering. |
| `TextNorm.NormalizeIgnoresCase` | bot.py:308-317 | A text with any of its letters upper-cased normalises exactly as the text does. |
| `TextNorm.Depunctuated` | bot.py:314 | `re.sub(r'[^\w\s]', ' ')` keeps the length. Each character is kept or becomes a space, and only word and space characters remain. |
| `TextNorm.Collapse` | bot.py:315 | `re.sub(r'\s+', ' ')` leaves no two whitespace characters in a row. It adds only single spaces, is empty only for the empty input, and the result starts with whitespace iff the input does. |
| `TextNorm.CollapseJoin` | bot.py:315 | A whitespace run between two parts that do not border on whitespace becomes exactly one space, and each part is collapsed on its own. |
| `TextNorm.TrimStart` | bot.py:315 | The left half of `strip()` gives a suffix of the input that does not start with whitespace, and drops at least one character when the input starts with whitespace. |
| `TextNorm.TrimStartDropsOnlySpace` | bot.py:315 | Every character the left trim drops is whitespace. |
| `TextNorm.TrimEnd` | bot.py:315 | The right half of `strip()` gives a prefix of the input that does not end with whitespace. |
| `TextNorm.TrimEndDropsOnlySpace` | bot.py:315 | Every character the right trim drops is whitespace. |
| `TextNorm.Strip` | bot.py:315 | `strip()` leaves no whitespace at either end, keeps only characters of the input, and keeps the absence of double spaces. |
| `TextNorm.StripRemovesOnlyEnds` | bot.py:315 | `strip()` gives a slice `s[i..j]` of the input with only whitespace before `i` and after `j`. |
| `TextNorm.NormalizeJoin` | bot.py:308-317 | Two lower-case words joined by any non-empty run of punctuation and whitespace normalise to the two words with one space between them. |
| `TextNorm.CommaSeparatesNumbers` | bot.py:308-317 | `1,2` normalises to `1 2`, two numbers, and not to `12`. |
| `TextNorm.CollapseFixed` | bot.py:315 | A text whose only whitespace is single spaces is unchanged by the collapse. |
| `TextNorm.WordCharsCollapse` | bot.py:315 | The collapse keeps every word character, in order. |
| `Decimal.NatToDecimal` | bot.py:383 | `str(n)` of a menu number is a non-empty string of decimal digits without a leading zero. |
| `Decimal.DecimalRoundTrip` | bot.py:383 | Reading a printed number gives the number back. |
| `Decimal.DecimalValue` | bot.py:462 | `int()` of a decimal numeral is zero exactly when every digit is `0`. |
| `Decimal.ParseChoice` | bot.py:461-462 | A message is a number iff it is a non-empty string of decimal digits. |
| `Decimal.ParseChoiceRoundTrip` | bot.py:461-462 | Every number the bot prints is read back as that number. |
| `Decimal.ParseChoiceLeadingZeros` | bot.py:461-462 | `"007"` selects 7. |
| `Decimal.SuperscriptRaises` | bot.py:461-462 | `"²"` passes `isdigit()`, and the source's `int()` raises on it. |
| `Decimal.ChoiceAsWritten` | bot.py:461-462 | The source's reading: a message that fails `isdigit()` is not a number. A numeral `int()` converts has at most 4300 digits and the value `ParseChoice` gives it. |
| `Decimal.LongNumeralRaises` | bot.py:461-462 | A numeral of 4301 ones passes `isdigit()`, makes the source's `int()` raise, and is a number to `ParseChoice`. |
| `Decimal.ParseChoiceRefinesSource` | bot.py:461-462 | The source raises exactly on digit strings that are not all decimal or have more than 4300 digits. On every other message, `ParseChoice` agrees with it. |
| `Duration.Split` | bot.py:24-27 | The total splits into hours, minutes < 60 and seconds < 60, with h*3600 + m*60 + s equal to the total. The hours are non-negative for a non-negative total. |
| `Duration.FormatTimedelta` | bot.py:23-34 | The text always ends with the seconds part and `с`. It contains `ч` iff the hour part is positive, and `м` iff the hour or the minute part is positive. |
| `Duration.FormatTimedeltaParts` | bot.py:23-34 | Hours are shown from one hour on and minutes from one minute on. Below that, only seconds are shown. |
| `Duration.NegativeDurationWraps` | bot.py:23-34 | Minus one second is shown as `59м 59с`. |
| `KnowledgeBase.IndexOf` | bot.py:390 | Finds the first position holding the key, or reports that no position holds it. |
| `KnowledgeBase.Lookup` | bot.py:390 | `knowledge_base[key]` is a category of the base with that key. |
| `KnowledgeBase.LookupAt` | bot.py:463-466 | With distinct keys, looking up the key at position i gives the category at position i. |
| `Menus.NumberedListShows` | bot.py:381-383 | Item k appears as line k + 1, right after the lines of the items before it. |
| `Menus.MainMenuShowsCategory` | bot.py:373-386 | The main menu lists category k under the number k + 1. |
| `Menus.QuestionListShowsQuestion` | bot.py:388-403 | A question list lists question j under the number j + 1. Right after the list comes the line `от 1 до <n> для выбора вопроса`, where `<n>` is the number of questions in decimal. Typing `<n>` reads back as the choice n. |
| `Menus.GetMainMenu` | bot.py:373-386 | The menu built line by line in the loop is the numbered list of all category names, between header and footer. |
| `Menus.GetCategoryQuestions` | bot.py:388-403 | The text built line by line is the numbered list of the category's questions, between header and footer. |
| `Menus.GetQuestionAnswer` | bot.py:405-416 | The answer text starts with the selected question and its answer, and ends with the back and menu reminders. |
| `Engine.Step` | bot.py:439-503 | One turn keeps the session invariant: a valid category outside the main menu and a valid question index in the question state. |
| `Engine.CommandsAreCanonical` | bot.py:439 | The reset words and `назад` are unchanged by normalisation, and `назад` is not a reset word. |
| `Engine.CasedCommandNormalizes` | bot.py:439-444 | A reset word or `назад` typed with any of its letters in capitals normalises to the command. |
| `Engine.CapitalisedCommand` | bot.py:439-456 | A reset word typed with capitals resets from every state to the main menu, and `назад` typed with capitals acts as `назад`. |
| `Engine.CapitalCommandExamples` | bot.py:439-444 | `МЕНЮ`, `Start` and `НАЗАД` are read as `меню`, `start` and `назад`. |
| `Engine.NumeralIsPlainInput` | bot.py:461 | A decimal numeral is unchanged by normalisation and is no command. |
| `Engine.ResetFromAnyState` | bot.py:439-442 | A reset word, from any state, gives the initial session, with category and question cleared, and the main menu tagged `main_menu`. |
| `Engine.BackFromAnswer` | bot.py:444-448 | `назад` after an answer goes to the question list of the same category. The question index stays as it was. |
| `Engine.BackElsewhereResets` | bot.py:449-456 | `назад` in the main menu or a question list resets to the main menu. |
| `Engine.MainMenuChoice` | bot.py:459-475 | In the main menu, the reply is not an error iff the message is a number 1..\|kb\|. Then the n-th category is selected and its list shown. Otherwise the session is unchanged and the right notice precedes the menu. |
| `Engine.CategoryChoice` | bot.py:477-493 | In a question list, the reply is not an error iff the message is a number 1..count. Then question n - 1 is selected and answered. Otherwise the session is unchanged and the right notice precedes the list. |
| `Engine.AnswerIgnoresOtherInput` | bot.py:495-498 | After an answer, any other message keeps the session and shows the unknown-command notice with the same answer, under the category's tag. |
| `Engine.ErrorChangesNothing` | bot.py:459-493 | An error reply never changes the session, and happens only where a number is expected. |
| `Engine.PrintedNumberSelectsCategory` | bot.py:459-469 | Typing the number the main menu prints beside category k selects category k. |
| `Engine.PrintedNumberSelectsQuestion` | bot.py:477-487 | Typing the number a list prints beside question j selects question j. |
| `Engine.NavigationRoundTrip` | bot.py:444-456 | Category i, then question j, then `назад` twice returns to the initial session. |
| `Engine.SuperscriptReachesChoice` | bot.py:459-475 | `"²"` survives normalisation, is no command and reaches `int()`. The model answers with the enter-a-number error. |
| `Engine.LongNumeralReachesChoice` | bot.py:459-475 | A message of 4301 ones survives normalisation, is no command and reaches `int()`, which raises. With at most 4300 categories, the model answers with the wrong-choice error and leaves the session alone. |
| `Engine.ScenarioNumeralsAreNormal` | bot.py:461 | The messages `1` and `99` are their own normal form. |
| `Engine.DsmBackupScenario` | bot.py:439-475 | With categories `dsm` and `backup`, a new user sends `старт`, `1`, `99`, `назад`. The replies are the main menu, the `dsm` list, an error with the list kept open, and the main menu. |
| `Stats.StatsEvents` | bot.py:427-509 | Nothing is logged unless user id and user name are both set. Otherwise the request comes first and the response last, and a category update with the tag's text happens iff the tag is not `error`. There are three events, or two for an `error` tag. |
| `Stats.CategoryNamedErrorIsNotRecorded` | bot.py:505-506 | A category whose key is `error` is never recorded. |
| `Bot.UserSession.constructor` | bot.py:105-110 | A new session is in the main menu with nothing selected. |
| `Bot.UserSession.Reset` | bot.py:112-117 | `reset` returns to the main menu with nothing selected. |
| `Bot.ChatBot.constructor` | bot.py:101 | The session map starts empty. |
| `Bot.ChatBot.ProcessQuestion` | bot.py:418-511 | The user's session, created if new, moves to exactly what `Step` gives on the normalised message. The reply is `Step`'s reply. A known user keeps their session object, which is updated in place. Every other user's session object and fields are unchanged, and the statistics events are those of `StatsEvents`. |
| `Bot.ChatBot.Handle` | bot.py:432-503 | The same on an already normalised message, with the invariant kept for every session. |
| `Bot.ChatBot.SessionFor` | bot.py:432-435 | An unseen user gets a fresh session in the main menu. A known user gets their existing session, and the map changes only at that user. |
| `Bot.ChatBot.Respond` | bot.py:439-503 | The in-place updates of the session's fields and the reply are exactly `Step`. |
| `Bot.ChatBot.ChooseCategory` | bot.py:459-475 | The main-menu branch, in place, equals `Step`. |
| `Bot.ChatBot.ChooseQuestion` | bot.py:477-493 | The question-list branch, in place, equals `Step`. |

## Left out

- Flask routes, the webhook and `send_message`: HTTP transport and the
  outbound network call. The message, user id and user name are parameters.
- `StatisticsDB` and `_update_request_category`: SQLite I/O. The calls are
  returned as a list of abstract events. `log_request` is taken to return a
  positive row id, and a failing store is not modelled.
- `_setup_knowledge_base` and its reload: dynamic module import. The
  knowledge base is an immutable parameter. It may be empty, which covers the
  `{}` fallback.
- Logging, `last_interaction` and `start_time`: wall-clock values that never
  influence a reply.
- Concurrent requests (`threaded=True`): each call is one atomic step here.
- The final `else` of `process_question` (bot.py:500-503): the state is a
  three-valued datatype, so this branch cannot be reached.
- Unicode character classes: `lower()`, `\w`, `\s` and `isdigit()` are
  modelled as explicit predicates. Whitespace is the exact set `isspace()`
  accepts. Word characters are ASCII letters, digits, `_`, the superscripts
  ¹²³ and U+0400 to U+045F. Every other character is treated as
  punctuation and becomes a space, although Python's `\w` keeps many of them
  (`é`, `ª`, `½`, `ґ`). This can change the transition: the model normalises
  `1é` to `1` and selects category 1, where the source keeps `1é`, which fails
  `isdigit()` and gets the enter-a-number error (bot.py:474). Lower-casing
  covers only `A` to `Z` and U+0400 to U+042F, and `Upper`, its partner,
  only the letters these lower to. Characters whose lower case is
  longer than one character, and non-ASCII decimal digits that `int()`
  accepts, are not modelled.
- `Decimal.IntMaxStrDigits`: the cap of 4300 digits is CPython's default
  from 3.11 on (and in the 3.7.14, 3.8.14, 3.9.14 and 3.10.7 security
  releases). The `PYTHONINTMAXSTRDIGITS` setting and older interpreters,
  which change or remove it, are not modelled.
- `Duration.FormatTimedelta`: takes whole seconds. The truncation of
  fractional seconds by `int(delta.total_seconds())` is not modelled.
- `Duration.FormatTimedeltaParts`: stated for non-negative totals only.
  Negative totals are shown by the single example `NegativeDurationWraps`.
- The reply's `category` is a datatype (`MainMenuTag`, `ErrorTag`,
  `CategoryTag(key)`). `TagText` maps it to the string the source returns, so
  a category keyed `main_menu` or `error` is only distinguishable in the
  model, not in the source's output.

## Findings

| source | as written | input that shows it | evidently intended | confidence | as-written member | corrected member |
|---|---|---|---|---|---|---|
| bot.py:461-462 | `isdigit()` guards `int()`. But `isdigit()` also holds for superscript digits, which are word characters and survive normalisation, and `int()` rejects them with `ValueError`. `process_question` then raises and the user gets no reply. | the message `²` in the main menu (or in a question list) | a digit string that is not decimal is treated as not a number: the enter-a-number error with tag `error` | not executed | `Decimal.ChoiceAsWritten`, `Decimal.SuperscriptRaises`, `Engine.SuperscriptReachesChoice` | `Decimal.ParseChoice`, `Decimal.ParseChoiceRefinesSource` |
| bot.py:461-462 | `isdigit()` guards `int()`, but `int()` also raises `ValueError` on a numeral of more than 4300 digits. `process_question` then raises and the user gets no reply. | a message of 4301 ones in the main menu (or in a question list) | a numeral too large for any menu is a wrong choice: the wrong-choice error with tag `error` | not executed | `Decimal.ChoiceAsWritten`, `Decimal.LongNumeralRaises`, `Engine.LongNumeralReachesChoice` | `Decimal.ParseChoice`, `Decimal.ParseChoiceRefinesSource` |
