# Attachment extraction in the Poe sample bots, modelled in Dafny

This project models the part of the sample Poe server bots that has real
logic: turning a request's file attachments into one text answer.

- `EchoBot.get_response` (echobot.py) walks the request's attachments in order.
  It classifies each one by its coarse `type` and then by its file name's suffix.
  A `.docx`, `.pdf` or `.xlsx` goes through its parser inside a `try`.
  Each handled attachment appends exactly one line: a success line or a caught error line.
  When no line was produced, the bot echoes the last message instead.
  The answer is the lines joined by newlines.
- `ClaudeBot.get_response` (claude_35.py) does the same over the query messages.
  It keeps only `attachment` messages that carry metadata.
  The name comes from the metadata, defaulting to `"Без имени"`.
  Every line names its attachment.
  When no line was produced, the request is delegated to the hosted model.
- `get_current_weather` (function_calling_bot.py) is a fixed three-city lookup.
  It uses a case-insensitive substring test, in priority order.

Modules:

- `Wrappers`: `Option` (Python's `None`) and `Result` (a value or the raised exception's text).
- `Strings`: `str.endswith`, the `in` substring test, `sep.join`, and `str.split` on one character.
  `Split` is the inverse partner of `Join`.
- `Extraction`: the pieces both bots share.
  - The closed classifier `Classify` maps a name to `Docx | Pdf | Xlsx | NoStrategy`.
  - The parsers are a `Parsers` record of given functions: any total function of the content can stand in for python-docx, PyPDF2 or openpyxl.
  - The worksheet rendering is `RenderWorksheet`, the imperative `rows` loop.
  - `ExtractBody` is the body of one `try` block.
  - `Lines` is the list a loop builds when each item appends at most one line. Its order, isolation and emptiness lemmas serve both bots.
- `EchoBot` and `ClaudeBot`: one per bot.
  - `Entry` is the line one item adds.
  - `Entries` is the `responses` list, `Lines` over the bot's items.
  - `Respond` is the whole answer.
  - `AppendLine`, `CollectLines` and `GetResponse` are the loop as the bot runs it, each proved equal to those functions.
- `Weather`: `GetCurrentWeather` returns the JSON object as a map from its keys to its values.
  A reference table `Cities` and its lookup `Lookup` serve as the independent definition.

The system's design calls for every per-attachment line to name its attachment.
The code of echobot.py does not do that: its `.docx`, `.pdf` and `.xlsx` lines carry only a label and the body or the error text.
The model follows the code. `EchoBot.FileLine` has no name in it, while `ClaudeBot.FileLine` does.

## Model

| member | source | states |
|---|---|---|
| Strings.ContainsIsSubstring | function_calling_bot.py:18 | the `in` test as computed is exactly "occurs at some offset", in both directions |
| Strings.JoinSepAt | echobot.py:68 | in a join, a separator follows every part but the last, at the offset where that part ends |
| Strings.JoinLayout | echobot.py:68 | a join holds every part at its offset (the lengths of the parts before it, each plus the separator), a separator between neighbours, and nothing else; for any parts |
| Strings.SplitJoin | echobot.py:68 | for at least one part and no part holding the separator, cutting the join at the separator gives back the parts in order |
| Extraction.SuffixesExclusive | echobot.py:33-49 | no name ends in two of `.docx`, `.pdf`, `.xlsx`, so the order of the `elif` suffix tests never decides |
| Extraction.ClassifyExact | claude_35.py:28-44 | a name selects Docx, Pdf or Xlsx if and only if it ends (case-sensitively) in that suffix; otherwise no strategy |
| Extraction.ClassifySuffix | claude_35.py:28-44 | any stem followed by a strategy's suffix classifies as that strategy |
| Extraction.RenderWorksheet | echobot.py:54-57 | the `rows` loop yields the sheet's rows, each rendered, newline-joined |
| Extraction.RowColumns | echobot.py:56 | for a row of at least one cell with no tab in any cell, cutting the rendered row at its tabs gives every cell's `str()` at its own column, `None` as an empty field |
| Extraction.RowWithEmptyMiddleCell | echobot.py:56 | row `[A, None, C]` renders as `A`, two tabs, `C` |
| Extraction.EmptySheet | echobot.py:54-58 | a sheet with zero rows renders as the empty text, not an error |
| Extraction.SheetRows | echobot.py:55-57 | for a sheet of at least one row with no newline in any cell, cutting the sheet text at its newlines gives one rendered row per sheet row, in sheet order |
| Extraction.Lines | echobot.py:28-60 | a loop appending at most one line per item leaves at most as many lines as items |
| Extraction.LinesAppend | echobot.py:28-60 | the lines of two item lists in a row are the lines of each, in order |
| Extraction.LinesAt | claude_35.py:25-55 | whatever item stands at position i adds at most its own line there; the other items' lines do not change |
| Extraction.NoLines | echobot.py:28-63 | no line at all if and only if no item produces one |
| Extraction.LinesFromItems | claude_35.py:25-55 | every line in the list is the line of some item; nothing else is appended |
| Extraction.ExtractBodyOutcome | echobot.py:34-60 | for each of docx, pdf and xlsx, a body fails exactly when its parser raises, and then carries the parser's exception text; a docx or pdf body lays out its paragraphs or pages in order with a newline between neighbours (and splits back into them when there is at least one and none holds a newline); an xlsx body is the rendered sheet |
| EchoBot.AppendLine | echobot.py:29-60 | one loop pass appends exactly the attachment's line, or nothing |
| EchoBot.CollectLines | echobot.py:27-60 | after the loop, `responses` holds each attachment's line in attachment order |
| EchoBot.GetResponse | echobot.py:21-68 | the bot's answer is the joined lines, the echo, or the `IndexError` of an empty query, as `Respond` defines |
| EchoBot.FailureIsolated | echobot.py:34-60 | a parser failure on attachment i puts only its error line at its place; the lines of all other attachments are unchanged |
| EchoBot.TypeBeforeSuffix | echobot.py:29-33 | a `text` or `image` attachment is reported as text or image even when its name ends in a document suffix |
| EchoBot.HandledExactly | echobot.py:29-49 | an attachment adds a line if and only if it is `text`, `image`, or a `file` ending in `.docx`, `.pdf` or `.xlsx` |
| EchoBot.EchoFallback | echobot.py:63-65 | with no handled attachment and a message present, the answer is exactly `Вы сказали: ` and the last message's content |
| EchoBot.OneReply | echobot.py:63-68 | the request fails only with no line and no message; with lines, the reply is them newline-joined and holds each line at its offset in attachment order; when in addition no line holds a newline (never true of an `.xlsx` success line), it splits back into the lines |
| ClaudeBot.AppendLine | claude_35.py:26-55 | one loop pass appends exactly the message's line, or nothing |
| ClaudeBot.CollectLines | claude_35.py:25-55 | after the loop, `responses` holds each message's line in query order |
| ClaudeBot.GetResponse | claude_35.py:19-63 | the bot delegates or answers the joined lines, as `Respond` defines |
| ClaudeBot.FailureIsolated | claude_35.py:29-55 | a parser failure on message i puts only its error line, with the name, at its place; the other lines are unchanged |
| ClaudeBot.HandledExactly | claude_35.py:26-44 | a message adds a line if and only if it is an attachment with non-empty metadata whose name ends in one of the three suffixes |
| ClaudeBot.UnnamedSkipped | claude_35.py:27-44 | an attachment without a `name` key gets `Без имени`, which matches no suffix, so it adds no line |
| ClaudeBot.EntryNamesAttachment | claude_35.py:33-55 | every success and every failure line contains the attachment's name |
| ClaudeBot.EntriesNameAttachments | claude_35.py:25-55 | every line of `responses` contains the name of an attachment message of the query |
| ClaudeBot.DelegateOrReply | claude_35.py:58-63 | delegation happens if and only if no message is handled; otherwise one reply, the lines newline-joined, holding each line at its offset in query order; it splits back into the lines only when none holds a newline, which excludes every success line (a newline follows its heading) |
| Weather.GetCurrentWeather | function_calling_bot.py:16-27 | the answer always has `location` and `temperature`, no other key than `unit`, and any `unit` is the caller's |
| Weather.FirstMatch | function_calling_bot.py:18-25 | the table lookup finds a city whose key occurs and no earlier city's key occurs, and finds none only when no key occurs |
| Weather.WeatherIsTableLookup | function_calling_bot.py:18-27 | the `if`/`elif` chain equals the priority-ordered table lookup |
| Weather.TokyoFirst | function_calling_bot.py:18-19 | a location mentioning `tokyo` in any letter case answers Tokyo, 11, with the caller's unit, whatever else it mentions |
| Weather.LaterCitiesYield | function_calling_bot.py:20-25 | a location mentioning `san francisco` but not `tokyo` answers San Francisco, 72; one mentioning `paris` but neither other key answers Paris, 22; both with the caller's unit |
| Weather.UnknownLocation | function_calling_bot.py:26-27 | an unknown location is returned verbatim with temperature `unknown` and no `unit` key |
| Weather.CaseInsensitive | function_calling_bot.py:18-24 | locations equal after lowering are both known or both unknown, and known ones get the same answer |
| Weather.LoweredLocation | function_calling_bot.py:18-24 | a location and its lowered form are both known or both unknown, and get the same answer when known |
| Weather.DefaultUnit | function_calling_bot.py:16 | without a unit argument a known city is reported in `fahrenheit` |

## Left out

- The parsers themselves are foreign library calls: python-docx `Document`, PyPDF2 `PdfReader` and `extract_text`, openpyxl `load_workbook` and `iter_rows`.
  They are the three functions of `Parsers`. A failure anywhere inside one, including part-way through `iter_rows`, is that function's `Failure`.
- `str(e)` and `str(cell)` are Python formatting. They appear as the given strings inside `Failure` and inside the cells.
- Attachment content is modelled as one string value. It is handed to the parser once, and the echo bot's `text` branch formats the same value.
  Python's single-pass stream semantics are not modelled.
- The async generator is not modelled. `yield fp.PartialResponse(...)` becomes the `Reply` outcome.
  `fp.stream_request` to the hosted model is a network call, so `ClaudeBot` returns `Delegate` in its place.
  `GPT35FunctionCallingBot.get_response` is only such a call and is left out.
- `get_settings` returns constant capability flags. function_calling_bot.py defines it twice, and only the second definition takes effect.
  The Modal `Image`/`App`/`asgi_app` wiring and `fp.make_app` are deployment plumbing.
- The tool definitions `tools_dict_list` and `tools` are static data, and `json.dumps` is a library call.
  The weather answer is the map that `json.dumps` would serialise.
- Weather.Lower: case folding covers the ASCII letters only. Python's `str.lower()` also lowers non-ASCII letters, and the model does not capture that.
- An absent `request.attachments` (`None`) is modelled as the empty list. Both skip the loop.
- A truthy `metadata` value that is not a dictionary is not modelled, and neither is a `name` that is not a string.
  The source would raise on either. A falsy non-dictionary value (`""`, `0`) is skipped by the truthiness test like an empty map, so the model takes metadata as an optional map from strings to strings.
