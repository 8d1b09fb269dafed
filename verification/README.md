# nexly-cli core, modelled in Dafny

Nexly is a terminal chat client for large language models. It keeps a profile
(provider, model, API keys, capped chat history) in a JSON configuration file.
It sends the latest input, with a fixed system prompt and the project context,
to one of five providers: OpenAI, Anthropic, Google, OpenRouter or NVIDIA.
Earlier turns are not sent. It decodes the provider's streamed reply line by line and
drives a Bubble Tea screen with a chat view and a command palette. A few text
utilities help it along: applying line edits to a file, a line diff, parsing
edit blocks out of a reply, and Markdown, padding, wrapping and colour helpers.

This project models those pure cores as immutable datatypes and total
functions, and proves what the code promises about them:

- `wrappers.dfy` (`Wrappers`): `Option`.
- `text.dfy` (`Text`): the Go `strings` functions the code relies on (Split, Join, Fields, TrimSpace, HasPrefix, ...) and lemmas about them.
- `chat.dfy` (`Chat`): the chat message.
- `config.dfy` (`Config`): `internal/config/config.go`.
- `wire.dfy` (`Wire`): `internal/providers/provider.go`: URLs, request bodies, headers, the response check and the three stream decoders.
- `session.dfy` (`Session`): `internal/tui/app.go` as a step function `Update(state, event) -> Step(state, effect)`. Each `tea.Cmd` is an effect tag `NoEffect`, `Quit` or `StartStream(userInput)`. The outcome of the background stream comes back as the event `StreamComplete` or `StreamError(text)`.
- `edits.dfy` (`Edits`): `internal/handlers/handlers.go`: the pure part of `EditFile`, `ShowDiff` and `ParseFileEdits`.
- `format.dfy` (`Format`): `internal/utils/utils.go`: the fence state machine of `FormatMarkdown`, header and list formatting, padding, centring, `WordWrap` and `GetColorForFile`.

In these places the model follows the code as written:

- The completion step of Update appends no assistant message and does not clear `errMsg` (internal/tui/app.go:156-159). The reply that streamResponse appends through its pointer to the model is outside Update; "## Left out" says so.
- Editing the input is not blocked while a reply streams (internal/tui/app.go:133-146).
- Running a known command does not clear the input (internal/tui/app.go:171-175).

## Model

| member | source | states |
|---|---|---|
| Config.Load | internal/config/config.go:43-70 | A missing directory, an unreadable file or an unparsable file each give the defaults (openai, gpt-4, no keys, no history). A decoded file is taken field by field, with an absent key map or history read as empty. |
| Config.LoadStoreRoundTrip | internal/config/config.go:72-83 | Saving a configuration and loading it back gives the same configuration. This holds by construction once JSON encoding and decoding are taken as inverse: every field is written, and nothing present is normalised on the way back. |
| Config.SetApiKey | internal/config/config.go:90-94 | The provider's key becomes the new key. Every other provider's key is unchanged. The set of providers with keys gains exactly that provider. No other field changes. |
| Config.SetApiKeyPersists | internal/config/config.go:90-94 | After load, set and save, the next load reads the new key for that provider and the earlier key for every other provider. |
| Config.AddMessage | internal/config/config.go:96-108 | The history holds at most 100 entries and ends with the added message. Under the cap, it is the old history plus the message. At the cap, the oldest entry is dropped. In general it is the newest suffix of old history plus message. |
| Config.ClearHistory | internal/config/config.go:110-114 | The history becomes empty. Provider, model, keys and every other field are unchanged. |
| Config.Models | internal/config/config.go:116-160 | An unlisted provider gets exactly ["gpt-4"]. Every provider gets at least one model. |
| Config.ProviderTables | internal/config/config.go:116-164 | Every listed provider offers more than one model. The default model is among the default provider's models. |
| Wire.ApiUrlSelection | internal/providers/provider.go:36-49 | Google's URL is the v1beta/models/ prefix, then the model (which can be read back), then the streaming suffix. An unrecognised provider gets the OpenAI URL. No other provider's URL depends on the model. |
| Wire.ApiUrl | internal/providers/provider.go:36-49 | Only Google's URL depends on the model, and it ends in the streaming suffix. Every other name gets one of the four fixed chat endpoints. Wire.ApiUrlSelection shows the model can be read back from Google's URL. |
| Wire.NewProvider | internal/providers/provider.go:34-57 | The provider keeps its name, key and model. Google's URL is the v1beta/models/ prefix, the model and the streaming suffix. Anthropic, OpenRouter and NVIDIA each get their own fixed endpoint. OpenAI and every unrecognised name get the OpenAI chat-completions URL. |
| Wire.Models | internal/providers/provider.go:63-78 | An unrecognised provider gets exactly ["gpt-4"]. Every provider gets at least one model. |
| Wire.GoogleContents | internal/providers/provider.go:303-318 | There is one entry per message, in order, with exactly one part holding the message's text. The role "system" becomes "model" and every other role is kept. |
| Wire.SplitSystemKeeps | internal/providers/provider.go:120-128 | The messages sent to Anthropic are the input minus every system message, in order. |
| Wire.SplitSystemLast | internal/providers/provider.go:120-128 | The lifted system text is the content of the last system message, or the initial value when there is none. |
| Wire.AnthropicBodyShape | internal/providers/provider.go:118-137 | The Anthropic body has the model, stream on, max_tokens 4096, the non-system messages in order, and a system field. That field is present exactly when the last system message's content is non-empty, and is absent when there is no system message. |
| Wire.GoogleBodyShape | internal/providers/provider.go:110-117 | The Google body has maxOutputTokens 4096 and one content per message, with the role remapped and the text as its only part. |
| Wire.ChatBodyShape | internal/providers/provider.go:138-145 | Every other provider gets the OpenAI-style body with the model, the messages unchanged, stream on and temperature 0.7. |
| Wire.BuildRequestBody | internal/providers/provider.go:108-146 | The body has the Google shape exactly when the Google decoder reads the reply, the Anthropic shape exactly when the Anthropic decoder does, and the chat shape otherwise. Wire.AnthropicBodyShape, Wire.GoogleBodyShape and Wire.ChatBodyShape give each body's contents. |
| Wire.Headers | internal/providers/provider.go:148-169 | The Content-Type is always JSON. Anthropic gets x-api-key and anthropic-version 2023-06-01 and no Authorization. Every other provider gets "Bearer <key>" and no Anthropic headers. HTTP-Referer and X-Title appear exactly for openrouter. The header count is 4, 3 or 2. |
| Wire.Decode | internal/providers/provider.go:189-301 | At most one text per line. The OpenAI and Anthropic decoders never pass an empty text to the callback. |
| Wire.DecodeIsCollectUntilStop | internal/providers/provider.go:189-301 | Decoding yields, in order, the texts of the lines before the first `data: [DONE]` line. The error is None if such a line exists and otherwise whatever the reader reported. |
| Wire.OpenAIStopsAtDone | internal/providers/provider.go:205-207 | When `data: [DONE]` follows lines without a stop, the OpenAI decoder emits only those lines' texts, nothing from the lines after it, and no error. |
| Wire.DecodeAppend | internal/providers/provider.go:189-301 | Lines that do not stop the decoder contribute their texts in front of whatever the rest of the body decodes to. |
| Wire.SkippedLine | internal/providers/provider.go:197-219 | A line that is not a `data: ` line, or whose JSON does not parse, is skipped without an error. |
| Wire.EmptyTextHandling | internal/providers/provider.go:256-297 | An empty text is skipped by the Anthropic decoder. The Google decoder passes it on to the callback. |
| Wire.CompleteLinesDropTail | internal/providers/provider.go:191-196 | Only newline-terminated lines reach a decoder. A final unterminated piece is dropped. |
| Wire.HandleResponse | internal/providers/provider.go:171-187 | A status other than 200 gives no text and an error that contains the status code and ends with the body. Status 200 decodes the body's complete lines with the provider's decoder. |
| Wire.SendMessage | internal/providers/provider.go:80-106 | An empty key is refused before any request is built. Otherwise exactly one request is built, holding the provider's URL, headers and body. A transport failure gives its error and no text. |
| Edits.ApplyEdit | internal/handlers/handlers.go:84-89 | Deleting a line in range shortens the file by one line. Every other edit keeps the line count. |
| Edits.ApplyEditEffect | internal/handlers/handlers.go:84-89 | An out-of-range line number changes nothing. An empty content deletes exactly that line and shifts the rest up. Any other content replaces only that line. |
| Edits.ApplyEdits | internal/handlers/handlers.go:83-91 | Each edit removes at most one line, so the result has between len(lines) - len(edits) and len(lines) lines. Edits whose line numbers all lie outside the lines change nothing. |
| Edits.ApplyEditsSequential | internal/handlers/handlers.go:83-91 | Edits apply in order, each to the result of the ones before it. |
| Edits.ReplacementsKeepLineCount | internal/handlers/handlers.go:85-89 | Edits that all carry content never change the line count. |
| Edits.EditNothing | internal/handlers/handlers.go:81-93 | With no edits, splitting and joining writes the text back unchanged. |
| Edits.EditContent | internal/handlers/handlers.go:81-93 | Edits whose line numbers all lie outside the file write the text back unchanged. Edits.EditNothing and Edits.EditOneLine are its partners. |
| Edits.EditOneLine | internal/handlers/handlers.go:81-93 | One replacement of an existing line by a single line of text changes exactly that line of the file. |
| Edits.DiffAt | internal/handlers/handlers.go:115-135 | Every line emitted for an index carries that index plus one. |
| Edits.DiffAtShape | internal/handlers/handlers.go:115-135 | Equal texts (a missing line read as "") give one unchanged line. Otherwise there are one or two lines: a removal exactly when the original has the index, and an addition exactly when the new text has it. |
| Edits.ShowDiff | internal/handlers/handlers.go:102-138 | The output starts with the "--- Original" / "+++ Modified" header. |
| Edits.DiffOfSelf | internal/handlers/handlers.go:115-135 | Diffing lines against themselves gives exactly one unchanged line per line, numbered in order. |
| Edits.ShowDiffOfSelf | internal/handlers/handlers.go:102-138 | ShowDiff(x, x) is the header followed by one unchanged line per line of x, and has no removal or addition. |
| Edits.DiffSidesFrom | internal/handlers/handlers.go:115-135 | When no line past the shorter text is empty, the diff's old side is the original and its new side is the new text. |
| Edits.DiffAtSides | internal/handlers/handlers.go:125-134 | Under the same condition, each index contributes exactly its original line to the old side and its new line to the new side. |
| Edits.ShowDiffRecovers | internal/handlers/handlers.go:102-138 | Under the same condition, both texts can be rebuilt from the rendered diff's lines. |
| Edits.AddedEmptyLineShownUnchanged | internal/handlers/handlers.go:115-126 | Diffing "a" against "a\n" reports line 2 as unchanged, so the old side is not the original. |
| Edits.AlignedDiffAt | internal/handlers/handlers.go:115-135 | Corrected loop body: an unchanged line is reported only at an index both texts have. |
| Edits.ShowDiffAligned | internal/handlers/handlers.go:102-138 | The corrected diff keeps the same header. |
| Edits.AlignedDiffSides | internal/handlers/handlers.go:115-135 | The corrected diff's old side is always the original and its new side the new text. |
| Edits.AlignedDiffAtSides | internal/handlers/handlers.go:125-134 | In the corrected diff, each index contributes exactly its original line and its new line to the respective sides. |
| Edits.ShowDiffAlignedRecovers | internal/handlers/handlers.go:102-138 | For all inputs, both texts can be rebuilt from the corrected diff's lines. |
| Edits.AlignedAgreesOnEqualLength | internal/handlers/handlers.go:115-135 | For texts with equally many lines, the corrected diff is the diff as written. |
| Edits.ParseLine | internal/handlers/handlers.go:191-216 | An edit is added only when a fence closes an open block, and it holds the block's line number and content. Content grows only by a body line inside an open block with a positive line number. Otherwise it is cleared only by a closing fence. |
| Edits.ParseFromAppend | internal/handlers/handlers.go:191-216 | Parsing two runs of lines is parsing the first and continuing from its state. |
| Edits.OpenBlockDiscarded | internal/handlers/handlers.go:192-199 | A final line that is not a fence never adds an edit, so a block still open at the end of input is dropped. |
| Edits.ParseKeepsInvariant | internal/handlers/handlers.go:191-216 | The parser keeps its invariant: every edit's content is made of body lines, each followed by a newline. |
| Edits.ParsedEditsAreBodies | internal/handlers/handlers.go:184-219 | Every parsed edit's content is a non-empty run of lines, none of which is a fence, an "Edit file:" line or a "Line:" line. |
| Edits.ParseFileEdits | internal/handlers/handlers.go:184-219 | Every returned edit has non-empty content that ends in a newline. |
| Edits.EditsEndInNewline | internal/handlers/handlers.go:194-215 | While the parser keeps its invariant, every edit found so far has non-empty content ending in a newline. |
| Edits.EditContentShape | internal/handlers/handlers.go:194-196 | Such content is non-empty and ends in a newline. |
| Format.HeaderRules | internal/utils/utils.go:54-65 | "### ", "## " and "# " lines lose their marker and are wrapped in their colour and the reset code. Other lines are unchanged. |
| Format.ListRules | internal/utils/utils.go:105-113 | "* " and "- " items become the bullet sign, and a "- " item also loses a following "* ". Numbered items get a two-space indent. Other lines are unchanged. |
| Format.CodeBlock | internal/utils/utils.go:91-103 | An empty block renders as "". A non-empty block never does. The output is made of whole lines. |
| Format.CodeBlockLines | internal/utils/utils.go:91-103 | A non-empty block renders as a coloured opening fence with its language, one gray line per code line, a closing fence and a final newline. |
| Format.FenceLanguage | internal/utils/utils.go:27-30 | The language is the word after a space that follows the backticks, so "```go" has no language. |
| Format.MarkdownStep | internal/utils/utils.go:18-49 | A state with no open block keeps no stale language or code. Only a fence changes whether a block is open. Output is only appended to, and stays made of whole lines. |
| Format.MarkdownFrom | internal/utils/utils.go:18-49 | The same holds over any run of lines: output is only appended to and stays made of whole lines. |
| Format.MarkdownFromAppend | internal/utils/utils.go:18-49 | Formatting two runs of lines is formatting the first and continuing from its state. |
| Format.PlainStep | internal/utils/utils.go:40-48 | A non-fence line outside a block adds exactly its rendered line and a newline. |
| Format.PlainLines | internal/utils/utils.go:40-48 | Outside a block, fence-free lines add their rendered lines, each newline-terminated, and change nothing else. |
| Format.CodeLines | internal/utils/utils.go:35-38 | Inside a block, fence-free lines are collected for the block and output nothing. |
| Format.FormatPlainText | internal/utils/utils.go:11-52 | Text without fences formats to one newline-terminated rendered line per input line. |
| Format.FormatMarkdown | internal/utils/utils.go:11-52 | The output is made of whole lines: it is empty or ends in a newline. Format.FormatPlainText, Format.ClosedBlock and Format.UnclosedBlockVanishes state what the lines are. |
| Format.UnclosedBlockVanishes | internal/utils/utils.go:18-51 | A code block that is never closed contributes nothing to the output. |
| Format.ClosedBlock | internal/utils/utils.go:19-33 | An opening fence, fence-free lines and a closing fence add exactly the rendered code block with the opening fence's language, and leave no block open. |
| Format.PadRight | internal/utils/utils.go:130-136 | The result is max(width, len) long, starts with s and is padded with spaces. |
| Format.PadLeft | internal/utils/utils.go:138-144 | The result is max(width, len) long, ends with s and is preceded by spaces. |
| Format.Center | internal/utils/utils.go:146-154 | A string at least as wide is returned unchanged. Otherwise the result is exactly width long, with s after (width - len)/2 spaces and spaces after it. The right pad exceeds the left pad by 0 or 1. |
| Format.CenterIsPadded | internal/utils/utils.go:146-154 | Centring is padding left to the left margin and then padding right to the width. |
| Format.WrapWordKeepsInvariant | internal/utils/utils.go:168-180 | Adding a word keeps every line newline-free and free of trailing spaces, and no wider than the width unless it is a single word. |
| Format.WrapWordFields | internal/utils/utils.go:168-180 | Adding a word appends exactly that word to the words of the lines. |
| Format.WrapWordsInvariant | internal/utils/utils.go:168-180 | Adding many words keeps the invariant and appends exactly those words in order. |
| Format.WrapOfInvariant | internal/utils/utils.go:162-184 | The wrapped lines of a text satisfy the invariant and hold exactly its words. |
| Format.WordWrapKeepsWords | internal/utils/utils.go:162-184 | The output's words are the input's words, in order. |
| Format.WordWrapLinesFit | internal/utils/utils.go:162-184 | Every output line with more than one word fits the width. |
| Format.WordWrapNoTrailingNewline | internal/utils/utils.go:162-184 | The output does not end in a newline. |
| Format.WordWrap | internal/utils/utils.go:162-184 | Its partner lemmas: Format.WordWrapKeepsWords (the same words in order), Format.WordWrapLinesFit (every line of more than one word fits the width) and Format.WordWrapNoTrailingNewline. |
| Format.ColorForFile | internal/utils/utils.go:186-204 | An extension not listed, after one leading dot is removed, gets white. Every result is one of the seven colours. |
| Format.ColorForFileDot | internal/utils/utils.go:186-204 | One leading dot is ignored. Two leading dots give white. |
| Format.ColorForFileGo | internal/utils/utils.go:186-204 | "go" and ".go" are green; "..go" is white. |
| Session.NameOf | internal/tui/app.go:99-169 | Each printed key name maps to a key that prints back the same. Exactly the eight names the code compares against are not Other. |
| Session.Initial | internal/tui/app.go:65-72 | The first state has an empty conversation and an empty input, is in chat mode and not streaming, and satisfies Valid. This is the base case for Session.UpdateKeepsValid. |
| Session.Update | internal/tui/app.go:99-169 | Its partner lemmas: Session.NonKeyEvents (resizes, ticks and outcomes have no effect and leave the conversation, input and palette alone), Session.HistoryOnlyGrows, Session.UpdateKeepsValid and Session.AtMostOneStreamInFlight. |
| Session.NonKeyEvents | internal/tui/app.go:100-166 | A resize, tick, completion or error never quits or starts a stream, and leaves the conversation, the input, the palette flag and the selection unchanged. |
| Session.RunAction | internal/tui/app.go:408-501 | Exit quits and changes nothing. Every other action closes the palette, clears its filter and has no effect. /clear leaves only the confirmation message. Every other action appends one assistant reply. Input, streaming, provider, model, selection and spinner frame are unchanged. |
| Session.FindCommand | internal/tui/app.go:176-181 | The command found has exactly that name. If none is found, no command from that index on has it. |
| Session.HandleCommand | internal/tui/app.go:171-184 | A command never starts a stream, keeps the streaming flag, the selection and the spinner frame, and changes the conversation only as a step may. |
| Session.SendMessage | internal/tui/app.go:186-204 | The conversation gains exactly one message at the end, the user's input, and is otherwise unchanged. The input empties, streaming starts, and the stream is given that input. |
| Session.FirstMatch | internal/tui/app.go:283-291 | The first command from the index on whose lower-cased name contains the lower-cased filter, or None when none does. |
| Session.Filter | internal/tui/app.go:283-291 | Typing extends the filter. The selection moves to the first matching command of the unfiltered list, or stays when none matches. A valid selection stays valid. Nothing else changes. |
| Session.UpdatePalette | internal/tui/app.go:255-295 | Its partner lemmas: Session.PaletteFacts, Session.PaletteKeepsInput and Session.PaletteKeepsValid. |
| Session.PaletteKeepsInput | internal/tui/app.go:255-295 | No palette key edits the chat input, and the palette quits only on Enter (running /exit). |
| Session.ChatKey | internal/tui/app.go:111-146 | A chat-mode key keeps the spinner frame and keeps the selection or resets it to 0. It changes the conversation only as a step may. It starts a stream only on Enter while not streaming, carrying the input and setting streaming. |
| Session.Exchange | internal/tui/app.go:206-253 | An empty key gives "API key not set for provider: <p>". Otherwise one request is built, and the exchange completes exactly when the provider call returns no error, whose text becomes the error event. |
| Session.CommandNames | internal/tui/app.go:81-90 | Every command name starts with "/" and the lookup finds exactly that command. |
| Session.SubmitPrompt | internal/tui/app.go:122-131 | Enter with non-command input while idle appends exactly one user message with the input, clears the input, sets streaming and starts a stream with the input. Nothing else but the spinner changes. |
| Session.EnterIgnored | internal/tui/app.go:122-125 | Enter while streaming, or with empty input, changes nothing. |
| Session.UnknownCommand | internal/tui/app.go:171-184 | An unknown /x appends "Unknown command: /x" from the assistant, clears the input and has no effect. |
| Session.KnownCommand | internal/tui/app.go:171-184 | An exact command name runs that command's action and leaves the input untouched. |
| Session.ClearCommand | internal/tui/app.go:430-440 | /clear leaves exactly one message, "Chat history cleared." from the assistant. |
| Session.ClearingIgnoresStreaming | internal/tui/app.go:133-141 | Whether or not a reply streams, Ctrl+U empties the input and Backspace drops the last character of a non-empty input. On an empty input Backspace does nothing. |
| Session.TypingIgnoresStreaming | internal/tui/app.go:143-146 | Whether or not a reply streams, typed runes are appended to the input and nothing else changes. |
| Session.OpenPalette | internal/tui/app.go:111-116 | Ctrl+P opens the palette with an empty filter and the first command selected. |
| Session.CtrlCQuitsOnlyInChat | internal/tui/app.go:107-120 | Ctrl+C quits in chat mode and does nothing while the palette is open. |
| Session.EscapeClosesPalette | internal/tui/app.go:256-260 | A key whose printed name is the literal "escape" closes the palette and clears the filter. |
| Session.PaletteTyping | internal/tui/app.go:283-292 | Runes typed in the palette go through the filter step and extend the filter. |
| Session.PaletteFacts | internal/tui/app.go:255-295 | No palette key starts a stream or changes streaming or the spinner. The conversation changes only as a step may. |
| Session.PaletteKeepsValid | internal/tui/app.go:262-292 | Up, Down, Enter and typing keep the selection within the command list. |
| Session.UpdateKeepsValid | internal/tui/app.go:99-169 | Every event keeps the selection within the command list and the spinner frame below 10. |
| Session.StreamOutcomeEvents | internal/tui/app.go:156-165 | Completion and failure both clear streaming. Only failure sets the error text. Neither touches the messages or the input. |
| Session.AtMostOneExchange | internal/tui/app.go:122-131 | A stream starts only on Enter in chat mode while not streaming. It carries the input, and the step leaves the state streaming. |
| Session.StreamingPersists | internal/tui/app.go:99-169 | While streaming, every event other than a completion or an error keeps streaming set and starts no stream. |
| Session.AtMostOneStreamInFlight | internal/tui/app.go:99-169 | Over any run of events with no outcome among them, at most one stream starts, none starts if one was already streaming, and once one has started the state is still streaming at the end. So at most one exchange is in flight. |
| Session.HistoryOnlyGrows | internal/tui/app.go:99-169 | Every event keeps the conversation, appends one message, or (for /clear) replaces it with the confirmation. |
| Session.TickStep | internal/tui/app.go:150-154 | A tick advances the spinner frame modulo 10 and changes nothing else. |
| Session.TicksAdvanceFrame | internal/tui/app.go:150-154 | N ticks advance the frame by N modulo 10 and change nothing else. |
| Session.EscLeavesPaletteOpen | internal/tui/app.go:256-260 | A key printed "esc" is an ordinary key in the palette, so it leaves the palette open and its filter as it was. |
| Session.EscClosesPalette | internal/tui/app.go:256-260 | Corrected: with "esc" classified as the escape key, pressing it closes the palette and clears the filter. |
| Session.IntendedNameOf | internal/tui/app.go:256-260 | Corrected classification: exactly "esc" and "escape" are the escape key, and every other name the code tests is still recognised. |

## Left out

- HTTP transport, reading the body and the bufio reader are not modelled. A request is handed to a `transport` parameter, and the body arrives as a string whose newline-terminated lines are decoded.
- JSON encoding and decoding are not modelled. Request bodies are datatypes. Parsing a stream frame is the parameter `extract`, which yields the extracted text field, no field, or Malformed. Saving then loading a configuration is taken as the identity.
- The Marshal error in SendMessage cannot happen for these bodies and is not modelled.
- Wire.SendMessage: when the key is set, a request is always built. The code can fail earlier, in http.NewRequestWithContext, on a URL that does not parse (internal/providers/provider.go:91-94), for example a Google model name containing "%zz". That failure is folded into `transport`, which returns it as a TransportFailure. The user sees the same thing either way: an error and no text.
- Header names are kept as written, with no canonicalisation.
- The concurrency in streamResponse (goroutine, mutex, pointer to the model) is not modelled. It is reduced to one completion or error event. The streamed assistant text, the message appended through the pointer and the config saves made there are not modelled, because they happen outside Update.
- Session.StreamOutcome: has no contract of its own. It only supplies the two-message conversation, and Session.Exchange carries the contract.
- The project context that GetProjectContext reads from the filesystem is a parameter. ReadFile and WriteFile sit outside the pure part of EditFile that is modelled. SearchFiles, GetGitInfo, RunCommand and the config directory are left out, because they only do file and process I/O.
- The config file save inside ClearHistory and SetAPIKey is not modelled. Config.SetApiKeyPersists states the load-set-save round trip instead.
- Session.ClearCommand: the step does not rewrite the saved history. The code does this through config.ClearHistory (internal/tui/app.go:431). That is a file write outside the step and no tea.Cmd, so no effect stands for it. Config.ClearHistory models what it does to the configuration.
- Go's nil and empty maps and slices are not told apart. The defaultConfig map shared between calls is not modelled.
- The `fmt.Sscanf` line-number scan in ParseFileEdits is the parameter `scan`.
- The regex-based inline formatting (bold, italic, inline code) is the parameter `inline`. formatLinks is the identity in the code and is covered by that parameter too. StripANSI is left out because it is regex-based.
- Truncate is left out because it depends on runewidth. Display width is taken as string length, the ASCII case.
- Session.ClearingIgnoresStreaming: Backspace drops the last character. The code drops the last byte; the two agree on ASCII input.
- Session.FirstMatch: Text.ToLower lowers only the characters that Go's strings.ToLower maps to ASCII: the ASCII capitals, U+0130 (to i) and U+212A (to k). Every other character is left as it is, while Go may map it to another non-ASCII character. Neither form can occur in the lower-cased ASCII command names, so no command matches either way.
- Session.UpdatePalette: Backspace drops the last character of the filter. The code drops the last byte (internal/tui/app.go:278-279); the two agree when the filter ends in an ASCII character.
- Temperature is an opaque real and is never computed on.
- Rendering (View and the lipgloss styles), Init, the tea.Tick scheduling of the spinner and window-size clamping of the layout are not modelled.
- cmd/root.go (cobra commands and printing) is not part of this model.

## Findings

| source | as written | input that shows it | evidently intended | confidence | as-written member | corrected member |
|---|---|---|---|---|---|---|
| internal/handlers/handlers.go:115-126 | A line missing from one text is compared as "", so an added or removed empty line compares equal to nothing and is printed as unchanged | ShowDiff("a", "a\n") prints "  2: " instead of "+ 2: " | A line present in only one text is always shown as added or removed, so each side of the diff gives back its text | not executed | Edits.AddedEmptyLineShownUnchanged | Edits.ShowDiffAlignedRecovers |
| internal/tui/app.go:256-260 | The palette closes on a key whose printed name is "escape" | Pressing Esc, which Bubble Tea prints as "esc", with the palette open leaves it open | Esc closes the palette and clears its filter | not executed; rests on Bubble Tea's key names, which are not part of this model | Session.EscLeavesPaletteOpen | Session.EscClosesPalette |
