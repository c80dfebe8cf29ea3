# ChitChat renderer core in Dafny

ChitChat is a desktop chat client for a local Ollama server. Its renderer
keeps three registries and runs one pipeline:

- **Backend registry** (`Configs`): named backends (host, port, context turns,
  description), one of them active. The registry validates the settings
  form, edits or creates a backend, activates the first one created, and
  deletes backends. Deleting the active backend clears the active id, the
  selected model and the model list.
- **System prompt registry** (`Prompts`): one current prompt per
  (backend, model) pair, plus a version history of at most 50 entries,
  newest first. Saving a prompt pushes it onto the history. A version can be
  made current again or deleted; deleting the current version promotes the
  newest remaining one.
- **Conversation store** (`Conversations`): conversations kept newest first.
  Each new message refreshes the conversation's time and its exchange count
  (half the number of messages), then the list is re-sorted. At count 1, 2,
  3, 5, 8 and every multiple of 8 after that, a title request starts, at most
  once per count and never after a manual rename. The store also pins,
  deletes and renames conversations.
- **Send pipeline** (`Send`): checks run first (blank input, no backend or
  model, server shown as unreachable). Then the request's message list is
  assembled: system prompt, the last `2 * contextTurns` messages, the new
  message. The streamed NDJSON reply is folded into its text, token counts
  and first-token time. The user message gets its prompt tokens back-filled.
  A reply is stored only when the stream produced text, and a failed request
  stores none. Loading a conversation selects its model, and changing the
  model away from one with messages starts a new conversation once confirmed.
- **Display helpers** (`Display`): the duration badge (`450ms`, `12s`,
  `2m5s`), the model label (`gemma3:latest` is shown as `Gemma3`) and the
  title schedule.

`Text` models JavaScript's `trim` and decimal rendering. `Lists` holds
`find`, `filter`, `splice` and `slice(-n)`. `Wrappers` holds `Option`.

Mutable state lives in classes. Each method states its whole new state,
most of them as a pure function of the old state and the inputs (for example
`AddMessageOutcome`, `BackfillOutcome` and `ExchangeOutcome`), and the lemmas
about those functions state what the code promises. The clock, generated ids and the
server's reply are parameters. `currentConversation` is the id of a
conversation in the list.

## Model

| member | source | states |
|---|---|---|
| Text.Trim | renderer.js:342 | the result has no whitespace at either end and is no longer than the input |
| Text.TrimKeepsMiddle | renderer.js:1058-1062 | trimming removes only a whitespace prefix and a whitespace suffix; the rest of the string is kept unchanged |
| Text.TrimIdempotent | renderer.js:1174-1175 | trimming a trimmed string changes nothing, so a stored prompt re-trims to itself |
| Text.BlankIffAllSpace | renderer.js:344 | `!s.trim()` holds exactly when every character is whitespace |
| Text.TrimNonBlank | renderer.js:1174-1177 | a non-blank string trims to a non-empty, trimmed string |
| Text.NatToString | renderer.js:283 | the decimal text is non-empty, all digits, and has no leading zero except for 0 itself |
| Text.ParseNatToString | renderer.js:283 | reading the decimal text back gives the number |
| Text.NatToStringInjective | renderer.js:2134-2138 | different numbers have different decimal texts |
| Display.FormatDurationReadsBack | renderer.js:281-292 | the badge reads back as the exact ms below 1000, whole seconds below 60000, otherwise minutes and seconds with secs < 60 and mins*60+secs = ms/1000 |
| Display.ParseMinSecsText | renderer.js:289-291 | the `XmYs` badge text reads back as its minutes and seconds |
| Display.NextTitleMilestone | renderer.js:2076 | the next count after n at which a title is requested (1, 2, 3, 5, 8, then every multiple of 8), with none in between |
| Display.TitleScheduleUpTo24 | renderer.js:2222-2232 | up to 24, titles are requested at exactly 1, 2, 3, 5, 8, 16 and 24 |
| Display.BeforeColon | renderer.js:230 | `split(':')[0]`: the longest prefix without a colon, followed by a colon or the end |
| Display.ModelDisplayName | renderer.js:227-233 | "Assistant" when no model is selected; otherwise the name before the tag, same length, first letter upper-cased |
| Display.ModelDisplayNameExample | renderer.js:225 | `gemma3:latest` is shown as `Gemma3` |
| Lists.FindIndex | renderer.js:749 | the first index that satisfies the predicate; none exactly when no element does |
| Lists.FilterSingleOut | renderer.js:1129 | filtering out the single failing element is removing it at its index |
| Lists.LastN | renderer.js:415 | `slice(-n)`: the last n elements in order, or all of them when there are fewer or n is 0 |
| Configs.FindConfig | renderer.js:748-750 | `getActiveConfig`: the backend carrying the active id; none when no id is active or none carries it; with unique ids it is the only one |
| Configs.ReadConfigForm | renderer.js:1058-1067 | rejected exactly when name, host or port is blank; otherwise trimmed non-empty fields, trimmed description, turns defaulting to 10 |
| Configs.SaveSpec | renderer.js:1069-1101 | an edit keeps the count, the active id and every other backend; a create appends one backend found under its new id, active exactly when it is the only one; ids stay unique |
| Configs.WithoutIdRemovesOne | renderer.js:1129 | deleting by id removes exactly that backend, keeps the others in order, and leaves none with that id |
| Configs.ConfigRegistry.ActiveConfig | renderer.js:748-750 | the active backend is in the list and carries the active id; there is none exactly when no id is active or no backend carries it |
| Configs.ActiveModelSpec | renderer.js:2645-2650 | caching the model on the active backend keeps ids unique and every other backend; the active backend becomes the old one with that model |
| Configs.ConfigRegistry.SelectModel | renderer.js:2665-2673 | the model becomes the selected and the previous model and is cached on the active backend; nothing else changes |
| Configs.ConfigRegistry.SetActive | renderer.js:1045-1055 | an empty selection changes nothing; otherwise the selected id becomes active and nothing else changes |
| Configs.ConfigRegistry.Save | renderer.js:1057-1119 | a blank field changes nothing; otherwise the list and active id become the saved ones, and models are refetched exactly when the saved backend is active or the only one |
| Configs.ConfigRegistry.Delete | renderer.js:1121-1143 | empty or unknown selection changes nothing; otherwise that backend is removed, and if it was active the active id, selected model and model list are cleared |
| Prompts.PushHistory | renderer.js:1196-1216 | the new entry first, then the old entries, capped at 50 |
| Prompts.VersionNumber | renderer.js:1592 | versions are numbered from 1 to the length; the newest shows the length and the oldest 1 |
| Prompts.VersionNumbersOrdered | renderer.js:1592 | a newer entry shows a higher number, so the numbers are distinct |
| Prompts.VersionNumberOnto | renderer.js:1592 | every number from 1 to the length is shown by some entry |
| Prompts.SavePromptSpec | renderer.js:1171-1182 | a non-blank text becomes the trimmed current prompt and heads the history (at most 50); a blank text clears the prompt and keeps the history; other keys untouched |
| Prompts.SaveKeepsValid | renderer.js:1171-1216 | saving keeps every stored prompt trimmed and non-empty and every history 1 to 50 entries long |
| Prompts.PushOntoFullEvictsOldest | renderer.js:1211-1213 | pushing onto a full history drops exactly the oldest entry |
| Prompts.DeleteVersionSpec | renderer.js:1787-1874 | missing key or index changes nothing; otherwise exactly that entry goes; the newest remaining becomes current if the deleted one was current; with none left, key and prompt are both gone; other keys untouched |
| Prompts.DeleteKeepsValid | renderer.js:1787-1874 | deleting a version keeps the registry's invariant |
| Prompts.DeleteRenumbers | renderer.js:1592 | after a deletion, newer versions lose one number and older ones keep theirs |
| Prompts.PromptRegistry.GetSystemPrompt | renderer.js:1164-1168 | the stored prompt of the pair, which is trimmed and non-empty; empty exactly when none is stored |
| Prompts.PromptRegistry.GetPromptHistory | renderer.js:1219-1223 | the pair's stored history, at most 50 versions; none exactly when the pair has no history |
| Prompts.PromptRegistry.AddPromptToHistory | renderer.js:1196-1216 | the pair's history becomes the pushed one, prompts unchanged |
| Prompts.PromptRegistry.SetSystemPrompt | renderer.js:1171-1182 | the new state is the save outcome |
| Prompts.PromptRegistry.SetActiveFromHistory | renderer.js:1671-1676 | the chosen version becomes current without touching the history |
| Prompts.PromptRegistry.DeletePromptHistoryVersion | renderer.js:1787-1874 | the new state is the delete outcome, including the final history write that overrides the one inside `setSystemPrompt` |
| Conversations.NewConversationNumbered | renderer.js:2134-2138 | the default title is `Conversation #` followed by digits that read back as the conversation number |
| Conversations.AppendSpec | renderer.js:2252-2274 | exactly one message appended, the time moves to it, exchange count = messages/2, title requested exactly when not renamed, a milestone, and not already used |
| Conversations.AppendKeepsCounts | renderer.js:2260 | appending keeps the exchange count consistent with the messages |
| Conversations.TitleFiresOncePerMilestone | renderer.js:2269-2274 | a second append at the same exchange count does not request a title again |
| Conversations.RenamedNeverFires | renderer.js:2269 | a conversation renamed by hand never gets a generated title |
| Conversations.InsertByRecency | renderer.js:2263 | one insertion step adds exactly the element (multiset) |
| Conversations.InsertKeepsOrder | renderer.js:2263 | inserting into a newest-first list keeps it newest first |
| Conversations.SortByRecency | renderer.js:2263 | the sort returns a permutation of the list, newest first |
| Conversations.SortKeepsUnique | renderer.js:2263 | sorting keeps ids unique |
| Conversations.SortOfSorted | renderer.js:2263 | a list already newest first is left exactly as it is |
| Conversations.RemoveAtKeepsOrder | renderer.js:2544 | removing a conversation keeps the order and unique ids |
| Conversations.CreateSpec | renderer.js:2132-2151 | a new conversation with a fresh id and an up-to-date clock keeps the store valid, becomes current, is empty, and adds one to the count |
| Conversations.ConversationStore.CreateNewConversation | renderer.js:2132-2151 | a numbered conversation goes to the front and becomes current, with no messages |
| Conversations.AddMessageSpec | renderer.js:2235-2275 | adding a message keeps the store valid, creates a conversation only when none is current, appends exactly that message (a duration only on replies) to the current one, and keeps every other conversation |
| Conversations.ConversationStore.AddMessageToConversation | renderer.js:2235-2275 | the new list and current id are the add outcome (create when none is current, append, re-sort) and the returned flag is its title decision |
| Conversations.ConversationStore.TogglePinConversation | renderer.js:2518-2528 | flips the pin of that conversation only; unknown ids change nothing |
| Conversations.ConversationStore.DeleteConversation | renderer.js:2530-2551 | removes exactly that conversation; clears the current one if it was deleted; unknown ids change nothing |
| Conversations.ConversationStore.RenameConversation | renderer.js:2588-2601 | a non-blank title is stored trimmed and marks the conversation renamed; a blank one changes nothing |
| Conversations.BackfillSpec | renderer.js:510-517 | the back-fill keeps the store valid and the current id; the last message gets the tokens exactly when some were reported and it is the user's |
| Conversations.BackfillTouchesOnlyCurrent | renderer.js:510-517 | the back-fill changes only messages, and only those of the current conversation |
| Conversations.ConversationStore.BackfillPromptTokens | renderer.js:510-517 | the new list is the old one with only the current conversation's last (user) message given the token count, else unchanged |
| Send.ContextMessages | renderer.js:412-416 | the history window is the last min(M, 2N) messages, none when N <= 0 |
| Send.BuildMessagesSpec | renderer.js:398-427 | system prompt first exactly when there is one, then the last min(M, 2N) prior messages in order, then the new user message |
| Send.BuildMessagesSendsTextOnce | renderer.js:412-427 | corrected: with history, the message before the new one is the last prior message |
| Send.AsWrittenSendsTextTwice | renderer.js:374-427 | as written: with a positive turn setting, the new text is sent twice in a row |
| Send.AsWrittenHi | renderer.js:374-427 | as written: `hi` in an empty conversation is sent as two user messages |
| Send.CorrectedHi | renderer.js:398-427 | corrected: `hi` in an empty conversation is sent once |
| Send.FoldStream | renderer.js:447-492 | the read loop yields the streamed text, the last non-zero reply and prompt token counts, and the first-content time |
| Send.ResponseTextAppend | renderer.js:459-460 | the reply of two consecutive stream parts is the concatenation of their replies |
| Send.FirstContentTimeIffText | renderer.js:459-467 | a first-token time exists exactly when text arrived, and it is the time of the first line with content |
| Send.MalformedLineIgnored | renderer.js:488-490 | a line that does not parse changes none of the four results |
| Send.HelloStream | renderer.js:459-487 | `Hel`, a malformed line, `lo`, done(5, 12) gives `Hello`, 5, 12, first token at the first line |
| Send.PreFlight | renderer.js:342-369 | blank input is ignored; no backend or model gets a notice; a server shown unreachable is refused; the send goes ahead exactly when none applies |
| Send.SentMessagesSpec | renderer.js:495-527 | the user message (with prompt tokens exactly when reported) is stored; a reply is stored exactly when the stream had text, with a first-token time |
| Send.ReplySpec | renderer.js:510-527 | storing a reply keeps the store valid, the current id and the count; the user message gets its prompt tokens and a non-empty reply follows it |
| Send.ExchangeSpec | renderer.js:374-527 | a send that went out keeps the store valid, creates a conversation only when none is current, and adds exactly the sent messages to the current one |
| Send.StoreReply | renderer.js:510-527 | the new store is the back-fill followed by the reply's add; the flag is that add's title decision |
| Send.RecordExchange | renderer.js:374-527 | the new store is the user message's add followed by the reply stage; both title decisions are returned |
| Send.SendMessage | renderer.js:341-562 | the refusals change nothing; a send builds the corrected request, a network failure marks the server unreachable and nothing else changes the status, the new store is the exchange outcome with both title decisions returned, one conversation is added only when none was current, and exactly the sent messages are added |
| Send.LoadConversation | renderer.js:2277-2287 | an unknown id changes nothing; otherwise that conversation becomes current and its model the selected and previous one; the list is untouched |
| Send.ChangeModel | renderer.js:2637-2675 | a switch away from a previous model with messages present asks first and declining changes nothing; otherwise the model is selected and cached on the active backend, and a confirmed switch starts a new conversation with it |

## Left out

- Storage: `localStorage` persistence and JSON (de)serialisation. State lives in memory.
- Network: `fetch` and the HTTP/NDJSON transport. The server's answer is a `Response` parameter, which stands for the whole stream already cut into lines.
- Transport details: the network is not modelled, so the chunking of the stream is not either. The code splits each chunk on `\n` separately, so a record split across two chunks fails to parse and is lost. The model assumes every chunk ends on a line boundary.
- Model fetching and the connection check (`fetchAvailableModels`, `checkBackendConnection`): both are network calls. `Save` reports only whether the model list would be refetched.
- Title generation (`generateConversationTitle`): it is an HTTP call. The model reports only when the request would start.
- DOM and UI: rendering, scrolling, modals, context menus, on-screen notices and error texts, the live duration counter, the clock display, and the config form's change tracking.
- Clock: `Date.now()` and ISO timestamps are nat parameters (milliseconds).
- No backward clock: `CreateNewConversation` requires a clock reading no earlier than any stored conversation. The code puts a new conversation at the front without re-sorting, so it relies on the clock never running backwards.
- Ids: `generateId` and the conversation id are parameters, required to be unused. The code's time-and-random ids are taken to be fresh.
- `confirm()` prompts are taken as answered yes, except the model switch's, whose answer is the `confirmed` parameter of `ChangeModel`.
- Model selector UI: reverting the dropdown after a declined switch and re-rendering the message list after `loadConversation` are display only.
- Prompt keys: a prompt's storage key is the (backend id, model name) pair. The code's `configId::modelName` string key would make two pairs collide when the parts contain `::`.
- Turns field: `parseInt`'s NaN is not modelled. The turns field is `Option<int>`, where None is the empty field.
- Stored configs without `contextTurns` (written before the field existed) are not modelled. In the model every config carries the value, as the form supplies 10 by default.
- Text.ToUpper: covers ASCII `a`-`z` only, where JavaScript's `toUpperCase` covers all of Unicode, including characters that upper-case to two.
- Conversations.SortByRecency: proved to be a sorted permutation, not proved stable. It is written as a stable insertion sort, like `Array.prototype.sort`.
- Concurrency: the awaits inside `handleSendMessage` are not modelled. A conversation deleted or switched while a reply streams in is outside the model.

## Findings

| source | as written | input that shows it | evidently intended | confidence | as-written member | corrected member |
|---|---|---|---|---|---|---|
| renderer.js:374-427 | the user message is added to the conversation (line 374) before the last `2 * contextTurns` messages are sliced (line 415), so the slice already ends with it, and it is pushed again as the final message | an empty conversation, contextTurns 10, input `hi`: the request holds two `user`/`hi` messages | the history window holds only the messages before the new one, and the new message is sent once, last | high, not executed | Send.AsWrittenSendsTextTwice | Send.BuildMessagesSendsTextOnce |
