# selfbot core in Dafny

This project models the core of a Discord self-bot written in JavaScript.

The bot account reads its own messages. A message whose trimmed text starts with the configured prefix names a command, and the rest of the message is the command's argument suffix.

Plugins are loaded from a configured list, and each registers its commands:
- `chat` registers `tag`, `code`, `purge` and `quote`;
- `status` registers `game`;
- `eval` registers `eval`.

Every call the bot makes to the chat service goes through a queue per channel. The head request of a queue is retried when the service answers HTTP 429 (rate limited).

The model covers:
- **JsString** (`jsstring.dfy`): the JavaScript string operations the bot relies on, stated over `string`. These are `trim` with the ECMAScript white space set, `split(/[ \n]/)[0]`, `substring`, `startsWith`, ASCII `toLowerCase` and `join`.
- **Plugins** (`plugins.dfy`): the registry as values.
  - It holds the `{name, plugin}` entries and the command list they make up.
  - The catalog of the plugin modules that exist stands for `require`.
  - It defines what load-all, unload-all and reload leave behind, twice: as the code's `.catch(this.error)` intends (report each failure and go on), and as the code runs (the unbound `error` throws, so each walk stops at its first failure and reports nothing).
- **Router** (`router.dfy`): the parse part of `handleMessage` and the command lookup.
- **BotCore** (`bot.dfy`): the `Bot` class.
  - Its fields are the configuration, the plugin list, the table of per-channel queues and the log of what was emitted on the error channel.
  - `load`, `unload`, `reload`, `pushQueue` and the runs of `executeQueue` are methods that change those fields in place.
  - The batch forms of `load`, `unload` and `reload` come twice: as intended, and as the code runs them.
  - Whatever the environment decides arrives as a parameter: whether a plugin's hook succeeds, and how a request ends.
- **Tags** (`tag.dfy`): the `tag` command.
  - The tag collection is a sequence of documents in insertion order, kept in a `TagStore` class.
  - The model covers sub-command dispatch, lookup, set, make-global, remove, list and show.
- **Game** (`game.dfy`): the `game` command over the client's current-game field.
- **Purge** (`purge.dfy`): the `purge` command.
  - It includes `parseInt`: white space, sign, `0x`, digit prefix, NaN.
  - The deletion loop runs over a channel log, newest message first.
- **Code** (`code.dfy`): the `code` command's extraction of language and code, and its dot rewrite.
- **Quote** (`quote.dfy`): `wordwrap` of the `quote` command.
  - It splits the text into an array of lines and wraps each line in place with the source's nested loops.
  - It then joins the lines and strips the spaces after every line feed.

## Model

| member | source | states |
|---|---|---|
| JsString.Trim | src/bot/index.js:230 | `trim` leaves no white space at either end |
| JsString.TrimIsInfix | src/bot/index.js:230 | `trim` removes white space at both ends and nothing else: the result is a slice of the input with only white space outside it |
| JsString.FirstToken | src/bot/index.js:234 | `split(/[ \n]/)[0]` is the prefix of the text up to the first space or newline, and holds neither |
| JsString.From | src/bot/index.js:235-236 | `substring(i)` is the suffix from `i`, or empty once `i` passes the end |
| JsString.TokenAndRest | src/bot/index.js:234-236 | for `head + " " + tail`, the first token is `head` and the trimmed rest after it is `tail` |
| JsString.ToLower | src/bot/plugins/chat/commands/tag.js:16 | lowercasing keeps the length and lowers each character |
| Plugins.IndexOf | src/bot/index.js:191 | `findIndex` by name: the first entry with that name, and `None` exactly when no entry has it |
| Plugins.Commands | src/bot/index.js:251-255 | the `commands` getter: each loaded plugin's commands, concatenated in load order (its properties are the next two rows) |
| Plugins.CommandsFromPlugins | src/bot/index.js:251-255 | a command is in the command list exactly when some loaded plugin registered it |
| Plugins.CommandsAppend | src/bot/index.js:251-255 | appending a plugin appends its commands after all earlier ones |
| Plugins.AfterLoad | src/bot/index.js:156-167 | a load appends at most one entry and keeps the others in place; it appends exactly when the name is not taken and a module of that name exists, whether or not its init succeeds |
| Plugins.LoadError | src/bot/index.js:156-167 | a load fails unless the name is free, its module exists and its init succeeds; a failure other than the init's leaves the registry unchanged |
| Plugins.AfterLoadAll | src/bot/index.js:150-154 | the intended load-all: each configured name loaded in turn; it adds at most one entry per name |
| Plugins.LoadAllErrors | src/bot/index.js:150-154 | the intended load-all reports at most one failure per configured name |
| Plugins.AfterLoadKeepsUnique | src/bot/index.js:156-167 | a load never registers a second entry under a name |
| Plugins.AfterLoadAllKeepsUnique | src/bot/index.js:150-154 | load-all keeps plugin names unique |
| Plugins.AfterLoadAllExtends | src/bot/index.js:150-154 | load-all only appends: the earlier entries stay in place |
| Plugins.AfterLoadAllRegisters | src/bot/index.js:150-168 | after the intended load-all, which reports each failure and goes on, a plugin is registered exactly when it was before, or its name is configured and a module of that name exists |
| Plugins.AfterLoadAllEntries | src/bot/index.js:150-168 | every entry load-all adds is a configured name carrying the commands its module registers |
| Plugins.Surviving | src/bot/index.js:184-188 | the intended unload-all over a snapshot: it never adds an entry |
| Plugins.UnloadAllErrors | src/bot/index.js:184-188 | the intended unload-all reports one teardown failure per remaining entry, in the order of the remaining entries |
| Plugins.SurvivingMembers | src/bot/index.js:184-195 | after the intended unload-all, an entry remains exactly when it was loaded and its own teardown failed, whatever the other teardowns do |
| Plugins.SurvivingAllOk | src/bot/index.js:184-195 | when every teardown succeeds, unload-all empties the registry |
| Plugins.SurvivingKeepsUnique | src/bot/index.js:184-195 | unload-all keeps names unique |
| Plugins.AfterReload | src/bot/index.js:207-219 | the intended reload: the entries that survive unload-all stay at the front, and load-all appends after them |
| Plugins.ReloadForgetsPrevious | src/bot/index.js:207-219 | with teardowns that succeed, the registry after the intended reload depends only on the new configuration |
| Plugins.ReloadIdempotent | src/bot/index.js:207-219 | reloading twice with the same configuration gives the same registry and command set as reloading once |
| Plugins.ReloadCommandSet | src/bot/index.js:207-219 | after an intended reload with successful teardowns, the command set is exactly the commands of the configured plugins that exist |
| Plugins.LoadAllWalk | src/bot/index.js:135-168 | load-all as written: names are loaded in turn until one fails; the registry only grows at its end |
| Plugins.LoadAllWalkIsPrefix | src/bot/index.js:135-168 | load-all as written leaves what the intended load-all leaves after the names up to the one it stopped at, and its stop is the one failure the intended walk reports over those names; when it does not stop, the two agree and nothing fails |
| Plugins.MissingStopsLoadAll | src/bot/index.js:150-168 | a configured name without a module stops load-all as written with nothing registered, while the intended walk registers the plugin listed after it |
| Plugins.MissingThenChat | src/bot/index.js:150-168 | with the configuration `["missing", "chat"]`, load-all as written stops at "missing" and never loads "chat"; the intended walk loads "chat" |
| Plugins.UnloadAllWalk | src/bot/index.js:135-198 | unload-all as written: the snapshot's entries are torn down in turn until one fails; what stays is a suffix of the snapshot, empty exactly when nothing failed |
| Plugins.UnloadAllWalkStopsAtFirstSurvivor | src/bot/index.js:135-198 | unload-all as written stops exactly when the intended walk keeps an entry, at the first kept entry and with the first failure the intended walk reports; every entry the intended walk keeps also stays |
| Plugins.FailedTeardownStopsUnloadAll | src/bot/index.js:184-198 | as written, after a failed teardown the next entry stays even though its teardown would succeed; the intended walk removes it |
| Plugins.ReloadWalk | src/bot/index.js:207-219 | reload as written: when unload-all stops it stops with it and loads nothing; otherwise it is load-all as written on an empty registry |
| Plugins.ReloadWalkAgrees | src/bot/index.js:207-219 | with teardowns that succeed, reload as written also forgets the previous registry; when its load-all does not stop, it leaves the registry and command set of the intended reload |
| Router.Parse | src/bot/index.js:224-236 | `None` exactly when the author is not the bot account or the trimmed text lacks the prefix; otherwise the name and suffix are trimmed, and the name has no separator |
| Router.FindCommand | src/bot/index.js:239 | `find` by name: the first command of that name, or `None` when none has it |
| Router.Route | src/bot/index.js:224-243 | a message runs a command only if it is the bot's own and starts with the prefix; the command run is the one `FindCommand` picks for the parsed name, so the first registered command of that name; nothing runs when no command has that name |
| Router.ParseCommandLine | src/bot/index.js:230-236 | `prefix + name + " " + suffix` by the bot parses back into `name` and `suffix` |
| Router.RouteCommandLine | src/bot/index.js:224-243 | a bot command line whose name is registered runs the first registered command of that name with the rest of the line as its suffix |
| Router.RouteCodeExample | src/bot/index.js:224-243 | "!code python print(1)" runs the first command named "code" with the suffix "python print(1)" |
| BotCore.Bot.constructor | src/bot/index.js:147-219 | a new bot has no plugins, no queues and no reported errors |
| BotCore.Bot.Load | src/bot/index.js:155-170 | a taken name fails as already loaded and changes nothing; an unknown module fails and changes nothing; otherwise the entry is appended before init runs, and a failing init is reported but leaves the entry registered |
| BotCore.Bot.LoadAll | src/bot/index.js:150-154 | the intended load-all: every configured plugin is loaded in turn; each failure is appended to the error log and the walk goes on |
| BotCore.Bot.LoadNext | src/bot/index.js:153 | one step of the intended load-all: the registry is what the load leaves, and its failure, if any, is reported |
| BotCore.Bot.LoadAllAsWritten | src/bot/index.js:135-168 | load-all as written: the registry and the failure it stopped at are those of `LoadAllWalk`; nothing is emitted on the error channel |
| BotCore.Bot.Unload | src/bot/index.js:189-198 | an absent name fails and changes nothing; a failing teardown leaves the registry unchanged; otherwise exactly that entry is removed and the rest keep their order |
| BotCore.Bot.UnloadAll | src/bot/index.js:184-188 | the intended unload-all: every entry of a snapshot is unloaded in turn; the entries whose teardown failed remain, and their errors are reported in order |
| BotCore.Bot.UnloadNext | src/bot/index.js:186-188 | one step of the intended walk over the snapshot: the next entry sits right after the survivors, and it leaves unless its teardown fails |
| BotCore.Bot.UnloadHead | src/bot/index.js:186-187 | one step of unload-all as written: the first entry leaves when its teardown succeeds; otherwise the registry is unchanged and the failure is returned |
| BotCore.Bot.UnloadAllAsWritten | src/bot/index.js:135-198 | unload-all as written: the registry and the failure it stopped at are those of `UnloadAllWalk`; nothing is emitted on the error channel |
| BotCore.Bot.Reload | src/bot/index.js:207-219 | the intended reload: it unloads all, installs the new configuration and loads all; the queues are untouched |
| BotCore.Bot.ReloadAsWritten | src/bot/index.js:207-219 | reload as written: the registry and the failure are those of `ReloadWalk`; the new configuration is installed only when unload-all did not stop; nothing is emitted |
| BotCore.QueueKey | src/bot/index.js:292-298 | the queue key: the resolved channel's id, or `''` when resolution fails |
| BotCore.Pending | src/bot/index.js:277-280 | the requests waiting under a key, with a missing queue read as an empty one |
| BotCore.Bot.PushQueue | src/bot/index.js:264-299 | the request joins the queue of the resolved channel, or of `''`; a missing queue is created; execution starts exactly when the queue was empty |
| BotCore.Bot.Shift | src/bot/index.js:323 | `queue.shift()`: the head leaves the queue and joins the settled log; the other queues stay |
| BotCore.Drain | src/bot/index.js:309-347 | the chain of `executeQueue` runs on one queue, each fed the next call outcome, until the queue empties or the outcomes run out (its properties are the Drain rows below) |
| BotCore.Bot.Step | src/bot/index.js:309-347 | an empty queue settles nothing; success resolves and shifts the head; 429 keeps the head; any other status rejects the head, reports it and shifts it |
| BotCore.Bot.Execute | src/bot/index.js:309-347 | the chain of runs on one queue equals the drain specification; only that queue changes; errors grow by exactly the reported rejections |
| BotCore.DrainInOrder | src/bot/index.js:309-347 | first in, first out: the settled requests are the head of the queue in order, the remaining ones are its tail, and the chain stops early only when the queue is empty |
| BotCore.DrainRateLimited | src/bot/index.js:329-335 | as long as every call is rate limited, nothing is settled, reported or removed |
| BotCore.DrainReportsRejections | src/bot/index.js:336-340 | exactly the rejected requests are reported on the error channel, in order |
| BotCore.DrainAllSucceed | src/bot/index.js:318-326 | when every call succeeds and there are enough calls, the queue empties and every request is resolved in order |
| BotCore.RetryThenSucceed | src/bot/index.js:318-335 | a head rate limited once and then successful is resolved first, and the rest follow in order |
| BotCore.LoadChatTwice | src/bot/index.js:156-159 | loading "chat" twice fails the second time as already loaded, with one entry registered |
| BotCore.RetryThenDrain | src/bot/index.js:275-347 | three requests to one channel, the first rate limited once, settle in submission order |
| BotCore.PushThenDrain | src/bot/index.js:275-347 | any three requests pushed to one channel of a new bot and executed against one rate limit answer and then successes settle in push order |
| Tags.ParseTagCommand | src/bot/plugins/chat/commands/tag.js:14-42 | the sub-command is the lowercased first token; `set`, `global`, `remove` and `list` dispatch; anything else shows the tag named by the whole suffix; the set tag is a trimmed token |
| Tags.ParseSetLine | src/bot/plugins/chat/commands/tag.js:20-26 | `set <tag> <content>`, in any letter case, splits into the tag token and the trimmed content |
| Tags.ParseNameLine | src/bot/plugins/chat/commands/tag.js:27-34 | `global <name>` and `remove <name>`, in any letter case, take the trimmed rest as the name |
| Tags.Visible | src/bot/plugins/chat/commands/tag.js:55-61 | the `find` query: the entry has that name and the current server or `''` |
| Tags.NoSuchTag | src/bot/plugins/chat/commands/tag.js:105 | the "No such tag '<name>'" reply |
| Tags.GetTag | src/bot/plugins/chat/commands/tag.js:53-71 | the first stored entry with that name whose server is the current one or `''`; `None`, the fresh unsaved entry, when there is none |
| Tags.GetTagSkip | src/bot/plugins/chat/commands/tag.js:55-64 | entries that are not visible do not change which entry is found |
| Tags.ShowTag | src/bot/plugins/chat/commands/tag.js:166-178 | without content the reply is "No such tag"; otherwise the content is sent as it is and the asking message is deleted |
| Tags.FoundContent | src/bot/plugins/chat/commands/tag.js:55-70 | the content of the entry found, empty for the fresh entry |
| Tags.TagStore.SetTag | src/bot/plugins/chat/commands/tag.js:80-92 | an empty tag or content replies "Invalid tag" and changes nothing; otherwise the found entry gets the content, or a new entry for the current server is added; ids stay unique, and the id counter moves only when a new entry is saved |
| Tags.AfterSet | src/bot/plugins/chat/commands/tag.js:84-89 | the store after a valid set: the found entry gets the content, or a new entry for the current server is appended |
| Tags.ShowAfterSet | src/bot/plugins/chat/commands/tag.js:80-92 | after `set`, showing the tag from that server yields the new content |
| Tags.SetKeepsOtherTags | src/bot/plugins/chat/commands/tag.js:84-89 | `set` changes no entry of another name |
| Tags.TagStore.MakeGlobal | src/bot/plugins/chat/commands/tag.js:100-118 | without content it replies "No such tag" and changes nothing; otherwise same-name entries of other servers are removed and the found entry becomes global |
| Tags.RemoveLocal | src/bot/plugins/chat/commands/tag.js:108-111 | the remove query keeps exactly the entries of another name or of the kept server |
| Tags.SetServer | src/bot/plugins/chat/commands/tag.js:114-115 | the document with that id gets the new server; every other field of it, and every other document, is unchanged, and so is the number of documents |
| Tags.AfterGlobal | src/bot/plugins/chat/commands/tag.js:107-115 | the store after a successful `global`: the remove query, then the found document's server set to `''` |
| Tags.RemoveLocalKeepsUnique | src/bot/plugins/chat/commands/tag.js:108-111 | the remove query keeps document ids unique |
| Tags.GlobalShownEverywhere | src/bot/plugins/chat/commands/tag.js:100-118 | a tag made global shows its content from every server |
| Tags.GlobalLeavesOneServer | src/bot/plugins/chat/commands/tag.js:107-115 | after `global`, every entry of that name is global or belongs to the found entry's server |
| Tags.GlobalKeepsOtherTags | src/bot/plugins/chat/commands/tag.js:107-115 | `global` changes no entry of another name |
| Tags.SetThenGlobal | src/bot/plugins/chat/commands/tag.js:80-118 | a tag saved and then made global shows its content from any server |
| Tags.TagStore.RemoveTag | src/bot/plugins/chat/commands/tag.js:126-137 | without content it replies "No such tag" and changes nothing; otherwise the found entry is deleted |
| Tags.AfterRemove | src/bot/plugins/chat/commands/tag.js:133-134 | the store after a successful `remove`: the found document is deleted |
| Tags.RemoveOnlyThat | src/bot/plugins/chat/commands/tag.js:133-134 | removal deletes the found document and no other |
| Tags.ShowAfterRemove | src/bot/plugins/chat/commands/tag.js:126-137 | after removal, the name shows the next visible entry of that name, if any |
| Tags.VisibleFrom | src/bot/plugins/chat/commands/tag.js:146-151 | the list query keeps exactly the stored entries of the current server and the global ones |
| Tags.ListTags | src/bot/plugins/chat/commands/tag.js:144-157 | the `list` reply: the labels of the listed entries joined by "\n" |
| Tags.Listed | src/bot/plugins/chat/commands/tag.js:144-151 | the listed entries are exactly those of the current server and the global ones, as many as stored, sorted by tag |
| Tags.SortByTag | src/bot/plugins/chat/commands/tag.js:146 | the sort is a permutation, ascending by tag |
| Tags.TagLeTotal | src/bot/plugins/chat/commands/tag.js:146 | any two tags are ordered one way or the other |
| Tags.TagLeTrans | src/bot/plugins/chat/commands/tag.js:146 | the tag order is transitive |
| Tags.InsertSorted | src/bot/plugins/chat/commands/tag.js:146 | inserting into a sorted list keeps it sorted |
| Tags.Labels | src/bot/plugins/chat/commands/tag.js:154 | one label per listed entry, global ones marked " *" |
| Tags.TagStore.Process | src/bot/plugins/chat/commands/tag.js:14-45 | each sub-command changes the store and replies as its handler does; `list` and showing change nothing; only a set that inserts uses up a fresh id |
| Game.ShowReply | src/bot/plugins/status/commands/game.js:25-32 | the reply to showing: the game's name, or "<No game set>" |
| Game.ParseGame | src/bot/plugins/status/commands/game.js:12-24 | `set` and `clear` are recognised by the lowercased first token; the game set is the trimmed rest after `set` |
| Game.Client.Process | src/bot/plugins/status/commands/game.js:9-36 | `set` stores the game, `clear` stores none, anything else leaves it and replies with its name or "<No game set>" |
| Game.ParseSetLine | src/bot/plugins/status/commands/game.js:12-18 | `set <game>`, in any letter case, sets the trimmed game |
| Game.ParseOtherShows | src/bot/plugins/status/commands/game.js:26-32 | any other first token shows the game |
| Game.SetThenShow | src/bot/plugins/status/commands/game.js:14-32 | setting a game and then asking shows that game |
| Game.ClearThenShow | src/bot/plugins/status/commands/game.js:20-32 | clearing and then asking shows "<No game set>" |
| Purge.ParseInt | src/bot/plugins/chat/commands/purge.js:11 | `parseInt`: leading white space skipped, then the signed number read by `ParseSigned`; its properties are the Parse rows below |
| Purge.ParseSigned | src/bot/plugins/chat/commands/purge.js:11 | `parseInt` after the white space: an optional sign, `0x` for hexadecimal, the digit prefix, NaN without digits |
| Purge.DigitPrefix | src/bot/plugins/chat/commands/purge.js:11 | the digits `parseInt` reads: the longest prefix of digits of the radix |
| Purge.Decimal | src/bot/plugins/chat/commands/purge.js:11 | the decimal numeral of a number is digits without a leading zero |
| Purge.PurgeCount | src/bot/plugins/chat/commands/purge.js:11-14 | a count is accepted exactly when `parseInt` gives a number of at least 1 |
| Purge.DecimalValue | src/bot/plugins/chat/commands/purge.js:11 | a numeral reads back as its number |
| Purge.ParseDecimal | src/bot/plugins/chat/commands/purge.js:11 | `parseInt` reads back any natural number's numeral, also when other text follows |
| Purge.ParseNegative | src/bot/plugins/chat/commands/purge.js:11-12 | a minus sign negates, so such a count is refused |
| Purge.ParseSkipsSpace | src/bot/plugins/chat/commands/purge.js:11 | leading white space does not change the number |
| Purge.ParseNaN | src/bot/plugins/chat/commands/purge.js:11-12 | text starting with neither digit nor sign is NaN |
| Purge.ParseHexExample | src/bot/plugins/chat/commands/purge.js:11 | "0x1f" reads as 31 |
| Purge.Window | src/bot/plugins/chat/commands/purge.js:20 | `getChannelLogs(msg, 100)`: the 100 most recent messages, or all when fewer |
| Purge.ByAuthor | src/bot/plugins/chat/commands/purge.js:20-21 | the filter by author, in log order |
| Purge.ByAuthorIn | src/bot/plugins/chat/commands/purge.js:20-21 | the filter keeps exactly the author's messages of the log |
| Purge.ByAuthorWindow | src/bot/plugins/chat/commands/purge.js:19-21 | the author's messages among the 100 most recent are the author's newest messages |
| Purge.DeleteNewest | src/bot/plugins/chat/commands/purge.js:26-28 | deleting the author's newest message takes it off the front of the author's messages and touches nobody else's |
| Purge.NextRound | src/bot/plugins/chat/commands/purge.js:22-29 | a round's messages are the next of the author's messages after those already deleted |
| Purge.Channel.Process | src/bot/plugins/chat/commands/purge.js:9-34 | an invalid count replies "Invalid number" and deletes nothing; otherwise at most count + 1 of the author's newest messages are deleted, newest first, nobody else's, and the rest of the log keeps its order; it stops early only when the last 100 messages hold none of the author's |
| Purge.Channel.DeleteOwn | src/bot/plugins/chat/commands/purge.js:17-31 | deletes at most `count` of the author's newest messages, newest first, and nobody else's; the new log is the old one without exactly those messages, in its old order; it stops short of `count` only when the last 100 messages hold none of the author's |
| Purge.Channel.Delete | src/bot/plugins/chat/commands/purge.js:27 | `deleteMessage`: the message with that id leaves the log and nothing else does |
| Purge.Channel.DeleteRound | src/bot/plugins/chat/commands/purge.js:26-28 | deleting a round's messages one by one leaves the old log without exactly them, in its old order, so they come off the front of the author's messages |
| Purge.WithoutIdsIn | src/bot/plugins/chat/commands/purge.js:26-28 | after deleting a set of ids, a message is left exactly when it was in the log and its id is not among them |
| Code.InsertZws | src/bot/plugins/chat/commands/code.js:23 | the rewrite is empty exactly when the code is, and never starts with a dot |
| Code.RemoveInsertZws | src/bot/plugins/chat/commands/code.js:23 | the rewrite loses nothing: dropping each zero width space before a dot restores the code |
| Code.InsertZwsGuardsDots | src/bot/plugins/chat/commands/code.js:23 | every dot of the rewrite follows a zero width space, and the length grows by the number of dots |
| Code.LanguageToken | src/bot/plugins/chat/commands/code.js:11 | the language token: the first space/newline-delimited token of the suffix, trimmed |
| Code.Process | src/bot/plugins/chat/commands/code.js:9-28 | as written: no language exactly when the first token is empty |
| Code.ProcessCommandLine | src/bot/plugins/chat/commands/code.js:15-24 | `language + " " + code` yields that language and code; a leading dash is dropped and turns on the dot rewrite |
| Code.NoneKeepsWord | src/bot/plugins/chat/commands/code.js:15-18 | as written, `none <code>` gives an empty language and a code that still starts with "none" |
| Code.NoneExample | src/bot/plugins/chat/commands/code.js:15-18 | "none x" gives the code "none x" as written, and "x" as intended |
| Code.ProcessIntended | src/bot/plugins/chat/commands/code.js:9-28 | as intended: no language exactly when the first token is empty |
| Code.NoneDropsWord | src/bot/plugins/chat/commands/code.js:15-18 | as intended, `none <code>` gives an empty language and the code after the word |
| Code.IntendedAgreesElsewhere | src/bot/plugins/chat/commands/code.js:15-18 | apart from `none`, the intended reading and the code as written agree |
| Quote.SplitLines | src/bot/plugins/chat/commands/quote.js:176 | splitting at CR LF, LF or CR gives at least one line, none holding a line break |
| Quote.SplitJoin | src/bot/plugins/chat/commands/quote.js:176-185 | splitting undoes joining with "\n" for lines without breaks |
| Quote.BreakAt | src/bot/plugins/chat/commands/quote.js:178-181 | the break falls at the width when the character there is white space; otherwise right after the last white space of the first width + 1 characters; at the width only when there is none |
| Quote.Pieces | src/bot/plugins/chat/commands/quote.js:177-181 | each piece of a line is at most the width long |
| Quote.PiecesCover | src/bot/plugins/chat/commands/quote.js:177-182 | the pieces put together are the line |
| Quote.WrapLine | src/bot/plugins/chat/commands/quote.js:177-182 | the inner loop on one line: pieces cut at `BreakAt` joined by "\n" while the rest is longer than the width (properties in the next rows) |
| Quote.WrapLines | src/bot/plugins/chat/commands/quote.js:176-183 | the outer loop: every line wrapped, one result per line |
| Quote.Wrap | src/bot/plugins/chat/commands/quote.js:176-185 | the whole wrap: split, wrap each line, join with "\n", strip the spaces after each line feed |
| Quote.WrapLinePieces | src/bot/plugins/chat/commands/quote.js:177-182 | a wrapped line is its pieces joined by "\n" |
| Quote.WordWrap | src/bot/plugins/chat/commands/quote.js:163-186 | with no width, 75; a width below 1 returns the text unchanged; otherwise the result is the wrap of every line, joined and stripped |
| Quote.WrapEntry | src/bot/plugins/chat/commands/quote.js:177-182 | the inner loop wraps one array entry in place and leaves the others |
| Quote.StripJoin | src/bot/plugins/chat/commands/quote.js:185 | the final replacement removes exactly the leading spaces of every line but the first |
| Quote.WrapShape | src/bot/plugins/chat/commands/quote.js:176-185 | the output is all pieces of all lines, all but the first without leading spaces, joined by "\n" |
| Quote.WrappedLines | src/bot/plugins/chat/commands/quote.js:176-185 | no output line is longer than the width, and no line but the first starts with a space |
| Quote.WrapKeepsText | src/bot/plugins/chat/commands/quote.js:176-185 | every character other than spaces and line breaks reaches the output, in its order |

## Left out

- `eval` (`src/bot/plugins/eval/commands/eval.js`): it evaluates arbitrary JavaScript with timers and races. Only its registration as a command appears in the plugin catalog.
- The `process` of `quote`: image rendering, avatar download and temporary files. Only `wordwrap` is modelled.
- `start`, `stop`, login, the database connection, `createModel`, `getMessage` and module-cache invalidation (`decache`) are not modelled. Reload takes the new configuration as a parameter.
- Time and concurrency:
  - The rate-limit wait (`setTimeout` with `retry-after`) is a retry step that changes nothing.
  - Interleaving between channels is the caller's choice of which queue to step.
  - The promise callbacks are settlement records.
- Running a command (`command.run`) is outside the model: `Route` stops at the command it picks. So the unbound `.catch(this.error)` of `handleMessage` (index.js:245), which turns a rejected command into a TypeError and an unhandled rejection, is not modelled.
- The resolution of a request's channel is a parameter: `None` stands for a failed resolution.
- `Util.wrap` and the `Plugin`/`Command` base classes live in a module that is not part of this model. A wrapped reply is the datatype case `Wrapped(text)`, and `Util.wrap(language, code)` is the pair `Block(language, code)`.
- Whether a plugin hook (`load`/`unload`) succeeds is a parameter. A plugin whose `init` fails is taken to have registered its catalog commands, because the partial registration inside the base class cannot be seen.
- `src/index.js` and `entry.js` (bootstrap, signals, logging) are not part of this model.
- The database: the tag collection is a sequence in insertion order, and document ids are counted up from 0.
  - The order of tags with equal names in `listTags` follows insertion order. The database leaves that order unspecified.
  - Strings are compared character by character.
- Messages sent outside a server (direct messages) are not modelled: a server id is always given.
- JsString.ToLower: lowercases ASCII letters only; other characters keep their case.
- Strings are sequences of characters, not of UTF-16 code units.
- Purge.ParseInt: numbers are unbounded integers. `parseInt`'s floating point rounding of very long numerals is not modelled.
- Purge.Channel.Process: a failed deletion is not modelled; every delete succeeds.
- Game.Client.Process: the client's reaction to setting an empty game name is not modelled. A set game is shown by its name even when the name is empty.
- AfterLoadAllRegisters: states the intended load-all. The code as written stops at the first failure; `LoadAllWalk` and `LoadAllWalkIsPrefix` state that walk (see Findings).
- ReloadForgetsPrevious: states the intended reload. As written, the registry also depends on the first load that fails; `ReloadWalkAgrees` states what the reload as written keeps of this property.
- ReloadCommandSet: states the intended reload. As written, the plugins configured after the first failing load are not loaded; `ReloadWalkAgrees` gives the command set when no load fails.
- Quote.WordWrap: the `strBreak` and `cut` parameters are not modelled. The command always passes two arguments, so the break is "\n" and words are always cut.

## Findings

| source | as written | input that shows it | evidently intended | confidence | as-written member | corrected member |
|---|---|---|---|---|---|---|
| src/bot/index.js:135-168 | `load()` hands each failure to `.catch(this.error)`, but `error` is never bound to the bot, so it runs with `this` undefined and throws a TypeError; co rethrows it, the walk ends at the first failure, nothing is emitted and `load()` rejects | `PLUGINS = ["missing", "chat"]`: "chat" is never loaded | report each failure on the error channel and load the remaining plugins | not executed | Plugins.MissingThenChat | Plugins.AfterLoadAllRegisters |
| src/bot/index.js:184-219 | `unload()` has the same `.catch(this.error)`: the first failed teardown ends the walk and every later entry stays untried; `reload()` then rejects before it reads the configuration again or loads anything; the same unbound handler ends `handleMessage` (index.js:245), so a command that rejects there leaves an unhandled rejection, which this model does not capture because command runs are outside it | a snapshot `[a, b]` where only `a`'s teardown fails: `b` stays loaded | report each failure, unload the remaining plugins, and go on to reload | not executed | Plugins.FailedTeardownStopsUnloadAll | Plugins.SurvivingMembers |
| src/bot/plugins/chat/commands/code.js:15-18 | the language `none` is cleared to `''` before the code is cut at `language.length`, so the cut is at 0 and the code keeps the word "none" | suffix "none x" gives language "" and code "none x" | a block without a language whose code is "x", the text after the language token | not executed | Code.NoneKeepsWord | Code.NoneDropsWord |
