# Chat-bot command handlers in Dafny

This project models the command layer of a group-chat bot, `runcommand.js`. The dispatcher `run` gets the matcher's result for one message: for each command key, whether its trigger matched and with what captures. It calls that command's handler once for every match, and stops at the first handler that throws. A handler reads its captures and the group's snapshot (thread id, name, colour, members, display names, aliases). It then asks the chat platform, the property store or a web service to do things.

The model gives each handler as a function from its captures and the group snapshot to the sequence of **effects** it asks for, in order. Examples are `Send`, `SendError`, `Kick`, `SetProperty`, `ChangeColor`, `CreatePoll` and `Raise`. `Raise` is an uncaught JavaScript `TypeError`. What a callback does on success is attached to the effect as `onDone`.

Where the source updates state or loops step by step, the model does the same:
- `run`'s loop;
- `poll`'s option loop;
- `color`'s lower-casing loop;
- the kick loops of `order66`, `destroy` and `snap`, with their `callbackset` flag;
- `score`'s ranking loop;
- `addsearch`'s result loop;
- `alias`, which changes the group's alias table in place.

Each of these is a method proved against the function that specifies it.

JavaScript's own behaviour is written out explicitly in `JsStrings`, `JsNumbers` and `Chat`:
- truthiness;
- `parseInt` and the `parseInt(x) || d` fallback;
- `trim`, `split`, `join`, `indexOf` and `replace` with a string pattern;
- ASCII `toLowerCase`;
- `undefined` as a property key;
- objects whose keys later assignments overwrite.

Files:
- `wrappers.dfy`: `Option` and `Result`.
- `js_strings.dfy`, `js_numbers.dfy`: the string and number built-ins the handlers use.
- `chat.dfy`: captures, the effect datatype, configuration, the group snapshot class and object-as-dictionary helpers.
- `dispatch.dfy`: `run`.
- `help.dfy`: the per-command help text and addenda.
- The handlers: `rng.dfy`, `poll.dfy`, `xkcd.dfy`, `color.dfy`, `alias.dfy`, `score.dfy`, `kick.dfy`, `addsearch.dfy`, `blur.dfy`.
- `removal.dfy`: `order66`, `destroy`, `snap`.

## Model

| member | source | states |
|---|---|---|
| Dispatch.Run | runcommand.js:1291-1298 | the loop makes exactly the calls `Invoked` lists: one per own entry with a match, in enumeration order, each with the group's thread id and the entry's match, and none after the first handler that throws (the loop has no `try`) |
| Dispatch.InvokedOncePerFiringKey | runcommand.js:1292-1297 | with distinct keys, the handler of key c is called at most once, and never unless c's own entry has a match; it is called exactly once when it has one and no handler called before it throws |
| Dispatch.InvokedStopsAtRaise | runcommand.js:1292-1297 | a call that throws is the last call made |
| Dispatch.InvokedHalted | runcommand.js:1292-1297 | once a handler has thrown, the entries after it add no call |
| Dispatch.InvokedCallsCarryOwnMatch | runcommand.js:1294-1296 | every call carries `groupInfo.threadId` and the match of a firing entry under the same key |
| Help.ExampleSection | runcommand.js:19-28 | an example array gives the header "Examples:\n"; a non-empty string gives "Example: " followed by trigger, space and example; an empty string gives no section |
| Help.ExampleLines | runcommand.js:20-24 | the body of an example array, read line by line, is each example behind the trigger word, in order |
| Help.HelpMessage | runcommand.js:30 | the message starts with the entry, description and syntax head, and continues with "\n\n", header and body exactly when there is an example section |
| Help.AddendaRoundTrip | runcommand.js:31 | the addenda name exactly the flags that are set (attachments, admin, experimental), in that order: reading them back gives the three flags |
| Help.NotesRoundTrip | runcommand.js:31 | three notes longer than 16 characters whose 17th characters differ pairwise are read back as exactly the flags that selected them, in their fixed order |
| Help.HelpCommand | runcommand.js:9-57 | a blank or absent argument asks for the overview in the thread; otherwise a found entry is shown with its message and addenda, and exactly when no entry is found the trimmed, lower-cased input is reported |
| Rng.RngBounds | runcommand.js:817-829 | with a second capture both captures are parsed; otherwise the lower bound is the configured one, and the upper bound is the parsed first capture or the configured upper bound |
| Rng.RngTwoNumbers | runcommand.js:819-821 | `rng lo hi` gives the bounds (lo, hi) |
| Rng.RngOneNumber | runcommand.js:822-825 | `rng hi` gives (configured lower bound, hi) |
| Rng.RngNoNumbers | runcommand.js:822-827 | `rng` alone gives both configured bounds |
| Rng.RngUpperWithoutLower | runcommand.js:819-820 | a second capture without a first gives a NaN lower bound, because `parseInt(undefined)` is NaN |
| Poll.PollOptions | runcommand.js:775-781 | every comma-separated item maps to false and nothing else is a key; an absent or empty options string gives no options |
| Poll.BuildPollOptions | runcommand.js:776-780 | the loop builds exactly `PollOptions` (a repeated item is one key) |
| Poll.PollCommand | runcommand.js:772-787 | one poll request with the title, the built options and the non-group error as its failure report |
| Poll.PollOptionsOfList | runcommand.js:777-780 | options written as a comma-separated list of comma-free items give exactly those items as keys |
| Xkcd.XkcdCommand | runcommand.js:149-199 | no first capture gives a random comic; otherwise, with the param the first capture minus the query, trimmed: a search for the query exactly when a query is given and the param is "search"; else the newest comic exactly when the param is "new"; else `http://xkcd.com/` followed by the param when it is not empty, and nothing when it is |
| Xkcd.XkcdNumber | runcommand.js:181-185 | `xkcd <n>` links to comic n |
| Xkcd.XkcdSearch | runcommand.js:151-152 | `xkcd search <query>` searches for the query: removing the query from the first capture and trimming leaves "search" |
| JsStrings.RemoveAppended | runcommand.js:151 | removing q from p + q gives p when the first occurrence of q is the appended one |
| JsStrings.JoinSplit | runcommand.js:151 | joining the pieces of a split with the same separator gives back the string |
| JsStrings.SplitJoin | runcommand.js:777 | splitting on a character no piece contains takes joined pieces apart again |
| JsNumbers.ParseIntRoundTrip | runcommand.js:819-820 | `parseInt` of an integer's decimal numeral is that integer |
| JsNumbers.ParseIntOr | runcommand.js:884 | `parseInt(x) \|\| d` is d when the parse is NaN or 0, and the parsed number otherwise |
| Chat.Assign | runcommand.js:534 | an object built by assignments has exactly the assigned keys, each holding its last assignment's value |
| Chat.AssignedFrom | runcommand.js:545 | every value of such an object was assigned under its key, by the last assignment to that key |
| Chat.GetListed | runcommand.js:723 | on an object, whose keys are distinct, `d[k]` is the value listed under k |
| Color.BuildLowerColors | runcommand.js:542-547 | the loop builds exactly the table with lower-cased names |
| Color.Resolve | runcommand.js:550-551 | a colour that is one of the hex values is used as is; otherwise the name's value if the name is known; otherwise undefined |
| Color.CurrentName | runcommand.js:534-535 | the current colour's name is found exactly when some table value matches the lower-cased chat colour (null under "null"); it is the name of the last table entry with that value |
| Color.LowerHex | runcommand.js:535 | a set colour is lower-cased; an unset one stays null |
| Color.ColorEffects | runcommand.js:537-564 | no first capture sends the current colour's name and hex value to the thread; a missing second capture raises a TypeError; otherwise the colour changes exactly when the wanted colour (the random one, or the lower-cased input) resolves, to the resolved value, and then names the old colour, and exactly when it does not resolve only the error is sent |
| Color.Unresolvable | runcommand.js:550-551 | a colour that is neither a lower-cased name nor a value of the table resolves to undefined |
| Color.ColorCommand | runcommand.js:531-565 | the handler with its loop does what `ColorEffects` states |
| Color.ColorCaseInsensitive | runcommand.js:539-547 | inputs that are equal up to case act alike |
| Color.ColorByName | runcommand.js:539-551 | a table colour named in any case switches to that colour's value |
| Color.ColorByHex | runcommand.js:550-551 | a hex value of the table is used as it is |
| Color.ColorNotFound | runcommand.js:553-554 | a colour that is neither a name nor a value is reported and no change is asked for |
| Color.ColorRandom | runcommand.js:539 | an input mentioning "rand" in any case switches to the random colour |
| Alias.ActionOf | runcommand.js:1048-1069 | the first capture clears; otherwise a truthy third capture sets; otherwise the alias is shown |
| Alias.AliasUpdate | runcommand.js:1049-1057 | every other member's entry is untouched; clear removes the member's entry, set stores the lower-cased alias, show changes nothing |
| Alias.AliasEffects | runcommand.js:1050-1068 | clear and set save the updated table under "aliases", then report the clearing or the new alias as typed; show sends the stored alias when there is a non-empty one, and otherwise says there is none |
| Alias.AliasCommand | runcommand.js:1043-1070 | a missing name raises before anything changes; otherwise the table is updated in place as `AliasUpdate` states and the handler reports as `AliasEffects` states |
| Alias.SetThenDisplay | runcommand.js:1055-1063 | after an alias is set, showing it gives the alias in lower case |
| Alias.ClearThenDisplay | runcommand.js:1049-1065 | after an alias is cleared, the member has none |
| Alias.SetTwice | runcommand.js:1057 | setting an alias twice is the same as setting the second |
| Removal.KickPlan | runcommand.js:511-525 | no excluded id is kicked, every kick has the given duration, and only the first kick carries the closing message |
| Removal.KickPlanTargets | runcommand.js:515 | an id is kicked exactly when it is listed and not excluded |
| Removal.KickEach | runcommand.js:511-525 | the loop with its `callbackset` flag makes exactly the kicks `KickPlan` lists |
| Removal.Order66 | runcommand.js:505-530 | outside a group only the refusal; in a group a warning first, then kicks for the configured time, never of the bot, with "Balance is restored to the Force." on the first kick only |
| Removal.Order66Command | runcommand.js:505-530 | the handler with its loop does what `Order66` states |
| Removal.Order66KicksEveryoneElse | runcommand.js:512-515 | in a group, exactly the members other than the bot are kicked |
| Removal.Destroy | runcommand.js:974-991 | kicks without duration or message, never of the bot or the current account, then the chat is archived |
| Removal.DestroyCommand | runcommand.js:974-991 | the handler with its loop does what `Destroy` states |
| Removal.DestroyRemovesEveryoneElse | runcommand.js:979-983 | exactly the members other than the bot and the current account are removed |
| Removal.Snapped | runcommand.js:1180 | the picked members' ids, in pick order |
| Removal.LastWord | runcommand.js:1165-1166 | the last word of the sender's name: it ends the name, holds no space, and is the whole name or follows a space |
| Removal.Snap | runcommand.js:1159-1202 | outside a group only the refusal; when the name lookup fails, nothing; otherwise the salute, then at most half the members (rounded up) kicked for the configured time, never the bot, with the closing message on the first kick only |
| Removal.SnapCommand | runcommand.js:1159-1202 | the handler with its loop does what `Snap` states |
| Removal.SnapKicksThePicked | runcommand.js:1182-1194 | exactly the picked members other than the bot are kicked |
| JsStrings.SplitPiecesAvoidSeparator | runcommand.js:1165 | no piece of a split by one character contains that character |
| KickCmd.OptTime | runcommand.js:135 | no time unless the second capture is truthy, and then its parse |
| KickCmd.KickCommand | runcommand.js:133-147 | with the handler's declared parameters: a missing name raises a TypeError; a known member is kicked with the optional time; an unknown one is reported by name |
| KickCmd.KickAsDispatched | runcommand.js:133-147 | as `run` calls it: a thread id shorter than two characters raises, any other gives the reported TypeError |
| KickCmd.KickAsDispatchedNeverKicks | runcommand.js:1295 | as dispatched, `kick` never kicks anyone |
| KickCmd.KickMisdispatchExample | runcommand.js:133 | `kick alice` in thread "12345", where alice is user 100, kicks user 100 with the declared parameters, but as dispatched it only reports a TypeError |
| KickCmd.KickKnownMember | runcommand.js:134-140 | a known member named in any case is kicked for the number of seconds given |
| Score.Insert | runcommand.js:708-710 | inserting into a list sorted greatest score first keeps it sorted and adds exactly the entry |
| Score.SortByScore | runcommand.js:708-710 | the ranking is sorted greatest score first and is a permutation of the stored scores |
| Score.SortStable | runcommand.js:708-710 | entries with equal scores keep their stored order |
| Score.RankingMessage | runcommand.js:712-715 | the loop builds the header followed by one numbered line per entry |
| Score.RankingsLines | runcommand.js:712-715 | read line by line, the ranking gives back the header and "i. name: score" for each entry, when no name holds a line break |
| Score.ScoreEffects | runcommand.js:704-749 | a first capture shows the sorted ranking, or the retrieval error; a known member named in the second capture gets the third capture as score when it is truthy, otherwise the score is shown; an unknown member is reported; with neither capture, nothing |
| Score.ScoreCommand | runcommand.js:704-749 | the handler with its loop does what `ScoreEffects` states |
| Score.ScoreSet | runcommand.js:722-735 | naming a known member with a number sets that score, under the member's id and capitalised name |
| Score.ScoreUnknownUser | runcommand.js:745-747 | naming an unknown member reports the capitalised name |
| AddSearch.SearchResults | runcommand.js:485-489 | one search result per rank below the count, showing the match at that rank or undefined; none for a count that is not positive |
| AddSearch.ShowResults | runcommand.js:485-489 | the loop shows exactly `SearchResults` |
| AddSearch.CommandWord | runcommand.js:478 | the command word is the lower-cased start of the first capture up to (not including) its first space, or all of it when there is none |
| JsStrings.SplitFirstPiece | runcommand.js:478 | the first piece of a split by one character is the text before that character's first occurrence |
| JsStrings.SplitLastPiece | runcommand.js:1165-1166 | the last piece of a split by one character is the text after that character's last occurrence |
| AddSearch.AddSearchEffects | runcommand.js:473-504 | a missing command raises; a search shows `parseInt(c2) \|\| 1` results; an add adds the best match and raises on an empty answer; an error with a text is reported, one without is ignored |
| AddSearch.AddSearchCommand | runcommand.js:473-504 | the handler with its loop does what `AddSearchEffects` states |
| AddSearch.SearchShowsBestMatch | runcommand.js:483-489 | without a count a search shows only the best match |
| AddSearch.SearchWord | runcommand.js:478 | "search" on its own asks for a search |
| AddSearch.SearchShowsCount | runcommand.js:483-489 | a positive count n shows n results ranked 0 to n - 1 |
| AddSearch.TypoFixed | runcommand.js:496 | when no "B" comes before it, the API's "Bes" is corrected to "Best" and the rest of the text is kept (`JsStrings.ReplaceFirst` states the general first-occurrence case) |
| JsStrings.ReplaceFirst | runcommand.js:496 | a string pattern is replaced at its first occurrence only, with the text before and after kept |
| BlurCmd.BlurEffects | runcommand.js:883-887 | one blur of the third capture's image, Gaussian exactly when the second capture is truthy, with radius `parseInt(c1) \|\| 2` |
| BlurCmd.BlurDefaultRadius | runcommand.js:884 | without a radius the blur is 2 pixels |
| BlurCmd.BlurGivenRadius | runcommand.js:884 | a radius written as a number is used, except that 0 falls back to 2 |

## Left out

- Network requests (xkcd, search, the platform's calls), the property store and image processing are effects. Their answers are inputs: the help entry, the scores, the user lookup, the sender's name and the colour table.
- The matcher, the usage statistics (`getStats`), `getHelpEntry` and `getAllScores` are not part of this model. The usage line and its percentage in the help message are left out because they are floating point.
- The "list all" overview of `help` is the single effect `HelpOverview`. As written it reads an undefined `co`.
- `setTimeout` delays in `order66` and `snap`: the effects keep their order, not their timing.
- Removal.Snap: the random choice of members is the input `picks`, taken as the draw's outcome: (n + 1) / 2 distinct positions. The rejection-sampling loop that draws them is not modelled.
- Color.ColorEffects: `getRandomColor()` is the input `randomColor`.
- The success messages sent from callbacks are modelled for `alias`, `color`, `order66` and `snap`. For `score` (`SetScore`, `ShowScore`), `addsearch` (`SearchUser`, `AddUser`) and `blur` (`Blur`), the effect stands for the store or platform call and the message it leads to.
- BlurCmd.BlurEffects: the choice between the image address and the message's attachments is made by `processImage`, which is not part of this model.
- KickCmd.KickCommand: how `sendError` renders an `Error` object is not visible. The error is modelled by its message text.
- KickCmd.OptTime: NaN and undefined are both `None`, which assumes the kick helper treats them alike.
- AddSearch.AddSearchEffects: `getUserID` is assumed not to throw synchronously. Its `catch` branch ("User … not recognized") is not modelled.
- Users are modelled by their ids. `data[i]` stands for the user object at rank i.
- Score.ScoreEntry: scores are integers. The comparator `b.score - a.score` on non-numeric scores is not modelled. The sort is modelled as stable, as ECMAScript 2019 requires.
- Case mapping is ASCII only. Unicode case folding is outside the model.
- Objects read through `Chat.Dict` are lists in insertion order. Integer-like keys, which JavaScript enumerates first, are not reordered. Inherited keys such as `__proto__` or `constructor` are not modelled.
- Chat.Get: a `Dict` may list a key twice, which no object can; `Get` then reads the first entry. `Chat.GetListed` states the object case, where the keys are distinct.
- Poll.PollOptions: `optsObj` is a map, so the order of the poll's options, which the platform receives in insertion order, is not modelled. Only the set of options and their unselected state are.
- JsNumbers.ParseInt: the result is an exact integer. JavaScript numbers are doubles: numerals past 2^53 are rounded, and a numeral of more than about 309 digits parses to `Infinity`. The model captures neither. So for `addsearch`, whose loop `for (let i = 0; i < numResults; i++)` would never end for such a count, `SearchResults` and `ShowResults` are always finite.
- Dispatch.Run: `funcs[c]` is assumed to exist for every key the matcher reports.
- `psa` and `bug` share the parameter shift described under Findings. They are outside the modelled commands.
- Xkcd.XkcdSearch: stated only for queries whose first character does not occur in "search ". For other queries, removing the query can also cut into the word "search".

## Findings

| source | as written | input that shows it | evidently intended | confidence | as-written member | corrected member |
|---|---|---|---|---|---|---|
| runcommand.js:133 | `kick` is declared `(cmatch, groupInfo)`, but `run` (runcommand.js:1295) calls every handler as `(threadId, cmatch, groupInfo, …)`. The handler lower-cases the thread id's second character and reads `members` of the match array. That throws, and the error is sent instead of a kick. | thread "12345", `kick alice`, alice is user 100 | declare `(threadId, cmatch, groupInfo)` and kick user 100 | high (not executed) | KickCmd.KickAsDispatched, KickCmd.KickMisdispatchExample, KickCmd.KickAsDispatchedNeverKicks | KickCmd.KickCommand, KickCmd.KickKnownMember |
