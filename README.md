# traQ-bookmaker core, modelled in Dafny

traQ-bookmaker is a bot for the traQ chat service. It runs a betting pool ("match") in each
channel. A user mentions the bot with a command line: `start`, `close`, `bet`, `cancel`,
`finish`, `reg`, `info` or `help`. The handler splits the message into arguments and picks
a use case. The use cases read and write a MariaDB schema of four tables (users, matches,
candidates and bets), and they answer in the channel through traQ messages.

The model follows the program's layers.

- **Tokenizer and routing.** The message handler's command-line tokenizer `parse_args` is a
  fold over the characters with three flags. It is modelled as the pure fold
  `ArgParser.Run` and as the loop `ArgParser.ParseArgs` that is proved equal to it.
  `is_help_command`, the name/tail split, the `i32` argument parsing and the choice of
  handler are in `MessageCreated`.
- **`escape_arg`** is in `ArgEscape`. It is stated both as written and as its comment
  describes it, together with the round trip through the tokenizer.
- **The tables.** The four tables are a value, `Schema.Tables`. `Schema.Valid` states the
  schema's constraints: primary keys, the unique (traq_id, channel_id),
  (match_id, name) and (match_id, user_id) pairs, and the foreign keys. Each repository
  operation is a pure transition `Tables -> Txn<T>` giving the result and the tables after
  the transaction. Those transitions are in `MatchRepository`, `CandidateRepository`,
  `BetRepository` and `UserRepository`. Each is proved to keep `Valid`.
- **The store.** `Store.Database` is a class holding the four tables as `seq` fields. Its
  methods change those fields step by step. Each is proved to produce exactly the
  transition of its repository function, and to keep `Valid`.
- **The traQ message client.** `Traq.MessageClient` is a class whose `sent` log records
  every message created or edited. What traQ answers is a parameter (`Reply`).
- **The use cases.** `MatchUseCases`, `BetUseCases` and `MessageUseCases` each define a
  pure `...Outcome` function. It gives the result, the tables after the call and the
  messages posted. Beside it is a class whose methods call the store and the client in
  the source's order. Each method is proved to end in exactly that outcome. The start and
  the bet are composed from the corrected inserts of the findings below (a row is really
  inserted, and a bet goes to an open match of its own channel), so that their later steps
  can be stated at all; what the code as written does instead is stated by the as-written
  members of each finding, and "## Left out" names the members concerned.
- **`new_statistics`** is in `Statistic`: it builds a map, gathers bets in a loop, collects
  the entries in a second loop and sorts them in place on an array.
- **The help messages** are in `HelpMessage`.

Parameters stand in for ids, clock readings and traQ replies.

## Model

| member | source | states |
|---|---|---|
| ArgParser.ParseArgs | driver/src/routes/message/message_created/mod.rs:29-70 | the loop over the characters, with its three flags and the argument list, returns exactly the fold `Parse(text)` |
| ArgParser.RunLength | driver/src/routes/message/message_created/mod.rs:31-67 | the fold never drops an argument, and each character opens at most one |
| ArgParser.Parse | driver/src/routes/message/message_created/mod.rs:29-70 | `parse_args` returns at most one argument per character of the text |
| ArgParser.Step | driver/src/routes/message/message_created/mod.rs:42-63 | one fold step, branch for branch (escape, quote, whitespace, backslash, ordinary character); what the steps add is stated by `ArgParserFacts.ConcatRun` |
| ArgParser.Run | driver/src/routes/message/message_created/mod.rs:31-67 | the fold over a text; its bounds are stated by `ArgParser.RunLength` and its splitting by `ArgParser.RunAppend` |
| ArgParser.RunAppend | driver/src/routes/message/message_created/mod.rs:31-67 | folding over `a + b` is folding over `a`, then over `b` from the state reached |
| ArgParserFacts.ParseNonEmpty | driver/src/routes/message/message_created/mod.rs:34-40 | no argument returned by `parse_args` is empty: an argument is only opened with a character in it |
| ArgParserFacts.ConcatRun | driver/src/routes/message/message_created/mod.rs:42-63 | gluing the argument list after a fold adds exactly the kept characters: escaped, quoted-whitespace and ordinary ones, but never an unescaped quote, unquoted whitespace or an escaping backslash |
| ArgParserFacts.ParseKeeps | driver/src/routes/message/message_created/mod.rs:29-70 | the arguments, glued together, are exactly the kept characters of the text |
| ArgParserFacts.NoUnescapedQuote | driver/src/routes/message/message_created/mod.rs:45-46 | without a backslash in the text, no argument holds a double quote: an unescaped `"` only toggles quoting |
| ArgParserFacts.EscapeJoinsLast | driver/src/routes/message/message_created/mod.rs:42-44 | a backslash and the next character put that character, whatever it is, at the end of the last argument, even when a new argument is pending |
| ArgParserFacts.QuotedWhitespaceJoinsLast | driver/src/routes/message/message_created/mod.rs:47-50 | whitespace inside quotes extends the last argument and leaves a pending new-argument flag alone |
| ArgParserFacts.OrdinaryOpensArgument | driver/src/routes/message/message_created/mod.rs:56-59 | only an ordinary character honours the new-argument flag: it opens an argument and clears the flag |
| ArgParserFacts.ParsePlain | driver/src/routes/message/message_created/mod.rs:47-61 | on text without quotes and backslashes, `parse_args` equals the reference whitespace split `Words` |
| ArgParserFacts.WhitespaceOnly | driver/src/routes/message/message_created/mod.rs:93-94 | empty or whitespace-only text gives no arguments |
| ArgParserVectors.VectorSimple | driver/src/routes/message/message_created/mod.rs:78 | `a b c` gives `a`, `b`, `c` |
| ArgParserVectors.VectorQuotedPair | driver/src/routes/message/message_created/mod.rs:79 | `a "b c"` gives `a`, `b c` |
| ArgParserVectors.VectorQuotedWords | driver/src/routes/message/message_created/mod.rs:81 | `"a" "b"` gives `a`, `b` |
| ArgParserVectors.VectorTwoQuotedPairs | driver/src/routes/message/message_created/mod.rs:82 | `"a b" "c d"` gives `a b`, `c d` |
| ArgParserVectors.VectorEscapedSpace | driver/src/routes/message/message_created/mod.rs:84 | `a\ b c` gives `a b`, `c` |
| ArgParserVectors.VectorEscapedQuote | driver/src/routes/message/message_created/mod.rs:85 | `"a\"b" c` gives `a"b`, `c` |
| ArgParserVectors.VectorSymbols | driver/src/routes/message/message_created/mod.rs:87 | `a#b c&d e^f` gives three arguments, symbols kept |
| ArgParserVectors.VectorQuotedTriple | driver/src/routes/message/message_created/mod.rs:88 | `"a b c" d e` gives `a b c`, `d`, `e` |
| ArgParserVectors.VectorOuterSpaces | driver/src/routes/message/message_created/mod.rs:90 | leading and trailing spaces are dropped |
| ArgParserVectors.VectorOuterSpacesQuoted | driver/src/routes/message/message_created/mod.rs:91 | leading and trailing spaces around a quoted argument are dropped |
| ArgParserVectors.VectorEmpty | driver/src/routes/message/message_created/mod.rs:93 | the empty text gives no arguments |
| ArgParserVectors.VectorSpaces | driver/src/routes/message/message_created/mod.rs:94 | five spaces give no arguments |
| ArgParserVectors.VectorQuotedSpaces | driver/src/routes/message/message_created/mod.rs:95 | a quoted pair of spaces is one argument of two spaces |
| ArgParserVectors.VectorEscapeAfterSpace | driver/src/routes/message/message_created/mod.rs:42-44 | `a \bc` gives `ab`, `c`: the escaped letter joins the previous argument and the next letter opens one |
| ArgParserVectors.VectorQuotedSpaceAfterSpace | driver/src/routes/message/message_created/mod.rs:47-50 | `a " b"` gives `a `, `b` |
| MessageCreated.First | driver/src/routes/message/message_created/mod.rs:117-120 | the first token exists exactly when there are tokens, and it is `args[0]` |
| MessageCreated.IsHelpCommandExactly | driver/src/routes/message/message_created/mod.rs:99-103 | `is_help_command` holds exactly when there is a first argument and it is `help`, `--help` or `-h` |
| MessageCreated.IsHelpCommand | driver/src/routes/message/message_created/mod.rs:99-103 | holds only when there is a first argument |
| MessageCreated.NameAndTail | driver/src/routes/message/message_created/mod.rs:117-121 | the command name and the remaining arguments are the tokens again, in order; no tokens give the name "" and no arguments |
| MessageCreated.ParseI32 | driver/src/routes/message/message_created/mod.rs:199-201 | only non-empty text parses; a value parsed after a minus sign is at most 0, any other at least 0 |
| MessageCreated.ParseI32RoundTrip | driver/src/routes/message/message_created/mod.rs:199-201 | every `i32` written in decimal parses back to itself |
| MessageCreated.ParseI32OutOfRange | driver/src/routes/message/message_created/mod.rs:199-201 | a decimal number outside the `i32` range, with or without a minus sign, is rejected |
| MessageCreated.ParseI32RejectsNonDigit | driver/src/routes/message/message_created/mod.rs:199-201 | a character that is neither a digit nor a leading sign makes the parse fail |
| MessageCreated.ParseI32Examples | driver/src/routes/message/message_created/mod.rs:199-201 | `+7`, `-7` and `007` parse as Rust's `str::parse::<i32>` does; "", `-` and `+` are rejected |
| MessageCreated.BetAmount | driver/src/routes/message/message_created/mod.rs:199-201 | the amount is the second argument parsed as `i32`, or 0 when it is missing or malformed |
| MessageCreated.BetAmountOfRendering | driver/src/routes/message/message_created/mod.rs:199-201 | a second argument written as a decimal `i32` is the amount bet |
| MessageCreated.Select | driver/src/routes/message/message_created/mod.rs:123-282 | exactly the ten known names pick a handler, and an unknown name is reported as itself; `cancel` and `finish` get the id supplied for them, every other handler the message's channel |
| MessageCreated.Route | driver/src/routes/message/message_created/mod.rs:105-282 | the handler with every command given the message's channel; stated by `MessageCreated.RouteStaysInChannel` |
| MessageCreated.RouteAsWritten | driver/src/routes/message/message_created/mod.rs:213-259 | the handler as written, with the author's id passed as channel to `cancel` and `finish`; stated by `MessageCreated.AsWrittenCancelLeavesChannel` |
| MessageCreated.RouteStaysInChannel | driver/src/routes/message/message_created/mod.rs:123-282 | with the corrected routing, exactly the ten known names pick a handler; each acts on the message's channel, and any other name is reported as unknown |
| MessageCreated.SubcommandHelpPage | driver/src/routes/message/message_created/mod.rs:132-259 | a subcommand followed by `help`, `--help` or `-h` answers with that subcommand's embedded help page in the channel |
| MessageCreated.BetRoute | driver/src/routes/message/message_created/mod.rs:180-212 | `bet` passes the author, the first argument as the candidate, the parsed amount and the channel |
| MessageCreated.AsWrittenCancelLeavesChannel | driver/src/routes/message/message_created/mod.rs:213-259 | as written, `cancel` and `finish` pass the author's user id where a channel id is expected |
| ArgEscape.EscapeArgIsCharMap | app/src/usecase/mod.rs:6-13 | with a space present, the two chained replacements equal one per-character escape, backslashes first |
| ArgEscape.EscapeArgNoSpace | app/src/usecase/mod.rs:8-12 | without an ASCII space the argument is returned unchanged |
| ArgEscape.EscapeArgLength | app/src/usecase/mod.rs:8-9 | with a space, one character is added per backslash and per double quote |
| ArgEscape.EscapeArgChanges | app/src/usecase/mod.rs:6-13 | the argument changes exactly when it holds an ASCII space together with a backslash or a double quote |
| ArgEscape.OrderMatters | app/src/usecase/mod.rs:9 | replacing quotes first would double the backslash put in front of a quote; the order written does not |
| ArgEscape.EscapeArgSplitsName | app/src/usecase/mod.rs:6-13 | as written no quotes are added, so the tokenizer splits `a b` into two arguments again |
| ArgEscape.EscapeArgQuotedRoundTrip | app/src/usecase/mod.rs:7 | the quoted form the comment describes reads back through `parse_args` as the one original argument |
| ArgEscape.EscapeArgQuoted | app/src/usecase/mod.rs:7 | without a space the argument is unchanged; with one it is wrapped in double quotes and grows by one character per backslash and per double quote, besides the quotes |
| ArgEscape.EscapeArg | app/src/usecase/mod.rs:6-13 | `escape_arg` as written; stated by `ArgEscape.EscapeArgIsCharMap`, `ArgEscape.EscapeArgNoSpace`, `ArgEscape.EscapeArgLength` and `ArgEscape.EscapeArgChanges` |
| HelpMessage.ParseSummary | app/src/model/message/help.rs:16-18 | every line this reader accepts is the formatting of what it returns |
| HelpMessage.SummaryRoundTrip | app/src/model/message/help.rs:16-18 | a summary line `- name (`description``)`, closing backtick doubled, determines its command when the name has no space |
| HelpMessage.FormatSummary | app/src/model/message/help.rs:16-18 | `format_summary`; read back by `HelpMessage.ParseSummary`, stated by `HelpMessage.SummaryRoundTrip` |
| HelpMessage.SummaryMessage | app/src/model/message/help.rs:20-32 | the summary is the header followed by the lines joined with newlines; it is not embedded and goes to the given channel; no commands give exactly the header |
| HelpMessage.SummaryLinesRecovered | app/src/model/message/help.rs:22-29 | after the header, splitting the summary at newlines gives back every command's line, in order |
| HelpMessage.CommandLines | app/src/model/message/help.rs:48-53 | a help page is five lines: title and name, description, fence, example, fence |
| HelpMessage.FormatCommand | app/src/model/message/help.rs:48-53 | `format_command`; its five lines are stated by `HelpMessage.CommandLines` |
| HelpMessage.CommandHelpMessage | app/src/model/message/help.rs:55-59 | the help page is embedded and goes to the given channel |
| Schema.Latest | adapter/src/repository/match.rs:128-140 | `order_by_desc(created_at).one()`: the latest row the filter selects, none exactly when no row is selected |
| Schema.FindCandidate | adapter/src/repository/bet.rs:60-68 | a candidate of that match and name, none exactly when no such row exists |
| Schema.FindUser | adapter/src/repository/bet.rs:70-78 | a user with that traQ id in that channel, none exactly when no such row exists |
| Schema.UpdateUnchanged | adapter/src/repository/match.rs:142-185 | writing back an active model with nothing set leaves the match as it was |
| MatchRepository.Insert | adapter/src/repository/match.rs:44-86 | refused with a duplicate exactly when the channel has a match without a winner; otherwise an id already in the table is refused as unexpected with no change; otherwise the row is appended with no message, close time or winner, and it is returned |
| MatchRepository.InsertAsWritten | adapter/src/repository/match.rs:72-76 | the source's `save` of an unchanged active model never changes the tables |
| MatchRepository.InsertAsWrittenNeverStores | adapter/src/repository/match.rs:62-76 | as written, a new match id is never stored and the call fails |
| MatchRepository.InsertPreservesValid | migration/src/m20240412_101522_initial_create_table.rs:30 | inserting keeps every table constraint |
| MatchRepository.Update | adapter/src/repository/match.rs:87-121 | an unknown id is `RecordNotFound` with no change; otherwise only that row's message id is written, when given |
| MatchRepository.UpdatePreservesValid | migration/src/m20240412_101522_initial_create_table.rs:30-33 | updating the message id keeps every table constraint |
| MatchRepository.UpdateForLatest | adapter/src/repository/match.rs:122-193 | acts on the channel's latest match; `RecordNotFound` exactly when the channel has none; a winner by name always fails; every request without a winner by name succeeds in a channel that has a match; on success only the requested close time is written, and a request to clear the winner clears it; a failure changes nothing |
| MatchRepository.WinnerByName | adapter/src/repository/match.rs:152-175 | setting a winner by name on the latest match reports the winner as already set, or the candidate as missing |
| MatchRepository.UpdateForLatestPreservesValid | migration/src/m20240412_101522_initial_create_table.rs:30-48 | closing or finishing keeps every table constraint |
| MatchRepository.Find | adapter/src/repository/match.rs:194-205 | the match with that id, present exactly when the id is stored |
| MatchRepository.FindLatest | adapter/src/repository/match.rs:206-218 | the newest match of the channel, absent exactly when the channel has none |
| MatchRepository.Without | adapter/src/repository/match.rs:228-236 | removing a row keeps exactly the other rows |
| MatchRepository.WithoutKeys | migration/src/m20240412_101522_initial_create_table.rs:30 | removing rows keeps the match ids unique |
| MatchRepository.DeleteLatest | adapter/src/repository/match.rs:219-241 | `RecordNotFound` exactly when the channel has no match without a winner; the latest such match is deleted exactly when no candidate or bet refers to it, and otherwise the delete is refused as unexpected; on success nothing else changes |
| MatchRepository.DeleteLatestPreservesValid | migration/src/m20240412_101522_initial_create_table.rs:70-129 | deleting a match keeps every constraint, since the delete only succeeds when no candidate or bet refers to it |
| MatchRepository.NoWinnersPreserved | adapter/src/repository/match.rs:44-241 | no repository operation ever writes a winner, so a store without winners stays without winners |
| MatchRepository.ChannelStaysTaken | adapter/src/repository/match.rs:49-60 | once a channel has a match and no winners exist, every later start there is refused as a duplicate |
| CandidateRepository.Decode | adapter/src/repository/candidate.rs:14-27 | the decoded candidate keeps id, name and match; `is_winner` is true exactly when the stored number is non-zero |
| CandidateRepository.Rows | adapter/src/repository/candidate.rs:32-43 | one row per new candidate, in order, with `is_winner` unset |
| CandidateRepository.BulkInsert | adapter/src/repository/candidate.rs:30-57 | an empty batch succeeds unchanged; on success every row is appended in order; on failure nothing is stored and the error is a duplicate or unexpected |
| CandidateRepository.DuplicateExactly | migration/src/m20240412_101522_initial_create_table.rs:82 | for candidates of existing matches, the batch fails exactly when it would break the unique (match_id, name), and then as a duplicate |
| CandidateRepository.BulkInsertPreservesValid | migration/src/m20240412_101522_initial_create_table.rs:70-82 | inserting candidates keeps every table constraint |
| CandidateRepository.DuplicateNamesInBatch | adapter/src/repository/candidate.rs:45-54 | two candidates of one match with the same name are refused together, and nothing is stored |
| CandidateRepository.SelectByMatchId | app/src/usecase/message/match.rs:20-25 | exactly the decoded candidates of that match |
| BetRepository.Resolve | adapter/src/repository/bet.rs:49-78 | the three lookups in order: match missing, candidate missing, user missing, each exactly when the earlier ones succeeded and its own row is missing |
| BetRepository.InsertForLatestMatch | adapter/src/repository/bet.rs:41-106 | a lookup failure is returned unchanged; a clash on a key is a duplicate, and without lookup failure or clash the bet is stored; on success the bet on the resolved match, candidate and user is appended with the requested amount; a failure changes nothing |
| BetRepository.InsertForLatestMatchAsWritten | adapter/src/repository/bet.rs:88-96 | as written, the tables never change and lookup failures are returned as they are |
| BetRepository.AsWrittenNeverStores | adapter/src/repository/bet.rs:80-96 | as written, a bet with a new id is never stored and the call fails |
| BetRepository.AsWrittenTargetsOtherChannel | adapter/src/repository/bet.rs:49-58 | the match lookup as written can pick an open match of another channel |
| BetRepository.SecondBetRefused | migration/src/m20240412_101522_initial_create_table.rs:131 | a second bet by the same user on the same match is refused as a duplicate |
| BetRepository.InsertPreservesValid | migration/src/m20240412_101522_initial_create_table.rs:97-131 | inserting a bet keeps every table constraint |
| BetRepository.InsertKeepsBetsOnOwnCandidates | adapter/src/repository/bet.rs:60-86 | every stored bet names a candidate of its own match, before and after an insert |
| BetRepository.SelectByMatchId | app/src/usecase/message/match.rs:26-31 | exactly the bets of that match |
| UserRepository.NewUserFor | app/src/model/user.rs:10-16 | a new user starts with a balance of 10000 |
| UserRepository.Insert | adapter/src/repository/user.rs:12-24 | succeeds exactly when the id and the (traq_id, channel_id) pair are new, appending the row; on failure it is unexpected and nothing changes |
| UserRepository.InsertPreservesValid | migration/src/m20240412_101522_initial_create_table.rs:14-23 | inserting a user keeps every table constraint |
| UserRepository.SecondRegistrationRefused | migration/src/m20240412_101522_initial_create_table.rs:23 | registering the same traQ user twice in one channel fails and changes nothing |
| UserRepository.SelectByChannelId | app/src/usecase/message/match.rs:32-37 | exactly the users of that channel |
| Store.Database.constructor | migration/src/m20240412_101522_initial_create_table.rs:8-134 | the empty store satisfies every constraint |
| Store.Database.InsertMatch | adapter/src/repository/match.rs:44-86 | the tables and result are those of `MatchRepository.Insert`, and stay valid |
| Store.Database.UpdateMatch | adapter/src/repository/match.rs:87-121 | the tables and result are those of `MatchRepository.Update` |
| Store.Database.UpdateMatchForLatest | adapter/src/repository/match.rs:122-193 | the tables and result are those of `MatchRepository.UpdateForLatest` |
| Store.Database.Find | adapter/src/repository/match.rs:194-205 | returns `MatchRepository.Find` on the current tables |
| Store.Database.FindLatest | adapter/src/repository/match.rs:206-218 | returns `MatchRepository.FindLatest` on the current tables |
| Store.Database.DeleteLatest | adapter/src/repository/match.rs:219-241 | the tables and result are those of `MatchRepository.DeleteLatest` |
| Store.Database.BulkInsertCandidates | adapter/src/repository/candidate.rs:30-57 | the tables and result are those of `CandidateRepository.BulkInsert` |
| Store.Database.InsertBetForLatestMatch | adapter/src/repository/bet.rs:41-106 | the tables and result are those of `BetRepository.InsertForLatestMatch` |
| Store.Database.InsertUser | adapter/src/repository/user.rs:12-24 | the tables and result are those of `UserRepository.Insert` |
| Traq.MessageClient.Create | app/src/usecase/match.rs:71-87 | a creation is appended to the log, and the new message's id is returned exactly when traQ delivers |
| Traq.MessageClient.Update | app/src/usecase/message/match.rs:66-77 | an edit is appended to the log, and it succeeds exactly when traQ delivers |
| Statistic.Drafts | kernel/src/model/statistic.rs:20-31 | one draft per candidate id, holding the last candidate with that id and no bets |
| Statistic.GatherBets | kernel/src/model/statistic.rs:32-37 | each draft receives exactly the bets on its candidate, in order; bets on unknown candidates are dropped |
| Statistic.Collect | kernel/src/model/statistic.rs:38-47 | one entry per draft, whose amount is the sum of its bets, in some order |
| Statistic.SortByAmountDesc | kernel/src/model/statistic.rs:48 | the entries end ordered by descending amount and are a permutation of the input |
| Statistic.NewStatistics | kernel/src/model/statistic.rs:18-50 | exactly one entry per candidate, as a multiset, in descending order of amount |
| Statistic.StatisticsPerCandidate | kernel/src/model/statistic.rs:18-50 | every entry belongs to a candidate, every candidate has an entry, and no two entries share a candidate |
| Statistic.EntryHoldsItsBets | kernel/src/model/statistic.rs:32-45 | a candidate's entry holds exactly the bets on it, and its amount is their sum |
| Statistic.UnknownCandidateDropped | kernel/src/model/statistic.rs:34-36 | a bet on a candidate not in the list appears in no entry |
| Statistic.CandidateWithoutBets | kernel/src/model/statistic.rs:20-47 | a candidate nobody bet on still has an entry, with amount 0 and no bets |
| MatchUseCases.NewCandidates | app/src/usecase/match.rs:56-61 | one new candidate per name, in order, each with its own id and the new match's id |
| MatchUseCases.StartedText | app/src/usecase/match.rs:74-83 | the start announcement, with the first candidate passed through `escape_arg` as written, which `ArgEscape.EscapeArgSplitsName` shows does not keep a name with a space together |
| MatchUseCases.CreateMatchOutcome | app/src/usecase/match.rs:24-90 | fewer than two names post the usage notice and fail; a match without a winner in the channel refuses the start; a match id already taken fails as unexpected with no change; otherwise the match row is stored, a candidate insert that fails leaves it stored and fails as unexpected, and one that succeeds posts the start announcement in the channel, the result following traQ's reply |
| MatchUseCases.RepeatedNameLeavesMatch | app/src/usecase/match.rs:44-69 | a repeated candidate name fails the start after the match row was already stored: the two inserts are not one transaction |
| MatchUseCases.CloseMatchOutcome | app/src/usecase/match.rs:91-119 | `EnabledMatchNotFound` exactly when the channel has no match, then with no change and no post; in a channel with a match the close always succeeds in the repository, the tables are those of the update and its title is announced in the channel, the result following traQ's reply |
| MatchUseCases.CloseTwice | app/src/usecase/match.rs:91-119 | a closed match can be closed again, and the later time is kept |
| MatchUseCases.FinishMatchOutcome | app/src/usecase/match.rs:120-180 | finishing never succeeds and never changes the tables; it posts one error notice in the channel, whose text is the one `FinishFailure` pairs with the repository error |
| MatchUseCases.FinishFailure | app/src/usecase/match.rs:132-147 | a not-found error maps to `EnabledMatchNotFound` and a duplicate to `WinnerCandidateAlreadySet`, and only those; the error is unexpected exactly when the text is the unexpected-error text |
| MatchUseCases.DeleteMatchOutcome | app/src/usecase/match.rs:181-222 | no match without a winner posts the not-found notice and fails; another repository error fails silently; success deletes and announces the cancellation |
| MatchUseCases.StartedChannelStaysTaken | app/src/usecase/match.rs:24-90 | after a successful start, cancelling fails as unexpected because candidates refer to the match, and a second start in the channel is refused |
| MatchUseCases.MatchUseCase.CreateMatch | app/src/usecase/match.rs:24-90 | the result, tables and posts are those of `CreateMatchOutcome` |
| MatchUseCases.MatchUseCase.CloseMatch | app/src/usecase/match.rs:91-119 | the result, tables and posts are those of `CloseMatchOutcome` |
| MatchUseCases.MatchUseCase.FinishMatch | app/src/usecase/match.rs:120-180 | the result, tables and posts are those of `FinishMatchOutcome` |
| MatchUseCases.MatchUseCase.DeleteMatch | app/src/usecase/match.rs:181-222 | the result, tables and posts are those of `DeleteMatchOutcome` |
| BetUseCases.ToNewBet | app/src/model/bet.rs:12-22 | the repository request carries the caller's channel, traQ id, candidate name and amount |
| BetUseCases.ClassifyRepositoryMessages | app/src/usecase/bet.rs:39-55 | the repository's not-found messages map to match, candidate and user not found, and a duplicate maps to a bet already existing |
| BetUseCases.Classify | app/src/usecase/bet.rs:39-55 | a missing match is reported exactly for a not-found message containing `Match`; a bet already existing exactly for a duplicate; any other repository error is unexpected |
| BetUseCases.CreateBetOutcome | app/src/usecase/bet.rs:18-56 | an empty name or a non-positive amount posts the usage notice and fails; each error holds exactly when its lookup fails; valid arguments that resolve without a clash store exactly the resolved bet and nothing else |
| BetUseCases.StoredBetIsTheCallers | app/src/usecase/bet.rs:18-56 | a stored bet has a positive amount, an open match of the caller's channel, the named candidate of that match and the caller's user |
| BetUseCases.BetUseCase.CreateBet | app/src/usecase/bet.rs:18-56 | the result, tables and posts are those of `CreateBetOutcome` |
| MessageUseCases.FirstUser | app/src/usecase/message/match.rs:54-58 | the first user row with that id, none exactly when there is none |
| MessageUseCases.BettorsNewestFirst | app/src/usecase/message/match.rs:51-60 | the folded bettor list is the bettors' mentions, newest bet first, with "unknown" for a missing user |
| MessageUseCases.Bettors | app/src/usecase/message/match.rs:51-60 | the bettor list is empty exactly when there are no bets; its order is stated by `MessageUseCases.BettorsNewestFirst` |
| MessageUseCases.BlocksLayout | app/src/usecase/message/match.rs:41-64 | the folded candidate blocks are one `- ` marker per candidate, then every candidate's line in the order of `new_statistics` |
| MessageUseCases.Blocks | app/src/usecase/message/match.rs:44-63 | the candidate blocks are empty exactly when there are no pools; their layout is stated by `MessageUseCases.BlocksLayout` |
| MessageUseCases.Content | app/src/usecase/message/match.rs:41-64 | the status text: the title header, then the candidate blocks of `MessageUseCases.Blocks` |
| MessageUseCases.UpsertOutcome | app/src/usecase/message/match.rs:16-104 | with a message id, the message is edited and the match is left alone; without one, a message is created in the channel, and only a delivered one has its id stored on the match |
| MessageUseCases.UpsertRecordsMessage | app/src/usecase/message/match.rs:78-99 | after the first upsert creates the message, the match holds its id and the next upsert edits that message |
| MessageUseCases.MessageUseCase.UpsertMatchMessage | app/src/usecase/message/match.rs:16-104 | the statistics are those of the match's candidates and bets; the result, tables and posts are those of `UpsertOutcome` |

## Left out

- Database connection and read failures are left out. The select calls are total filters
  over the table in row order, because their implementations are not part of this model.
  Only the errors the repository bodies construct are modelled (`RecordNotFound`,
  `DuplicatedRecord`, `UnexpectedError`).
- The error texts of the database are not modelled. A constraint violation carries the
  placeholder text `DatabaseRejected`. The repository's own texts (`Match not found`,
  `Candidate not found`, `User not found`) are kept, because the bet use case matches on
  them.
- `kernel/src/repository/error.rs` declares only two variants, but the repositories construct a
  third one, `RecordNotFound`. The model follows the repositories.
- The traQ HTTP client, the webhook transport, event JSON and the mention check in
  `handle` (driver/src/routes/message/message_created/mod.rs:106-113) are I/O. The client
  is a log of posts, and traQ's answer is the `Reply` parameter.
- The thin handlers (`reg`, `start`, `close`, `bet`, `cancel`, `finish`, `info`, `help`), the
  user use case and the help-message use case only copy fields. `MessageCreated.Route`
  stops at the handler and arguments it selects.
- UUID generation and clock reads are parameters: the ids of a new match, of its candidates
  and of a bet, and the time of a start or a close.
- `Statistic.NewStatistics`: the `f64` rate at kernel/src/model/statistic.rs:40 is not
  computed. The message use case takes its rendering as a caller-supplied
  `rate: Statistic -> string`. The field comment at line 9 describes a different ratio
  from the one line 40 computes (total over count). Which of them is meant is not decided
  here, and a candidate without bets gives NaN.
- `Statistic.Sum` adds amounts as unbounded integers; the `i32` overflow of `sum()` is not
  modelled.
- `Statistic.NewStatistics` fixes the multiset of entries and their descending order, but
  not the order among equal amounts. That order depends on the `HashMap` iteration order.
  `MessageUseCases.StatisticsOf` ties the message to whatever order the method produced.
- `MessageUseCases.MessageUseCase.UpsertMatchMessage` returns the statistics it used as a
  ghost out-parameter, so that its contract can name them.
- Ties in `order_by_desc(created_at)` go to the earliest row in table order.
- The close and finish requests are stated by `MatchUseCases.CloseRequest`: it sets the close
  time and leaves the winner. `MatchUseCases.FinishRequest` sets the winner by name and leaves
  the close time. The conversions themselves (app/src/model/match.rs) are not part of this
  model.
- `MatchUseCases.FinishMatchOutcome` has no success case: the repository refuses every winner
  given by name (adapter/src/repository/match.rs:152-175). The finished announcement is
  therefore never posted: `MatchUseCases.FinishedText` appears only in the unreachable success
  branch of `MatchUseCases.FinishMatchOutcome`.
- The guards on `is_set()` (adapter/src/repository/match.rs:144-151 and 176-178) test a freshly
  converted active model, where nothing is set. They are modelled and never fire.
- The migration has a `finished_at` column and no `winner_candidate_id`, and the generated
  entity `adapter/src/model/match.rs` differs from the repository bodies. The model follows
  the repository bodies.
- Settlement, payouts, the participation bonus and balance changes are mentioned only in the
  help texts; nothing in the core implements them, so they are not modelled.
- Transactions are sequential and all-or-nothing; concurrent requests are not modelled.
- `ArgParser.IsWhitespace` lists Rust's Unicode White_Space characters. Strings are sequences
  of Unicode scalar values, so no encoding is modelled.

- `Store.Database.InsertMatch` composes the corrected `MatchRepository.Insert`, which appends
  the row. As written, a start with a fresh match id stores nothing and fails as unexpected
  (`MatchRepository.InsertAsWrittenNeverStores`).
- `Store.Database.InsertBetForLatestMatch` composes the corrected
  `BetRepository.InsertForLatestMatch`, which appends the bet and looks only at the caller's
  channel. As written, a fresh bet is never stored (`BetRepository.AsWrittenNeverStores`), and
  the lookup can pick an open match of another channel (`BetRepository.AsWrittenTargetsOtherChannel`).
- `MatchUseCases.CreateMatchOutcome` composes the corrected `MatchRepository.Insert`. As
  written, every start with a fresh match id fails as unexpected after the name check, stores
  nothing and posts nothing; the candidate insert and the announcement are never reached.
- `MatchUseCases.RepeatedNameLeavesMatch` and `MatchUseCases.StartedChannelStaysTaken` describe
  a start that stored its match, which needs the corrected `MatchRepository.Insert`; as written
  no start gets that far.
- `MatchUseCases.MatchUseCase.CreateMatch` ends in `MatchUseCases.CreateMatchOutcome`, so it
  has the same gap.
- `BetUseCases.CreateBetOutcome` composes the corrected `BetRepository.InsertForLatestMatch`.
  As written, no valid bet is ever stored, and its lookup errors follow the open matches of
  every channel, not only the caller's.
- `BetUseCases.StoredBetIsTheCallers` describes a stored bet, which only the corrected insert
  produces; as written there is none.
- `BetUseCases.BetUseCase.CreateBet` ends in `BetUseCases.CreateBetOutcome`, so it has the
  same gap.

## Findings

| source | as written | input that shows it | evidently intended | confidence | as-written member | corrected member |
|---|---|---|---|---|---|---|
| app/src/usecase/mod.rs:6-13 | `escape_arg` escapes backslashes and quotes but adds no surrounding quotes, though its comment says it should | the candidate `a b`: the suggested `bet a b` command is read back as two arguments | wrap the escaped name in double quotes, so that `parse_args` reads it back as one argument | high, not executed | ArgEscape.EscapeArgSplitsName | ArgEscape.EscapeArgQuotedRoundTrip |
| adapter/src/repository/match.rs:62-76 | the new row is built as a `Model` and saved through `into_active_model().save()`; every field is unchanged, so sea-orm updates a row instead of inserting one | any start with a fresh match id: no row is written and the call fails | insert the new match row | medium, not executed | MatchRepository.InsertAsWrittenNeverStores | MatchRepository.Insert |
| adapter/src/repository/bet.rs:80-96 | the same `into_active_model().save()` on a fresh bet | any bet with a fresh id: no row is written and the call fails | insert the new bet row | medium, not executed | BetRepository.AsWrittenNeverStores | BetRepository.InsertForLatestMatch |
| adapter/src/repository/bet.rs:49-58 | the match lookup filters on open matches of every channel | an open match in channel `b` created after the one in `a`: a bet in `a` targets the match of `b` | also filter on the caller's channel | high, not executed | BetRepository.AsWrittenTargetsOtherChannel | BetRepository.InsertForLatestMatch |
| driver/src/routes/message/message_created/mod.rs:213-259 | `cancel` and `finish` receive the author's user id where the use cases expect the channel id | a `cancel` from user `u` in channel `c`: the latest match of "channel" `u` is looked up | pass the message's channel id | high, not executed | MessageCreated.AsWrittenCancelLeavesChannel | MessageCreated.RouteStaysInChannel |
