# Davomat bot: a Dafny model

A Dafny model of the attendance ("davomat") Telegram bot in `index.js`. The model covers:

- **Parsing:** the free-text attendance line `<sinf> <jami>/<kelgan> <names> kelmadi`. That is the class label, the enrolled and present counts, and the absent pupils, separated by commas or by "va".
- **Class names:** the hyphen variants of a class name ("7b" and "7-b").
- **Users and the owner:** `/start`, the users table, the owner, and access to a class.
- **Gates:** the group-chat gate and the two-step "allowed group" flow.
- **Report pipeline:** the report pipeline (`handleDavomat`) and the packed listing (`showDavomatList`).
- **Permission requests:** the permission-request workflow (the "Ha"/"Yo'q" buttons, `/ruhsat`, `/ruhsat_ber`, `/allow`, `/ruhsat_rad`).
- **Admin commands:** `/guruh_qosh`, `/guruhga_qosh`, `/allowed_group` and `/guruhlar`.

Modules and files:

- `text.dfy` (`Text`): the JavaScript string operations the bot relies on. These are `trim()`, the `\s` class, digit runs and `parseInt`, UTF-16 `length`, `join`, `split(/\s+/)`, and code-point order.
- `parser.dfy` (`AttendanceLine`): `parseDavomat`. The regular expression is modelled as a matcher, `MatchLine`, which is proved sound (`MatchLine` ensures) and complete (`MatchLineComplete`). The name splitter follows JavaScript's `split` on `/\s*,\s*|\s+va\s+/i`. A round trip is proved: a written line parses back to its report.
- `line_examples.dfy` (`AttendanceLineExamples`): the concrete lines from the bot's usage text and from its users.
- `groups.dfy` (`GroupNames`): `groupNameVariants`. Two names are variants of each other exactly when they share a hyphen-free key.
- `store.dfy` (`Store`): the rows of the six tables as datatypes, plus the pure rules applied to them: `ensureUser`, `isOwner`, the upserts, access to a class, and resolving requests.
- `listing.dfy` (`Listing`): grouping absentee rows by report, rendering a line per report, and the packing loop of `showDavomatList`. Proved properties:
  - no message exceeds 4000 code units;
  - every line is shown once, in order, and never cut.
- `bot.dfy` (`Bot`): the class `AttendanceBot`. It holds the store's tables as fields, the awaiting-chat-id set, and an `outbox` of every message the bot sends. Each handler is a method whose `ensures` states the new tables and the messages appended.

Modelling choices:

- The database, the chat transport and the clock are outside the model.
- A store write that the code checks for an error is given a `...Fails` flag.
- The member lookup `getChatMember` is an `Option<int>` parameter (`lookup`).
- Today's date and the formatted local date are parameters.
- The configured owner (`OWNER_ID`) is `owner: Option<int>`.
- The replies are a datatype of meanings (`Reply`), not the Uzbek texts.
- The source file's emoji are stored double-encoded (the listing header's bytes read as `ðŸ“‹`). The model reads them as the intended UTF-8 characters, so the header is "📋 Davomat:" followed by two newlines.

## Model

| member | source | states |
|---|---|---|
| AttendanceLine.ParseDavomat | index.js:55-71 | a parsed report has at most as many present as enrolled, at least one absent name, every name trimmed and non-empty, and a class label of the pattern's shape |
| AttendanceLine.ReportOf | index.js:61-70 | from a matched line: refused exactly when more are present than enrolled or no name is left after splitting and trimming; otherwise the class label, both counts as read by `parseInt`, and the cleaned names |
| AttendanceLine.MatchLine | index.js:56-60 | a match cuts the trimmed line into pieces of the shapes the regular expression prescribes, which glue back to exactly that line |
| AttendanceLine.MatchCounts | index.js:58 | the cuts found for `(\d+[-]?[a-z]?)\s+(\d+)\/(\d+)` fit the line: label, white space, digits, '/', digits |
| AttendanceLine.MatchTail | index.js:58 | the part `\s+(.+?)\s+kelmadi$` yields white space, a names group without line terminators, white space and the keyword in any case |
| AttendanceLine.SplitMiddle | index.js:58 | the text between counts and keyword splits into leading white space, its trimmed core (the lazy names group) and trailing white space |
| AttendanceLine.MatchLineComplete | index.js:57-60 | completeness: every well-shaped line whose names group starts and ends with a visible character is matched, with exactly those pieces |
| AttendanceLine.MatchCountsAt | index.js:58 | the counts part is matched at any fitting cuts when the present count is not followed by a digit (each group is forced) |
| AttendanceLine.SeparatorEnd | index.js:66 | a separator match starting at a position is never empty and stays inside the text |
| AttendanceLine.SplitNames | index.js:66 | `split` on the name separators yields at least one piece, even for the empty text |
| AttendanceLine.SplitInterleave | index.js:65-66 | written names (one word, or several such as "Ali Valiyev", with no comma and no word "va" inside) split back into exactly those names, whatever separators stand between them: a comma with any white space (or none) around it, or "va" in any case with a run of white space on each side |
| AttendanceLine.SeparatorMatch | index.js:66 | the separator pattern, tried where a separator is written and a name follows, matches exactly that separator, all of its white space included |
| AttendanceLine.OneWordName | index.js:66 | a name without white space or commas is a written name |
| AttendanceLine.CleanNames | index.js:67-68 | trimming and dropping empty pieces leaves only trimmed, non-empty names, never more than the pieces |
| AttendanceLine.CleanWrittenNames | index.js:67-68 | written names (trimmed, non-empty) pass through trimming and filtering unchanged |
| AttendanceLine.LineMatches | index.js:56-60 | a report line written from written names (one word or several) and separators without line breaks is unchanged by `trim()` and is matched into the pieces it was written from |
| AttendanceLine.ParseLine | index.js:55-71 | round trip: a line written from a class label, counts with present at most enrolled, and written names (one word or several, such as "Ali Valiyev") separated by commas or "va" with any white space around them but line breaks (the names group `.+?` crosses none) parses back to exactly that report |
| AttendanceLine.RefuseMorePresent | index.js:64 | a line that is well formed except that more are present than enrolled is refused |
| AttendanceLineExamples.ExampleOneAbsent | index.js:174 | the usage example "7-b 20/19 bobur kelmadi" parses to class 7-b, 20 enrolled, 19 present, absent ["bobur"] |
| AttendanceLineExamples.ExampleTwoAbsent | index.js:65-70 | "5-a 30/28 olim, dilnoza kelmadi" parses to two absent names in order |
| AttendanceLineExamples.ExampleTooManyPresent | index.js:64 | "7-b 19/20 bobur kelmadi" is refused |
| AttendanceLineExamples.ExampleNoNames | index.js:57-60 | "7-b 20/19 kelmadi" is refused: no names group can be matched |
| AttendanceLineExamples.ExampleFullName | index.js:66 | "Ali Valiyev, anvar" splits into ["Ali Valiyev", "anvar"]: the space inside a full name does not separate |
| AttendanceLineExamples.ExampleFullNameLine | index.js:55-71 | "7-b 20/19 Ali Valiyev kelmadi" parses to the single absent name "Ali Valiyev" |
| AttendanceLineExamples.ExampleWideSeparators | index.js:66 | "bobur ,  anvar", a tab, "va", a line break, a space and "olim" split into ["bobur", "anvar", "olim"]: all the white space belongs to the separators |
| AttendanceLineExamples.ExampleSeparators | index.js:66 | "bobur, anvar va olim" and "bobur, anvar VA olim" both split into ["bobur", "anvar", "olim"] |
| GroupNames.LetterForm | index.js:124-127 | a lettered class name is digits then one letter, with or without a hyphen between them |
| GroupNames.LetterFormOf | index.js:124-127 | both spellings of digits and a letter are recognised with the same digits and letter |
| GroupNames.GroupNameVariants | index.js:123-132 | the name itself comes first; a second, different spelling is added exactly for lettered class names |
| GroupNames.VariantsIffSameKey | index.js:122-132 | y is among the variants of x exactly when x and y have the same hyphen-free key |
| GroupNames.VariantsSymmetric | index.js:122-132 | being a variant is symmetric |
| GroupNames.ExampleSevenB | index.js:122-132 | "7b" and "7-b" are each other's variants; "8-b" is a variant of neither |
| Store.ConfiguredOwner | index.js:32-36 | there is an owner exactly when a first admin id is configured and it is not 0 |
| Store.OrNull | index.js:84 | an empty username is stored as null; any other is kept |
| Store.NewUser | index.js:80-95 | a created user is allowed and owner exactly when its id is the configured owner |
| Store.EnsuredUsers | index.js:73-96 | a stored user is returned unchanged; an unknown one is created; no other row changes |
| Store.EnsureUserIdempotent | index.js:73-96 | ensuring a user twice, with any usernames, changes nothing the second time |
| Store.EnsureUserKeepsOwners | index.js:98-105 | ensuring a user never changes who counts as owner (stored flag or configured id) |
| Store.IsOwnerIn | index.js:98-105 | definition of `isOwner` (stored flag or configured id); its properties are stated by `Store.EnsureUserKeepsOwners` and the handlers' owner checks |
| Store.NoOwnerZeroKept | index.js:73-96 | while 0 is not the configured owner, ensuring a user, granting permission and the `/guruhga_qosh` reset never flag user 0 as owner, so `getOwnerId` never misses a stored owner |
| Store.Granted | index.js:282-289 | the upsert with `is_allowed: true` makes the target allowed, keeps its other columns and leaves other users alone |
| Store.ResetForLink | index.js:447-450 | the upsert of `/guruhga_qosh` clears the target's permission and username, keeps its owner flag and leaves other users alone |
| Store.AccessBySpelling | index.js:134-150 | access to a class never depends on which spelling ("7b" or "7-b") the report uses |
| Store.PendingAfterAppend | index.js:323-327 | appending a request raises only its own user's pending count, by one when it is pending |
| Store.RequestKeepsAtMostOne | index.js:313-327 | a pending request added only for a user without one keeps "at most one pending request per user" |
| Store.Resolve | index.js:373 | only the target's pending rows take the new status; every other row is unchanged and the length is kept |
| Store.ResolvePending | index.js:391 | after approving or rejecting, the target has no pending request and every other user's count is unchanged |
| Store.ResolveKeepsAtMostOne | index.js:373 | resolving keeps "at most one pending request per user" |
| Store.AbsentRows | index.js:191-192 | one absentee row per name, in order, all under the new report's id |
| Text.Trim | index.js:56 | `trim()` returns a text no longer than its input, with no white space at either end |
| Text.NatToString | index.js:577 | the decimal rendering of a count has only digits, reads back as that count, and has no leading zero |
| Text.SplitSpaces | index.js:426 | `split(/\s+/)` yields at least one piece and no piece contains white space |
| Text.SplitSpacesJoin | index.js:426 | words without white space, joined by single spaces, split back into exactly those words |
| Text.Utf16LenBounds | index.js:581-584 | `length` counts every character as one or two UTF-16 code units |
| Text.JoinTrimmed | index.js:576 | a join whose first and last parts have no outer white space has none either, whatever the separator |
| Listing.GroupByReport | index.js:570-574 | the `byDavomat` dictionary holds exactly the report ids with absentee rows, each with its names in row order |
| Listing.NamesOfNewReport | index.js:191-192 | the absentee rows of a new report under a fresh id are found again, in the order written |
| Listing.NamesOf | index.js:570-574 | the names collected under one report id never outnumber the absentee rows |
| Listing.NamesOfTrimmed | index.js:570-574 | names stored trimmed are collected trimmed |
| Listing.ReportLinesAfterSave | index.js:184-192 | after saving a report under an id above every stored one, the listing gains exactly that report's line (with its names) in front, and the older lines are unchanged |
| Listing.ListableAddRows | index.js:191-192 | appending trimmed absentee names keeps every stored date ISO-shaped and every stored name trimmed |
| Listing.RenderLineTrimmed | index.js:577 | a rendered report line has no outer white space, so trimming a message never eats into a line |
| Listing.Pack | index.js:580-595 | the messages sent are those of `Messages`: the full text when it fits, else the packing loop |
| Listing.PackLoop | index.js:584-595 | the loop sends the trimmed buffers of the blocks `Blocks` describes, the last only when not blank |
| Listing.Feed | index.js:586-593 | one turn of the loop: flush the buffer before a line that would overflow it, or append the line |
| Listing.Blocks | index.js:585-593 | the blocks hold every line once and in order; only the first may be empty |
| Listing.MessagesBounded | index.js:581-594 | when no single line reaches 4000 UTF-16 code units, no message exceeds 4000 |
| Listing.ListingShowsEveryLine | index.js:579-595 | the messages are the header and the lines block by block, every line once, in order, none split; the full text goes out as one message when it fits |
| Listing.StoredListing | index.js:552-596 | for any stored reports (ISO dates, trimmed names) the listing shows every report's line once, newest first, never cut, and no message exceeds 4000 code units when no line does |
| Listing.HeaderLength | index.js:579 | the header counts 13 UTF-16 code units (the emoji takes two) |
| Bot.CommandArg | index.js:267 | the argument after a command is no longer than the text and has no outer white space |
| Bot.CommandArgOf | index.js:267 | the argument written one space after `/cmd` is exactly what the handler reads |
| Bot.ChatIdRoundTrip | index.js:478-480 | a chat id typed in decimal, with a minus sign for negatives, is the chat id stored |
| Bot.TargetIdOfNumber | index.js:271-273 | a numeral names the user with exactly that id, whatever the member lookup says |
| Bot.TargetIdOfUsername | index.js:274-279 | an `@username` argument names the user the member lookup finds, and no result counts as not found (0) |
| Bot.LinkWordsOf | index.js:426-434 | `/guruhga_qosh 123 7-b` splits into exactly the user id and the group name, and the words before the group name name user 123 |
| Bot.DisplayName | index.js:159 | a sender with a username is named "@username" to the owner |
| Bot.OrderedNames | index.js:546 | the group names come out strictly ascending and are exactly the stored names |
| Bot.FirstNameExists | index.js:546 | every non-empty set of names has a first one in code-point order |
| Bot.GroupedLinesAreReportLines | index.js:570-578 | rendering with the `byDavomat` dictionary gives the same lines as rendering each report with its own absentee rows |
| Bot.GroupedLines | index.js:575-578 | one rendered line per report, from the `byDavomat` dictionary |
| Bot.ReportReply | index.js:173-195 | the reply is the "saved" summary exactly when both inserts succeeded, and it carries the class, the counts and the names joined by ", " |
| Bot.AttendanceBot.constructor | index.js:32-39 | an empty store and no one awaiting, with the owner taken from the first admin id |
| Bot.AttendanceBot.EnsureUser | index.js:73-96 | the users table becomes `EnsuredUsers` of the old one and the returned row is the stored one |
| Bot.AttendanceBot.IsChatAllowed | index.js:113-120 | definition of `isChatAllowed`: a row for the chat exists; its use is stated by `Bot.AttendanceBot.ChatGate` |
| Bot.AttendanceBot.Start | index.js:212-259 | the sender is ensured; one with permission is welcomed; one with a pending request is told to wait; anyone else is asked to join, by `@username` when known |
| Bot.AttendanceBot.GetOwnerId | index.js:107-110 | never id 0; a stored owner whenever some user is flagged owner (and user 0 is not); the configured owner when no user is flagged owner |
| Bot.AttendanceBot.CanUserAccessGroup | index.js:134-150 | the loop over spellings answers true exactly when the sender is owner or linked to a group stored under some spelling |
| Bot.AttendanceBot.ChatGate | index.js:42-53 | the update goes on exactly when the chat is not a group or supergroup (a private chat or a channel), the text starts with `/allowed_group`, or the chat is allowed; otherwise one refusal is sent |
| Bot.AttendanceBot.AwaitingChatId | index.js:494-516 | only a non-command message from an awaiting owner is taken; it ends the wait, and a chat id is stored (or the store error reported), anything else answered with "must be a number" |
| Bot.AttendanceBot.ReceiveChatId | index.js:499-514 | a chat id is stored as allowed, keyed by id, with the owner who added it; anything else is refused |
| Bot.AttendanceBot.NotifyOwner | index.js:330-331 | at most one message, to a chat that is an owner's, and always one when an owner is configured |
| Bot.AttendanceBot.HandleDavomat | index.js:153-200 | the store keeps ISO dates and trimmed names; the sender is ensured; the outcome is not allowed, bad format, no access, either insert failed, or stored; a report row is appended exactly when every check passes and the first insert succeeds; absentee rows and the saved reply come only on full success |
| Bot.AttendanceBot.DavomatOfUser | index.js:156-199 | a sender without permission changes no table and gets the reminder or the opt-in prompt; otherwise the report is handled |
| Bot.AttendanceBot.RemindOrInvite | index.js:156-171 | with a pending request: "wait for approval" plus a notice to the owner; without one: the opt-in prompt |
| Bot.AttendanceBot.ReportParsed | index.js:172-195 | bad format and missing access change nothing; the report and absentee rows are appended as the inserts succeed |
| Bot.AttendanceBot.SaveReport | index.js:184-195 | the report row first, then one absentee row per name under its id; a failed second insert leaves the report without absentees |
| Bot.AttendanceBot.ShowDavomatList | index.js:552-596 | a user without permission gets a refusal; no reports gets "no records"; otherwise the listing's messages for all reports, newest first: the header, then every report's line once, in order, none split |
| Bot.AttendanceBot.Show | index.js:599-605 | `/show` with any argument but "davomat" (in any ASCII case) changes nothing and gets the usage line; with it, the sender is ensured and the listing is sent exactly as by `showDavomatList` |
| Bot.AttendanceBot.ShowArg | index.js:601-604 | the same, once the argument has been cut from the command text |
| Bot.AttendanceBot.Davomat | index.js:608-614 | `/davomat` without text sends the listing and stores nothing; with text, that text is handled as a report line, with the outcome and rows of `handleDavomat` |
| Bot.AttendanceBot.Add | index.js:617-623 | `/add` without text changes nothing and gets the usage line; with text, that text is handled as a report line |
| Bot.AttendanceBot.OnText | index.js:626-630 | a plain text starting with '/' is dropped and changes nothing; any other text is handled as a report line, untrimmed |
| Bot.AttendanceBot.RuhsatHa | index.js:308-349 | afterwards the user has exactly one pending request; a second press adds none and answers "already requested"; the first appends one and notifies the owner |
| Bot.AttendanceBot.RuhsatYoq | index.js:351-356 | the "Yo'q" button only thanks the user |
| Bot.AttendanceBot.Ruhsat | index.js:262-291 | a non-owner changes nothing; an owner gives the named user permission, or gets the usage or not-found reply |
| Bot.AttendanceBot.GrantFor | index.js:263-290 | the same, once the argument has been cut from the command text |
| Bot.AttendanceBot.GrantNamed | index.js:267-290 | an empty argument or a user not found changes nothing; otherwise the user is granted |
| Bot.AttendanceBot.Approve | index.js:359-378 | `/ruhsat_ber` (and `/allow`, which behaves the same with its own texts): a non-owner or a non-numeric argument changes nothing; otherwise the user is granted, their pending request approved, and the user told |
| Bot.AttendanceBot.ApproveNumbered | index.js:524-537 | the body of `/allow` (the same as that of `/ruhsat_ber`): only a numeral names the user; granting and approving touch only that user's rows, and the user is told |
| Bot.AttendanceBot.RuhsatRad | index.js:381-396 | a non-owner changes nothing; an owner rejects the user's pending request without touching any permission |
| Bot.AttendanceBot.RejectFor | index.js:382-395 | the same, once the argument has been cut from the command text |
| Bot.AttendanceBot.RejectNumbered | index.js:386-395 | only a numeral names the user; only that user's pending rows become rejected |
| Bot.AttendanceBot.GuruhQosh | index.js:399-418 | the sender is ensured even when refused; a non-owner adds nothing; a taken name is reported apart from other store errors |
| Bot.AttendanceBot.AddGroup | index.js:405-417 | an empty name, a taken name or a failed insert adds nothing; otherwise the group is stored under exactly that name |
| Bot.AttendanceBot.GuruhgaQosh | index.js:421-457 | a non-owner changes nothing; the last word names the group by its exact stored name and the words before it name the user |
| Bot.AttendanceBot.LinkFromWords | index.js:426-442 | fewer than two words or an unknown user changes nothing |
| Bot.AttendanceBot.LinkToGroup | index.js:443-456 | an unknown group changes nothing; otherwise the user loses permission and is linked unless the upsert fails |
| Bot.AttendanceBot.AllowedGroup | index.js:460-491 | a non-owner changes nothing; in a group chat that chat is allowed; in private a chat id argument is allowed at once, and without one the owner is put in the awaiting set |
| Bot.AttendanceBot.AllowFromPrivate | index.js:476-490 | a chat id argument ends the wait and is stored; anything else starts the wait |
| Bot.AttendanceBot.AllowChat | index.js:469-474 | the allowed-chats upsert, keyed by chat id with who added it, and its reply |
| Bot.AttendanceBot.Guruhlar | index.js:541-549 | a non-owner is refused; no groups gets "no groups"; otherwise one message listing every stored name once, in ascending order |

## Left out

- Telegraf wiring is not modelled: `bot.launch`, the retry loop, signal handlers and `bot.catch`. Which handler Telegraf picks for an update (a registered command, or the text handler) is taken as given; the handlers themselves are modelled.
- Environment parsing of `ADMIN_USER_IDS` is not modelled. The first parsed id is a parameter (`ConfiguredOwner`).
- The Supabase client is not modelled. Writes whose errors the code ignores are modelled as succeeding:
  - the users upsert of `ensureUser` (so `/start` never falls back to the join question on a store error);
  - the users upserts of `/ruhsat`, `/ruhsat_ber` and `/allow`;
  - the users upsert of `/guruhga_qosh`;
  - the request insert and update.
- Transport failures are not modelled: `safeReply`, `answerCbQuery`, and the swallowed errors of every `sendMessage`. A message is appended to `outbox` as sent.
- Wall-clock time is not modelled. The stored date (`toISOString().slice(0, 10)`, a `YYYY-MM-DD` text, `IsoDate`) and the formatted local date of the confirmation are parameters.
- Concurrency is not modelled. Each handler runs to completion on its own, so the check-then-insert race on pending requests cannot occur in the model.
- `server.js` is not part of this model.
- Exceptions thrown by the store client (the `catch` in `handleDavomat`) are not modelled. Store errors are the `...Fails` flags.
- Bot.AttendanceBot.GetOwnerId: `limit(1)` does not say which stored owner comes back. The contract allows any user flagged owner. That a stored owner is found relies on no row of user 0 being flagged owner, which the bot's own writes keep (`NoOwnerZeroKept`); a row written by hand outside the bot is not modelled.
- Text.DigitsValue: `parseInt` is exact on unbounded integers. The source loses precision above 2^53, and that loss is not modelled.
- Listing.ReportLines: "newest first" is modelled as the reverse of insertion order. The source orders by `created_at`, and ties are not modelled.
- Listing.GroupByReport: absentee rows are taken in insertion order. The database returns the `in` query in an unspecified order.
- Bot.OrderedNames: `order('name')` is modelled as code-point order. The database's collation is not modelled.
- Listing.PackLoop: the chunking follows the code, not the fewest possible messages. The buffer test counts the trailing newline that `trim()` later removes, so a buffer may be flushed one character early.
- Bot.CommandArg: a command addressed as `/cmd@botname` keeps the `@botname` suffix, as `replace(/^\/cmd\s*/i, '')` does in the source; the model shares this behaviour rather than leaving it out.
- Bot.CommandArg: the pattern `^\/cmd\s*` would also strip the prefix of a longer command name. Telegraf only dispatches exact commands, so this does not arise.
- Bot.AttendanceBot.AwaitingChatId: an update without a sender is modelled as sender id 0. An update without text is modelled as the empty text.
- Bot.AttendanceBot.HandleDavomat: the model parses the text before the permission check. Parsing is pure, so nothing observable changes.
- Bot.AttendanceBot.Start: a failed reply is retried with a shorter text in the source; transport failures are not modelled, so the first reply is the one sent.
- Bot.AttendanceBot.RemindOrInvite: `maybeSingle()` finds a pending request only when there is exactly one. The model uses the same test, and `Valid` keeps at most one per user.
