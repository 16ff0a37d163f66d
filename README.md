# BotForge Studio core, modelled in Dafny

BotForge Studio is a web application for writing Discord bots and keeping their code in
GitHub repositories. This project models its decision logic and the state updates
around it, and proves properties about them:

- **The GitHub webhook** (`POST /api/github/webhook`):
  - the signature gate;
  - the push-event write of `commits` and `last_sync` to `Github_Repos`;
  - the flattening of the changed files of the push, and the `bot.js` / `discord-bot` relevance test;
  - the redeploy trigger for the linked bot.
- **The push route** (`POST /api/github/push`):
  - parsing of the Bearer header;
  - the `owner/repo` split;
  - the `sha` taken from the lookup;
  - the default commit message;
  - the Base64 content. Base64 follows section 4 of RFC 4648, over the UTF-8 bytes of the code.
- **The bot test route** (`POST /api/bot/test`): the Discord token check, then the `client.login` and `require('discord.js')` substring checks, in that order.
- **The OAuth entry route** (`GET /api/auth`):
  - the provider whitelist;
  - the `returnTo` default;
  - the scope choice;
  - the callback URL, whose `returnTo` is percent-encoded as `encodeURIComponent` does (section 2.1 of RFC 3986, over UTF-8 bytes);
  - the error redirect.
- **The repository page** (`GitHubRepos`): the statistics computed from the rows, and `syncRepo` with its guards, its push call, its write and its `syncing` map.
- **The dashboard** (`BotDashboard`): create, start/stop and delete as updates of the `bots` list, and the status badge.
- **The editor** (`BotEditor`):
  - the code it opens with;
  - the quick actions "Load Template", "Format Code", the suggestion buttons and the invite link;
  - `testBot` with its append-only terminal log;
  - `saveCode` / `pushToGitHub` with their guards.

Everything outside the program is an input of the model:
- the Supabase store's answers;
- the GitHub and Discord responses;
- the OAuth service;
- the HMAC-SHA256 hex digest, modelled as a function parameter `hmacHex(secret, body)`;
- `JSON.parse`, the clock, and the answers to `confirm`.

The `Github_Repos` table is a `RepoStore.Table` object whose `rows` the webhook and the repository page update in place. The dashboard and the editor are classes whose fields are the component's state.

Modules:
- `Wrappers`: the `Option` type.
- `Text`: the JavaScript string operations `includes`, `indexOf`, `replace` (with the `$$`, `$&`, `` $` `` and `$'` patterns of its replacement text) and `split` / `join`.
- `Utf8`, `Base64`, `UriComponent`: the encodings.
- `RepoStore`: the `Github_Repos` rows, `.update().eq()`, `.select().eq().single()`.
- `Webhook`, `PushRoute`, `BotTestRoute`, `AuthRoute`: the four routes.
- `GitHubRepos`, `BotDashboard`, `BotEditor`: the three components.
- `BotTemplate`: the editor's bot template.
- `CodeFormat`: the "Format Code" rewrite.

Where the code and the design intent differ, the model follows the code:
- the signature is compared with `!==`, not in constant time;
- every push that passes the gate rewrites `commits` and `last_sync`, whether or not it is relevant, and with no check that `last_sync` only moves forward;
- the write stays in place when the relevance test throws afterwards and the route answers 500;
- the `sha` lookup is not a compare-and-swap: a failed lookup simply means "create";
- a redelivered push is applied again. Applying the same write twice still leaves the table as one write does (`RepoStore.RecordPushIdempotent`).

## Model

| member | source | states |
|---|---|---|
| Webhook.Post | app/api/github/webhook/route.js:6-67 | a failing signature gives 401, unparsable JSON gives 500, and a non-push event gives success, all with no store write and no trigger; a push naming a repository sets `commits` to the commit count (0 when absent) and `last_sync` on every row with that name, before the relevance test; the answer is 500 when that test throws, success otherwise; a trigger fires exactly when some changed path is relevant, for the linked bot |
| Webhook.NoSecretIgnoresSignature | app/api/github/webhook/route.js:12-13 | with no secret, or an empty one, any signature header or none passes |
| Webhook.MissingSignatureFails | app/api/github/webhook/route.js:13-22 | with a secret, a request without the header never passes |
| Webhook.AnyRelevant | app/api/github/webhook/route.js:43 | `some` answers true exactly when a relevant path comes before any `undefined` element; it throws exactly when an `undefined` element comes before any relevant path |
| Webhook.Defined | app/api/github/webhook/route.js:42 | the paths of a list become defined array elements, one for one and in order |
| Webhook.ChangedFilesComplete | app/api/github/webhook/route.js:42 | for commits carrying all three lists, the changed files are, commit by commit, `added ++ modified ++ removed` |
| Webhook.ChangedFilesAppend | app/api/github/webhook/route.js:42 | flattening distributes over concatenation of the commit list |
| Webhook.FlatMapAppend | app/api/github/webhook/route.js:42 | `flatMap` of a concatenation is the concatenation of the two `flatMap`s |
| Webhook.ChangedFilesThrows | app/api/github/webhook/route.js:42 | a commit without `added` anywhere in the list makes the flattening throw |
| Webhook.DefinedAppend | app/api/github/webhook/route.js:42 | `concat` of defined lists is the concatenation of their elements |
| Webhook.TriggerIgnoresWrite | app/api/github/webhook/route.js:33-51 | the bot found after the write is the bot linked before it |
| Webhook.PushedPathsRelevant | app/api/github/webhook/route.js:43 | the two paths the application pushes to, `bot.js` and `discord-bot/bot.js`, are relevant |
| RepoStore.Where | app/api/github/webhook/route.js:45-49 | the filter keeps rows satisfying the condition and is no longer than the table |
| RepoStore.WhereMembers | app/api/github/webhook/route.js:45-49 | a row is in the filter exactly when it is in the table and satisfies the condition |
| RepoStore.Single | app/api/github/webhook/route.js:45-49 | `.single()` yields a row only when exactly one matches, and that row is the only match |
| RepoStore.UpdateWhere | app/api/github/webhook/route.js:33-39 | `.update().eq()` rewrites every matching row and keeps the others in place |
| RepoStore.RecordPush | app/api/github/webhook/route.js:33-39 | the webhook write sets `commits` and `last_sync` on exactly the rows with that name |
| RepoStore.RecordSync | app/components/GitHubRepos.jsx:125-131 | the sync write sets `last_sync` and `discord_bot_id` on exactly the rows with that id |
| RepoStore.WhereUpdate | app/api/github/webhook/route.js:33-49 | filtering after an update that keeps the filtered column gives the updated matches |
| RepoStore.RecordPushKeepsLink | app/api/github/webhook/route.js:33-49 | the lookup by name finds a row after the write exactly when it did before, with the same linked bot |
| RepoStore.RecordPushOwned | app/api/github/webhook/route.js:33-39 | the webhook write keeps each row's owner: a user's rows after it are that user's rows before it, with the push recorded |
| RepoStore.RecordSyncOwned | app/components/GitHubRepos.jsx:125-131 | the sync write keeps each row's owner: a user's rows after it are that user's rows before it, with the sync recorded |
| RepoStore.RecordPushIdempotent | app/api/github/webhook/route.js:33-39 | applying the same push write twice leaves the table as one write does |
| RepoStore.RecordSyncIdempotent | app/components/GitHubRepos.jsx:125-131 | applying the same sync write twice leaves the table as one write does |
| RepoStore.SyncLinksExactly | app/components/GitHubRepos.jsx:125-131 | when no row was linked to the bot, the rows linked after a sync write are exactly the rows with that id |
| RepoStore.SyncThenSingle | app/components/GitHubRepos.jsx:125-131 | after syncing the one row with an id to an unlinked bot, the lookup by bot finds that row |
| RepoStore.Table.constructor | app/api/github/webhook/route.js:33-39 | the table holds the rows it is given |
| PushRoute.Post | app/api/github/push/route.js:4-65 | 401 without a Bearer header, before the body; 500 with the failure prefix for malformed JSON, a missing name or missing content; 400 for a bad name; otherwise one lookup of owner, repository and path and one write carrying the token, the defaulted message, the Base64 content, the committer and the looked-up `sha` (none when the lookup fails); then 200 or 500 with the prefix |
| PushRoute.BearerToken | app/api/github/push/route.js:6-14 | a token is produced exactly when the header exists and starts with `Bearer ` |
| PushRoute.BearerTokenStrips | app/api/github/push/route.js:14 | the token is the header with its leading `Bearer ` removed |
| PushRoute.BearerTokenRoundTrip | app/api/github/push/route.js:14 | a header `Bearer <t>` gives back `t` |
| PushRoute.OwnerRepo | app/api/github/push/route.js:17-23 | an accepted name yields a non-empty owner and repository |
| PushRoute.OwnerRepoOfJoin | app/api/github/push/route.js:17 | owner and repository are the first two `/`-segments; further segments are ignored |
| PushRoute.OwnerRepoShape | app/api/github/push/route.js:17-18 | an accepted name starts with `owner/repo`, both free of `/` |
| PushRoute.OwnerRepoRejects | app/api/github/push/route.js:18-23 | `x`, `/x` and `x/` are rejected |
| PushRoute.OwnerRepoOfSplit | app/api/github/push/route.js:18-23 | two segments, one of them empty, are rejected |
| PushRoute.CommitMessage | app/api/github/push/route.js:45 | a truthy message is kept; the message is never empty |
| PushRoute.EncodedContent | app/api/github/push/route.js:46 | the Base64 text has four characters per started group of three bytes |
| PushRoute.EncodedContentRoundTrip | app/api/github/push/route.js:46 | the uploaded content decodes to the UTF-8 bytes of the code, and those to the code |
| Base64.Char | app/api/github/push/route.js:46 | no alphabet character is the padding `=` |
| Base64.Value | app/api/github/push/route.js:46 | a character's value is a 6-bit number whose alphabet character is that character |
| Base64.ValueChar | app/api/github/push/route.js:46 | the value of the alphabet character of `v` is `v` |
| Base64.Encode | app/api/github/push/route.js:46 | the output length is `4 * ceil(n / 3)` |
| Base64.GroupBits | app/api/github/push/route.js:46 | the four 6-bit values of a 3-byte group give back the three bytes |
| Base64.DecodeQuadFull | app/api/github/push/route.js:46 | a full group decodes to its three bytes |
| Base64.DecodeOne | app/api/github/push/route.js:46 | a final 1-byte group (`xx==`) decodes to its byte |
| Base64.DecodeTwo | app/api/github/push/route.js:46 | a final 2-byte group (`xxx=`) decodes to its bytes |
| Base64.DecodeCons | app/api/github/push/route.js:46 | decoding proceeds group by group |
| Base64.DecodeEncodeGroup | app/api/github/push/route.js:46 | one more leading group keeps the round trip |
| Base64.DecodeEncode | app/api/github/push/route.js:46 | decoding the encoding gives back the bytes |
| Base64.EncodeAlphabet | app/api/github/push/route.js:46 | the output holds only alphabet characters and `=` |
| Utf8.EncodeChar | app/api/github/push/route.js:46 | a character takes 1 to 4 bytes, and 1 exactly when it is ASCII |
| Utf8.Encode | app/api/github/push/route.js:46 | the encoding has between 1 and 4 bytes per character |
| Utf8.DecodeChar | app/api/github/push/route.js:46 | a decoded character consumes 1 to 4 bytes |
| Utf8.DecodeEncodeChar | app/api/github/push/route.js:46 | an encoded character decodes to itself and its width, whatever follows |
| Utf8.DecodeTwoBytes | app/api/github/push/route.js:46 | same, for two-byte characters |
| Utf8.DecodeThreeBytes | app/api/github/push/route.js:46 | same, for three-byte characters |
| Utf8.DecodeFourBytes | app/api/github/push/route.js:46 | same, for four-byte characters |
| Utf8.DecodeEncode | app/api/github/push/route.js:46 | decoding the encoding gives back the string |
| Utf8.EncodeAscii | app/api/github/push/route.js:46 | ASCII text encodes to its own code units |
| BotTestRoute.CodeError | app/api/bot/test/route.js:25-38 | code passes exactly when it contains both `client.login` and `require('discord.js')`; missing `client.login` is reported as such |
| BotTestRoute.Post | app/api/bot/test/route.js:3-57 | malformed JSON or a throwing fetch gives 500 `Test failed: `; a rejected token gives 401; a failed code check gives 400 with `Code validation failed: ` and the check's message |
| BotTestRoute.PassesIff | app/api/bot/test/route.js:15-49 | the test passes exactly when the body parses, Discord accepts the token and both substrings are present; the reply then echoes the bot user |
| BotTestRoute.RejectedTokenIgnoresCode | app/api/bot/test/route.js:15-20 | with a rejected token the answer does not depend on the code |
| BotTestRoute.LoginCheckedFirst | app/api/bot/test/route.js:27-32 | code missing both substrings is reported as missing `client.login()` |
| BotTestRoute.ImportIsExact | app/api/bot/test/route.js:30-32 | a double-quoted `require("discord.js")` fails the import check |
| BotTestRoute.NoSingleQuote | app/api/bot/test/route.js:30 | text without `'` contains no substring that has one |
| AuthRoute.Request | app/api/auth/route.js:6-19 | the OAuth call is made exactly for `discord` and `github`, with that provider and scopes `repo,user` for github, `identify email` otherwise |
| AuthRoute.Handle | app/api/auth/route.js:4-26 | an unsupported provider redirects to `/` with no call; an OAuth error redirects to `/?error=<message>`; otherwise to the provider URL |
| AuthRoute.CallbackCarriesReturnTo | app/api/auth/route.js:7-16 | the callback URL is the site, `/auth/callback?returnTo=`, then one value that decodes to `returnTo` (or `/dashboard` when it is absent or empty) and holds no `&`, `#` or `=` |
| UriComponent.HexValue | app/api/auth/route.js:16 | a hex digit's value is below 16 |
| UriComponent.HexDigitValue | app/api/auth/route.js:16 | reading back a written hex digit gives its value |
| UriComponent.DecodeEncodeByte | app/api/auth/route.js:16 | one encoded byte in front decodes to that byte in front |
| UriComponent.DecodeEncodeBytes | app/api/auth/route.js:16 | percent-decoding the encoding of bytes gives them back |
| UriComponent.DecodeEncode | app/api/auth/route.js:16 | `decodeURIComponent(encodeURIComponent(s)) == s` |
| UriComponent.EncodeUnescaped | app/api/auth/route.js:16 | text made only of characters `encodeURIComponent` does not escape is left as it is |
| UriComponent.EncodeBytesSafe | app/api/auth/route.js:16 | the encoding holds only characters `encodeURIComponent` does not escape, `%` and hex digits, and none of `&=#?/` or space |
| GitHubRepos.SyncedCount | app/components/GitHubRepos.jsx:48 | the synced count is at most the number of rows |
| GitHubRepos.LastSync | app/components/GitHubRepos.jsx:50 | the first row's truthy `last_sync`, else null |
| GitHubRepos.ComputeStats | app/components/GitHubRepos.jsx:46-51 | total is the row count, synced is at most the total, commits is the sum with missing counts as 0, and last sync is the first row's |
| GitHubRepos.FoldIsSum | app/components/GitHubRepos.jsx:49 | the left fold from `acc` adds the sum of the counts to `acc` |
| GitHubRepos.CommitsOfAppend | app/components/GitHubRepos.jsx:49 | the commit total of two lists is the sum of their totals |
| GitHubRepos.CommitsOfMissing | app/components/GitHubRepos.jsx:49 | rows without counts add nothing |
| GitHubRepos.RecordSyncCount | app/components/GitHubRepos.jsx:48-131 | a sync write never lowers the synced count, and raises it when the row was unlinked |
| GitHubRepos.FindRepo | app/components/GitHubRepos.jsx:93 | `find` returns the first row with that id, or none when no row has it |
| GitHubRepos.FindBot | app/components/GitHubRepos.jsx:94 | `find` returns a bot with that id, or none when no bot has it |
| GitHubRepos.AuthorizationAccepted | app/components/GitHubRepos.jsx:113 | the header the page sends is accepted by the push route with the same token |
| GitHubRepos.SyncPathRelevant | app/components/GitHubRepos.jsx:118 | the sync path is one the webhook treats as a bot change |
| GitHubRepos.ReposPage.constructor | app/components/GitHubRepos.jsx:18-29 | empty lists and map, loading, zero statistics |
| GitHubRepos.ReposPage.FetchData | app/components/GitHubRepos.jsx:35-55 | without a user nothing changes; otherwise the rows are the user's rows of the table, the statistics are computed from them, the bot list is replaced when read, and loading ends |
| GitHubRepos.ReposPage.SyncRepo | app/components/GitHubRepos.jsx:83-143 | `syncing[repoId]` is true during the call and false after, other keys back to the snapshot; a push is sent exactly when there are a token, code, the repository and the bot, to `discord-bot/bot.js` with `Sync Discord bot: <name>`; the table is written only after an ok answer; after an ok answer with a user the page shows that user's rows, their statistics and the bot list read, and loading ends; otherwise rows, statistics, bots and loading stay as they were |
| BotDashboard.NextStatus | app/components/BotDashboard.jsx:93 | `online` becomes `offline`; every other status becomes `online` |
| BotDashboard.NextStatusTwice | app/components/BotDashboard.jsx:93 | toggling twice restores `online` or `offline` |
| BotDashboard.TestingStarts | app/components/BotDashboard.jsx:93 | `testing` toggles to `online` |
| BotDashboard.Badge | app/components/BotDashboard.jsx:204-206 | `online` and `testing` get their own badge and every other status `status-offline`, each in both directions |
| BotDashboard.WithStatus | app/components/BotDashboard.jsx:102 | same length and order; only entries with that id get the new status |
| BotDashboard.WithStatusKeepsIds | app/components/BotDashboard.jsx:102 | ids stay in place, and removing the id afterwards is as removing it before |
| BotDashboard.WithoutWithStatus | app/components/BotDashboard.jsx:102-116 | deleting after a status change equals deleting before it |
| BotDashboard.Without | app/components/BotDashboard.jsx:116 | exactly the entries with that id are removed |
| BotDashboard.WithoutAppend | app/components/BotDashboard.jsx:116 | the filter keeps order (it distributes over concatenation) |
| BotDashboard.WithoutAbsent | app/components/BotDashboard.jsx:116 | deleting an absent id leaves the list as it is |
| BotDashboard.NewRow | app/components/BotDashboard.jsx:73-80 | a new bot is `offline`, with client id `pending` and the starter code |
| BotDashboard.Dashboard.constructor | app/components/BotDashboard.jsx:42 | the list is the one given |
| BotDashboard.Dashboard.Create | app/components/BotDashboard.jsx:68-90 | a row is inserted exactly with a user; the stored bot is put first on success; the list is unchanged on error |
| BotDashboard.Dashboard.Toggle | app/components/BotDashboard.jsx:92-104 | the status written is the toggle of the bot's; on success only that id's status changes |
| BotDashboard.Dashboard.Delete | app/components/BotDashboard.jsx:106-118 | no store call without confirmation; on success exactly that id's entries are gone |
| BotTemplate.AssembledContains | app/components/BotEditor.jsx:25-73 | a template assembled around the import, `client.login` and the placeholder contains all three |
| BotTemplate.MarkersApartFromPlaceholder | app/components/BotEditor.jsx:26-73 | no character of either marker occurs in `YOUR_BOT_TOKEN_HERE` |
| BotEditor.InitialCode | app/components/BotEditor.jsx:75-81 | truthy saved code is opened as it is |
| BotEditor.TokenUsed | app/components/BotEditor.jsx:79 | the bot's token when truthy, and never empty |
| BotEditor.InitialCodePasses | app/components/BotEditor.jsx:75-81 | without saved code, the code passes the test route's checks, and carries the bot's token or `YOUR_TOKEN` when it has no `$` |
| BotEditor.InitialCodePassesAs | app/components/BotEditor.jsx:75-81 | the same, stated for the template text itself |
| BotEditor.SavedCodeWins | app/components/BotEditor.jsx:76-77 | saved code is opened even when it fails the checks |
| BotEditor.AssembledTemplate | app/components/BotEditor.jsx:25-73 | the assembled template holds the import, `client.login` and the placeholder |
| BotEditor.TemplateMarkers | app/components/BotEditor.jsx:25-73 | the template holds the import, `client.login` and the placeholder |
| BotEditor.TemplatePasses | app/components/BotEditor.jsx:25-73 | the raw template passes the test route's code checks |
| BotEditor.TemplatePassesAs | app/components/BotEditor.jsx:25-73 | the same, stated for a string equal to the template |
| BotEditor.ReplacedPasses | app/components/BotEditor.jsx:79 | replacing the placeholder keeps both markers, and inserts a replacement without `$` |
| BotEditor.DollarTokenKeepsPlaceholder | app/components/BotEditor.jsx:75-81 | a bot whose token is `$&` opens with the template unchanged, placeholder included |
| BotEditor.DollarTokenKeepsPlaceholderAs | app/components/BotEditor.jsx:75-81 | the same, stated for the template text itself |
| BotEditor.FreshBotTestPasses | app/components/BotEditor.jsx:172-200 | with the token accepted, testing a fresh bot's code logs a success |
| BotEditor.WithSuggestion | app/components/BotEditor.jsx:422 | the old code is a prefix, and the length grows by the comment block |
| BotEditor.SuggestionAppended | app/components/BotEditor.jsx:422 | the suggestion's text follows the old code and `\n\n// ` |
| BotEditor.SuggestionKeepsCheck | app/components/BotEditor.jsx:422 | a suggestion never makes passing code fail the checks |
| BotEditor.FormatKeepsCheck | app/components/BotEditor.jsx:495 | formatting never makes passing code fail the checks |
| BotEditor.InviteLink | app/components/BotEditor.jsx:522-529 | a link exists exactly when the client id is truthy and not `pending` |
| BotEditor.InviteLinkRoundTrip | app/components/BotEditor.jsx:524 | the client id is read back from the link |
| BotEditor.NewBotHasNoInvite | app/components/BotEditor.jsx:523 | a bot just created on the dashboard has no invite link |
| BotEditor.TestEntry | app/components/BotEditor.jsx:196-212 | the second line is `success` exactly when the route passed the bot, and never `info` |
| BotEditor.SavePushLands | app/components/BotEditor.jsx:150-161 | the push route accepts the editor's header with the same token and keeps its message; the webhook counts `bot.js` as a bot change |
| BotEditor.SyncThenSavePushes | app/components/BotEditor.jsx:122-129 | after the repository page links a repository to an unlinked bot, saving that bot finds that repository |
| BotEditor.Editor.constructor | app/components/BotEditor.jsx:16-20 | the editor opens with the initial code, flags down and an empty log |
| BotEditor.Editor.LoadTemplate | app/components/BotEditor.jsx:484-488 | the code becomes the raw template, placeholder included |
| BotEditor.Editor.FormatCode | app/components/BotEditor.jsx:493-498 | the code becomes its formatted form |
| BotEditor.Editor.AddSuggestion | app/components/BotEditor.jsx:421-424 | the suggestion block is appended to the code |
| BotEditor.Editor.TestBot | app/components/BotEditor.jsx:172-217 | sends the bot's token and the code; the log is the old log plus the start line and exactly one outcome line; the terminal shows and the running flag is down at the end |
| BotEditor.Editor.SaveCode | app/components/BotEditor.jsx:98-170 | the code is written only with a user; a push to `bot.js` with `Update Discord bot code` happens exactly when there are a user, a successful write, a single linked repository and a provider token; the saving flag is down at the end |
| CodeFormat.NLEnd | app/components/BotEditor.jsx:495 | the end of the last line feed of the leading whitespace run: all whitespace before it, a line feed just before it |
| CodeFormat.MatchLen | app/components/BotEditor.jsx:495 | a match is at least three characters and fits in the text |
| CodeFormat.MatchLenSound | app/components/BotEditor.jsx:495 | the match taken is a word of `\n\s*\n\s*\n` |
| CodeFormat.MatchLenLongest | app/components/BotEditor.jsx:495 | whenever a prefix matches the pattern, a match is taken and it is the longest |
| CodeFormat.LeadNLFormat | app/components/BotEditor.jsx:495 | formatting never adds line feeds to the leading whitespace run |
| CodeFormat.AfterLastNewline | app/components/BotEditor.jsx:495 | after the match no line feed is left in the whitespace run |
| CodeFormat.FormatNoMatch | app/components/BotEditor.jsx:495 | the result contains no match anywhere |
| CodeFormat.NoMatchAfterBreak | app/components/BotEditor.jsx:495 | the inserted `\n\n` before a match-free rest forms no match |
| CodeFormat.NoMatchCons | app/components/BotEditor.jsx:495 | a copied character forms no new match |
| CodeFormat.FormatFixed | app/components/BotEditor.jsx:495 | text without a match is left as it is |
| CodeFormat.FormatIdempotent | app/components/BotEditor.jsx:495 | formatting twice is formatting once |
| CodeFormat.FormatNoTripleBreak | app/components/BotEditor.jsx:495 | in the result, the whitespace run from any line feed holds at most two line feeds |
| CodeFormat.FormatKeepsPrefix | app/components/BotEditor.jsx:495 | a whitespace-free prefix survives formatting |
| CodeFormat.SkipSpaces | app/components/BotEditor.jsx:495 | a whitespace-free piece is not inside the skipped whitespace |
| CodeFormat.FormatKeeps | app/components/BotEditor.jsx:495 | a whitespace-free piece of the code is still a piece of the formatted code |
| Text.IndexOf | app/api/github/push/route.js:14 | `indexOf` finds the first occurrence, or reports that there is none |
| Text.ContainsIffIndexOf | app/api/bot/test/route.js:27 | `includes` holds exactly when `indexOf` finds an occurrence |
| Text.ContainsAt | app/api/bot/test/route.js:27 | an occurrence anywhere makes `includes` true |
| Text.ContainsMiddle | app/api/bot/test/route.js:27 | a string contains what it is assembled around |
| Text.ContainsExtend | app/components/BotEditor.jsx:422 | text added around a string keeps what it contains |
| Text.ExpandLiteral | app/components/BotEditor.jsx:79 | a replacement without `$` is inserted as it is |
| Text.ExpandFromLiteral | app/components/BotEditor.jsx:79 | from any index on, a replacement without `$` is copied as it is |
| Text.ExpandMatch | app/components/BotEditor.jsx:79 | the replacement `$&` stands for the matched text |
| Text.ReplaceFirstFound | app/components/BotEditor.jsx:79 | where `indexOf` finds the pattern, `replace` puts the expanded replacement in its place and keeps the text around it |
| Text.Reassemble | app/components/BotEditor.jsx:79 | cutting an occurrence out and putting it back gives the string again |
| Text.ReplaceFirstSplit | app/components/BotEditor.jsx:79 | `replace` replaces the first occurrence by the expanded replacement, which is the replacement itself when it has no `$` |
| Text.ReplaceFirstAbsent | app/components/BotEditor.jsx:79 | without an occurrence `replace` returns its input |
| Text.ReplaceInserts | app/components/BotEditor.jsx:79 | after `replace` a replacement without `$` is present |
| Text.ReplaceMatchKeeps | app/components/BotEditor.jsx:79 | replacing an occurrence by `$&` leaves the string as it was |
| Text.ReplaceKeeps | app/components/BotEditor.jsx:79 | an occurrence sharing no character with the pattern survives `replace`, whatever the replacement expands to |
| Text.KeepAround | app/components/BotEditor.jsx:79 | such an occurrence lies before or after the replaced one |
| Text.Split | app/api/github/push/route.js:17 | `split` yields at least one piece |
| Text.SplitPiecesFree | app/api/github/push/route.js:17 | no piece holds the separator |
| Text.JoinSplit | app/api/github/push/route.js:17 | joining the pieces gives back the string |
| Text.SplitJoin | app/api/github/push/route.js:17 | splitting a join of separator-free pieces gives back the pieces |
| Text.SplitFree | app/api/github/push/route.js:17 | a separator-free string splits into itself |

## Left out

- HMAC-SHA256 and its hex digest are the function parameter `hmacHex`. SHA-256 itself is not modelled.
- External services are inputs: Supabase, the GitHub API calls, Discord's `users/@me` check, and `signInWithOAuth`. `JSON.parse` and `request.json()` are inputs too (`Malformed` or a parsed payload).
- Store failures:
  - The repository page assumes its reads of `Github_Repos` return data; a failed read, which leaves the rows unchanged, is not modelled.
  - Store errors of the webhook's own write and lookup are not modelled.
- The bot code that `syncRepo` reads from `Discord_bots` is the input `botCode`.
- The `Discord_bots` update in `saveCode` is the returned `written` value. That table is not modelled as state.
- Null and undefined are one value (`None`) wherever the code treats them alike. The TypeError messages of the push and test routes are fixed strings, as a current Node.js runtime phrases them.
- Concurrency:
  - Async interleaving between handlers is not modelled. Only the snapshot semantics of `syncing` are.
  - `syncRepo`'s un-awaited `fetchData()` call is modelled as running at once.
- Toasts, timestamps, `console.log`, the clipboard and the `confirm` dialog are left out. The dialog's answer and the clock are inputs.
- The `deployBot`, `copyCode`, `downloadCode`, "Validate Token", `connectGitHub`, `disconnectGitHub` and `createWebhook` handlers are outside the modelled core. So are the Monaco setup and `fetchBots`.
- The auth callback route, `DELETE /api/auth` (sign out), the header, the layout, the landing page and the styling configuration are outside the modelled core.
- `BotDashboard.DefaultCode`: the dashboard's starter code identifier is not defined in the component, so it is a constant of unspecified text.
- The suggestion texts are a free parameter, because their list is not defined in the component.
- Redirect URLs are kept as a same-origin path or an external URL. `new URL(...)` resolution against the request URL is not modelled, and neither is the site URL's value, which is an input (`undefined` when unset).
- The "Format Code" regular expression is modelled by the match it takes: at each position, the longest word of `\n\s*\n\s*\n`. `CodeFormat.MatchLenSound` and `CodeFormat.MatchLenLongest` tie that match to the pattern's language. The backtracking engine itself is not modelled.
- Not modelled, because the code does not have them: monotonic `last_sync`, duplicate-delivery suppression, constant-time signature comparison, and compare-and-swap conflicts on push.
- `BotEditor.InitialCode` states only the saved-code case in its own contract. The template case is stated by `BotEditor.InitialCodePasses`, which gives the checks passing and, for a token without `$`, the token present. It is not stated that exactly one placeholder is replaced.
- `BotEditor.InitialCodePasses` and `BotEditor.InitialCodePassesAs` promise the token in the code only when the token has no `$`: `replace` expands `$` patterns in its replacement text, so a token such as `$&` puts the placeholder back (`BotEditor.DollarTokenKeepsPlaceholder`). The test route's checks pass whatever the token.
- `BotEditor.ReplacedPasses` promises the replacement in the result only when it has no `$`, for the same reason; the markers survive whatever the replacement.
- `Text.ReplaceInserts` requires a replacement without `$`: with a `$` pattern the inserted text is `Text.Expand` of it, which need not contain the replacement.
- `Utf8.Encode`, `PushRoute.EncodedContent` and `UriComponent.Encode` take strings of Unicode scalar values. A JavaScript string is UTF-16 and may hold a lone surrogate: `Buffer.from` then writes the bytes of U+FFFD, and `encodeURIComponent` throws a `URIError`. Neither case is modelled.
- `GitHubRepos.FindBot` states that the bot found has the id. It does not state that the bot is the first one with that id.
