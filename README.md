# grokpi gateway and bot bookkeeping, modelled in Dafny

This project models the core of grokpi. grokpi is an OpenAI-compatible HTTP gateway that routes chat, image and video requests to a Gemini business backend. A Telegram bot sells and tracks subscriptions for it.

The model covers the following parts:

- **Gemini backend.**
  - The account pool: per-type quota cooldowns, round-robin selection and the session cache with LRU eviction and TTL sweep.
  - Per-account JWT creation, caching and cookie capture.
  - The incremental JSON-array streaming parser.
  - Conversation keys and prompt extraction from OpenAI-style messages.
  - The chat and image client logic: quota types, tool specs, event classification, stream framing and image parsing.
  - The Google API request helpers.
- **Routing and routes.**
  - The prefix router.
  - The `/v1/chat/completions` handler: prompt extraction, base URL and error mapping.
  - The `/v1/images` and `/v1/videos` handlers: size and ratio resolution, option validation, result conversion and error mapping.
  - The payment webhook: signature checks, payment processing, subscription grant and top-up.
- **Bot bookkeeping.**
  - Configuration parsing and admin checks.
  - The SQLite store, as tables held in a class.
  - Subscriptions and tier limits.
  - Daily user limits.
  - The per-user rate limiter.
  - The SSO key file and the Gemini account file managers.

Code that updates state in place is modelled as classes whose methods carry `modifies` clauses: the store, the rate limiter, the key managers, the router, the JWT manager, account configs and the account pool. The rest is modelled as functions over datatypes.

Each state-changing method is proved against a specification function. The properties the source promises are proved as lemmas about those functions.

Some things are parameters or oracle results rather than computed:

- the clock;
- randomness and UUIDs;
- MD5, HMAC-SHA256 and JSON encoding;
- HTTP responses and file contents.

Where the specification text and the code disagree, the model follows the code. The conversation counter is one such case: it rises only when the first emitted item of a reply is answer text (app/backends/gemini/client.py:553-578). A skip notice or a thought that comes first marks the response as started without counting it.

## Model

| member | source | states |
|---|---|---|
| Strings.TrimLeftShape | app/backends/gemini/message.py:31 | `lstrip()` removes exactly the leading whitespace, leaving text that is empty or starts with a non-space |
| Strings.TrimRightShape | app/backends/gemini/message.py:31 | `rstrip()` removes exactly the trailing whitespace, leaving text that is empty or ends with a non-space |
| Strings.StripShape | app/backends/gemini/message.py:31 | `strip()` keeps only characters of the text, has no whitespace at either end, and is empty exactly for all-space text |
| Strings.StripPadding | app/api/chat.py:55-56 | whitespace around a text does not change its stripped form |
| Strings.StripIdempotent | app/api/chat.py:55-56 | stripping twice is stripping once |
| Strings.Lower | app/backends/gemini/message.py:31 | lower-casing maps each character and keeps the length |
| Strings.Split | app/backends/gemini/jwt_manager.py:120 | `split(sep)` gives at least one part, none containing the separator |
| Strings.SplitAppend | app/backends/gemini/jwt_manager.py:120 | splitting two texts joined by the separator is splitting each in turn |
| Strings.JoinSplit | app/backends/gemini/jwt_manager.py:120 | joining the parts with the separator gives back the text |
| Strings.ReplaceChar | bot/config.py:45 | `replace` of one character by another, position by position |
| Security.IsAdmin | bot/security.py:4-8 | with no admin ids configured every user is an admin; otherwise exactly the listed ids are |
| Security.IsAdminBySet | bot/security.py:4-8 | only the set of listed ids matters, not their order or repetitions |
| Security.IsAdminMonotone | bot/security.py:4-8 | adding ids to a non-empty admin list never removes admin rights |
| Config.DefaultSettings | bot/config.py:16-30 | the declared defaults: no admin ids, 20 images and 10 videos a day, no webhook secret |
| Config.ParseInt | bot/config.py:51-54 | `int()` refuses an empty chunk and gives a non-negative value for an unsigned one |
| Config.Normalize | bot/config.py:45 | every `;` and space becomes `,`, every other character is kept, length unchanged |
| Config.ParseAdminIds | bot/config.py:44-55 | the loop returns exactly `AdminIds(raw)`: each chunk's integer, in chunk order |
| Config.ChunkValue | bot/config.py:48-54 | a blank chunk and one `int()` refuses contribute nothing; otherwise the chunk's integer |
| Config.ChunksIdsStep | bot/config.py:47-54 | one more chunk appends exactly that chunk's contribution |
| Config.AdminIdsAppend | bot/config.py:45-47 | any of `,`, `;` or space splits the setting into two independently parsed halves, order and duplicates kept |
| Config.AdminIdsChunk | bot/config.py:47-54 | a setting without separators yields its stripped integer, or nothing when `int()` refuses it |
| Config.DigitsValueOfNat | bot/config.py:52 | the decimal rendering of a natural number is a well-formed digit string whose value is that number |
| Config.ParseIntOfRendering | bot/config.py:52 | `int(str(i)) == i` for every integer, negative ones included |
| Config.ChunkOfRendering | bot/config.py:45-54 | the rendering of one id contains no separator and parses to exactly that id |
| Config.AdminIdsOfRendering | bot/config.py:44-55 | a comma-joined rendering of any id list parses back to that same list |
| Config.GatewayApiKey | bot/config.py:57-59 | `GATEWAY_API_KEY` when non-empty, else `API_KEY`, stripped; the result has no surrounding whitespace |
| RateLimiter.CooldownOf | bot/rate_limiter.py:18-22 | the tier's cooldown from the table, 30 seconds for a tier missing from it |
| RateLimiter.CooldownsOrdered | bot/rate_limiter.py:18-22 | Free 30 s, Basic 15 s, Premium 5 s: strictly decreasing and positive |
| RateLimiter.Limiter.constructor | bot/rate_limiter.py:25 | the limiter starts with no recorded requests |
| RateLimiter.Limiter.CheckCooldown | bot/rate_limiter.py:28-51 | admins always pass with 0; otherwise allowed exactly when the time since the last request reaches the cooldown; a refusal reports `int(cooldown - elapsed) + 1`, between 1 and cooldown + 1 |
| RateLimiter.Limiter.RecordRequest | bot/rate_limiter.py:54-56 | the user's last request time becomes `now`, every other user's stays |
| RateLimiter.RefusedRightAfterRecord | bot/rate_limiter.py:28-56 | a request checked at the instant of the last one is refused with cooldown + 1 seconds to wait |
| Database.FindPayment | bot/database.py:72 | the index of the row with that transaction id, or none exactly when no row has it |
| Database.LatestPending | bot/database.py:204-215 | a pending row of the user with the latest `created_at` among them, and none exactly when the user has no pending row |
| Database.OfUser | bot/database.py:239-254 | exactly the user's rows |
| Database.InsertNewest | bot/database.py:244 | inserting into a newest-first list keeps it newest-first and adds exactly that row |
| Database.SortNewest | bot/database.py:244 | `ORDER BY created_at DESC`: newest-first and a permutation of the input |
| Database.Limit | bot/database.py:244 | `LIMIT`: a prefix of the given length, or the whole list for a negative limit |
| Database.UserPayments | bot/database.py:239-254 | newest-first rows of the user, at most `limit` of them, all of them when the limit allows |
| Database.Settle | bot/database.py:218-236 | only the pending rows with that transaction id change, to the new status and paid time; the change flag is true exactly when such a row existed |
| Database.HasPendingCons | bot/database.py:222 | a pending row with the transaction id is the first row or one of the rest |
| Database.Store.constructor | bot/database.py:51-91 | a fresh store: empty subscriptions, payments and usage |
| Database.Store.GetSubscription | bot/database.py:93-107 | the user's row if there is one, none otherwise |
| Database.Store.UpsertSubscription | bot/database.py:110-130 | the user's row is inserted or replaced; all other rows stay |
| Database.Store.DeleteSubscription | bot/database.py:133-137 | the user's row is removed; the result says whether there was one |
| Database.Store.ListActiveSubscriptions | bot/database.py:140-161 | exactly the rows whose expiry is in the future or 0 (permanent) |
| Database.Store.CreatePayment | bot/database.py:163-188 | a duplicate transaction id violates the unique constraint and changes nothing; otherwise a pending row created now is appended |
| Database.Store.GetPayment | bot/database.py:191-201 | a row with that transaction id, none exactly when there is no such row |
| Database.Store.GetPendingPayment | bot/database.py:204-215 | the user's newest pending row, none exactly when the user has none |
| Database.Store.ListUserPayments | bot/database.py:239-254 | newest-first rows of the user, at most `limit` |
| Database.PrefixIsNewest | bot/database.py:239-254 | a prefix of a newest-first list is part of it, and none of the rows it leaves out is newer than a row it keeps |
| Database.LimitOfNewest | bot/database.py:239-254 | the `LIMIT` of a newest-first list stays newest-first, keeps only its rows, and drops none newer than a row it keeps |
| Database.Store.MarkPaymentPaid | bot/database.py:218-226 | the pending row becomes paid at `now`; true exactly when one did |
| Database.Store.MarkPaymentExpired | bot/database.py:229-236 | the pending row becomes expired; true exactly when one did |
| Database.Store.GetUsage | bot/database.py:263-273 | the stored counts for that user and day, zeros when absent |
| Database.Store.AddUsage | bot/database.py:276-290 | the day's counts grow by the given amounts, and the new counts are returned |
| Database.Store.ResetAllDailyUsage | bot/database.py:293-298 | every usage row is deleted and their number returned |
| Database.Store.CleanupOldUsage | bot/database.py:301-314 | the rows whose day key sorts before the cutoff are deleted, the others kept unchanged, and the deleted count returned |
| Database.SettledIsTerminal | bot/database.py:222 | a row that is no longer pending is never changed by a settlement |
| Database.SettleTwice | bot/database.py:218-236 | settling the same transaction twice changes nothing the second time and reports no change |
| Subscriptions.ParseTier | bot/subscription_manager.py:27-30 | `Tier(s)` succeeds exactly for "free", "basic" and "premium", and gives the tier with that value |
| Subscriptions.ParseDuration | bot/subscription_manager.py:33-36 | `Duration(s)` succeeds exactly for "daily", "weekly" and "monthly", and gives the duration with that value |
| Subscriptions.TierRoundTrip | bot/subscription_manager.py:27-30 | parsing a tier's value gives the tier back |
| Subscriptions.DurationRoundTrip | bot/subscription_manager.py:33-36 | parsing a duration's value gives the duration back |
| Subscriptions.DurationSeconds | bot/subscription_manager.py:39-43 | 1, 7 and 30 days in seconds, a positive whole number of days |
| Subscriptions.LimitsOrdered | bot/subscription_manager.py:62-102 | every limit grows from free to basic to premium, and only premium has unlimited images and videos |
| Subscriptions.GetSubscription | bot/subscription_manager.py:121-129 | no row gives the free subscription; a lapsed row (positive expiry in the past) is deleted and gives free; any other row is returned as stored |
| Subscriptions.TierOf | bot/subscription_manager.py:131-136 | the stored tier when it parses, free otherwise |
| Subscriptions.GetTier | bot/subscription_manager.py:131-136 | free for no row or a lapsed one, otherwise the stored tier, free when it does not parse; at most the user's row is removed |
| Subscriptions.GetLimits | bot/subscription_manager.py:138-140 | the limits of the tier `get_tier` gives |
| Subscriptions.GrantExpiry | bot/subscription_manager.py:149-157 | an active grant of the same tier is extended from its expiry, anything else starts now; always later than now |
| Subscriptions.Grant | bot/subscription_manager.py:142-165 | the user's row becomes the granted tier with that expiry, grantor and grant time; no other row changes |
| Subscriptions.Revoke | bot/subscription_manager.py:167-168 | the user's row is removed; true exactly when there was one |
| Subscriptions.GrantsAccumulate | bot/subscription_manager.py:149-157 | a second grant of the same tier before the first ends adds its duration to the first |
| Subscriptions.GrantOtherTierRestarts | bot/subscription_manager.py:153-156 | a grant of another tier restarts from now |
| UserLimits.StatusOf | bot/user_limit_manager.py:34-42 | remaining counts are never negative, are positive exactly while usage is under the limit, and then add up with usage to the limit |
| UserLimits.Allows | bot/user_limit_manager.py:52-59 | admins are always allowed; others exactly when both counts stay within their limits after the units |
| UserLimits.GetLimits | bot/user_limit_manager.py:21-28 | a tier's daily image and video limits, or the configured defaults when the lookup fails |
| UserLimits.LimitsAtMeaning | bot/user_limit_manager.py:21-28 | without a lookup failure, a user with no running subscription gets exactly the free tier's limits, and every user gets at least those |
| UserLimits.GetStatus | bot/user_limit_manager.py:30-42 | the status of the day's stored usage against the limits; usage and payments unchanged |
| UserLimits.CanConsume | bot/user_limit_manager.py:44-59 | that status, and whether it allows the units; usage and payments are unchanged, and at most the user's lapsed subscription is removed |
| UserLimits.Consume | bot/user_limit_manager.py:61-71 | for a non-admin the day's usage grows by the non-negative parts of the units; an admin's usage is untouched; payments are unchanged, and at most the user's lapsed subscription is removed |
| UserLimits.ConsumeWithinLimits | bot/user_limit_manager.py:44-71 | consuming what `can_consume` allowed keeps usage within the limits and lowers the remaining counts by exactly the units |
| SsoKeys.FirstBreak | bot/sso_manager.py:16 | the position of the first line boundary, with none before it |
| SsoKeys.LinesFirst | bot/sso_manager.py:16 | `splitlines` cuts at the first line boundary |
| SsoKeys.LinesAppend | bot/sso_manager.py:16 | `splitlines` of two texts joined by a line boundary is the two splits concatenated |
| SsoKeys.KeepKeysAppend | bot/sso_manager.py:17 | the stripped non-blank lines of two line lists, concatenated |
| SsoKeys.KeysAreClean | bot/sso_manager.py:14-18 | every listed key is stripped, non-empty and a single line |
| SsoKeys.Content | bot/sso_manager.py:40-42 | the file text is empty exactly for no keys and otherwise ends with a line break |
| SsoKeys.KeysOfContent | bot/sso_manager.py:14-43 | writing clean keys one per line and listing them gives the same keys back |
| SsoKeys.KeysOfLine | bot/sso_manager.py:16-17 | a single line lists its stripped text, or nothing when blank |
| SsoKeys.KeysAfterAppend | bot/sso_manager.py:29-30 | appending a clean key and a line break to a file that is empty or ends in a line break lists one more key, at the end |
| SsoKeys.AppendWithoutBreakMerges | bot/sso_manager.py:29-30 | appending to a file whose last key lacks a line break merges the new key into it |
| SsoKeys.MaskShape | bot/sso_manager.py:45 | a secret of up to 12 characters shows its first 3 followed by `***`; a longer one shows only its first 6 and last 4 around `...` |
| SsoKeys.Manager.constructor | bot/sso_manager.py:6-7 | the manager starts over the file as it is |
| SsoKeys.Manager.ListKeys | bot/sso_manager.py:14-18 | a missing file is created empty; the result is every stripped non-blank line in order |
| SsoKeys.Manager.AddKey | bot/sso_manager.py:20-32 | a blank key is refused with `Key kosong`; a listed key is reported as present and nothing is written; otherwise the key and a line break are appended |
| SsoKeys.Manager.RemoveLastKey | bot/sso_manager.py:34-46 | no keys is the error `Tidak ada key untuk dihapus` with the file unchanged; otherwise the file is rewritten with all keys but the last, whose mask is reported |
| SsoKeys.Manager.GetMaskedSummary | bot/sso_manager.py:48-57 | one masked line per listed key, numbered from 1 |
| SsoKeys.Summarize | bot/sso_manager.py:50-57 | the numbering loop produces exactly the summary lines |
| SsoKeys.SummaryFromAt | bot/sso_manager.py:51-56 | the i-th line is numbered i + 1 and masks the i-th key |
| SsoKeys.AddKeyAppends | bot/sso_manager.py:20-32 | after a successful add the key list is the old one plus the stripped key |
| SsoKeys.RemoveLastKeyDropsLast | bot/sso_manager.py:34-43 | after a removal the key list is the old one without its last key |
| GeminiKeys.NewAccount | bot/gemini_manager.py:56-61 | the new record holds the given fields, with a fresh id when no `config_id` is given |
| GeminiKeys.ShortConfig | bot/gemini_manager.py:99 | a `config_id` up to 8 characters is shown whole, a longer one as its first 8 and an ellipsis |
| GeminiKeys.Manager.constructor | bot/gemini_manager.py:16-17 | the manager starts over the file as it is |
| GeminiKeys.Manager.ListAccounts | bot/gemini_manager.py:24-30 | a missing file is created as `[]`; the decoded list, or no accounts when the text does not decode to a list |
| GeminiKeys.Manager.AddAccount | bot/gemini_manager.py:32-70 | an empty `secure_c_ses` is refused; a duplicate 30-character prefix is reported with unchanged counts and no write; otherwise the new record is appended, written, and the count grows by one |
| GeminiKeys.Manager.RemoveLastAccount | bot/gemini_manager.py:72-86 | no accounts is an error; otherwise the list without its last record is written and the removed secret's mask reported |
| GeminiKeys.Manager.GetMaskedSummary | bot/gemini_manager.py:88-101 | one line per account, numbered from 1, with masked secret, `csesidx` and shortened `config_id` |
| GeminiKeys.Manager.ConfigJson | bot/gemini_manager.py:103-105 | the file text, or `[]` when there is no file |
| GeminiKeys.FindDuplicate | bot/gemini_manager.py:47-54 | the scan finds a match exactly when some account shares the 30-character prefix |
| GeminiKeys.Summarize | bot/gemini_manager.py:90-101 | the numbering loop produces exactly the summary lines |
| GeminiKeys.SummaryFromAt | bot/gemini_manager.py:91-100 | the i-th line is numbered i + 1 and describes the i-th account |
| GeminiKeys.AddKeepsPrefixesDistinct | bot/gemini_manager.py:46-62 | adding only when no prefix matches keeps all stored prefixes distinct |
| GeminiKeys.AddThenListed | bot/gemini_manager.py:56-78 | with a faithful JSON codec, the file written by a successful add lists the old accounts followed by the new one, so adding the same `secure_c_ses` again is refused as a duplicate and removing the last account gives the old list back |
| Router.BackendRouter.constructor | app/backends/router.py:14-17 | a new router has no backends and no prefixes |
| Router.BackendRouter.Register | app/backends/router.py:19-24 | the backend is stored under its name (replacing one of the same name) and every given prefix now points at that name |
| Router.PointPrefixes | app/backends/router.py:22-23 | the prefix loop leaves the map as the prefix-by-prefix assignment |
| Router.AssignShape | app/backends/router.py:22-23 | after registering, the prefixes are the old ones plus the new ones; new prefixes map to the backend, untouched prefixes keep their backend |
| Router.BackendRouter.GetBackend | app/backends/router.py:26-33 | no backend exactly when no prefix starts the model; otherwise the backend of a longest prefix of the model |
| Router.LongestMatchUnique | app/backends/router.py:29-30 | two longest matching prefixes of one model are the same prefix, so the answer does not depend on the order among equal lengths |
| Router.LongestMatchExists | app/backends/router.py:29-32 | whenever some prefix starts the model, a longest one exists |
| Router.BackendRouter.BackendByName | app/backends/router.py:35-37 | a backend is returned exactly when the name is registered, and it is the registered one |
| Router.BackendRouter.ListAllModels | app/backends/router.py:39-44 | the models of every backend, concatenated in registration order |
| Router.AllModelsAppend | app/backends/router.py:42-43 | the models of two groups of backends are the models of the first followed by those of the second |
| StreamingParser.ParseStream | app/backends/gemini/streaming_parser.py:10-110 | the objects yielded and the error raised are those of the reference decoder: no opening line gives the missing-`[` error, otherwise the objects framed in the stream, decoded in order up to the first failure |
| StreamingParser.FindOpen | app/backends/gemini/streaming_parser.py:23-28 | the first line whose stripped text starts with `[`, or the end when there is none |
| StreamingParser.OpenIndexIs | app/backends/gemini/streaming_parser.py:23-30 | a line that opens with no opening line before it is where the array starts |
| StreamingParser.OpenIndexNone | app/backends/gemini/streaming_parser.py:70-71 | the array is never found exactly when no line's stripped text starts with `[` |
| StreamingParser.OpenIndexSound | app/backends/gemini/streaming_parser.py:23-30 | the chosen line opens the array and no earlier line does |
| StreamingParser.NoOpenLine | app/backends/gemini/streaming_parser.py:70-71 | a stream without an opening line yields nothing and fails with the missing-`[` error |
| StreamingParser.SkipLine | app/backends/gemini/streaming_parser.py:24-28 | a line before the opening that does not open the array changes nothing |
| StreamingParser.PreambleIgnored | app/backends/gemini/streaming_parser.py:23-28 | any number of non-opening lines before the array are ignored |
| StreamingParser.ParseFrom | app/backends/gemini/streaming_parser.py:28-30 | the parsed stream is the opening line's text after `[` followed by every later line in full |
| StreamingParser.ScanLine | app/backends/gemini/streaming_parser.py:32-67 | scanning one line's characters yields the objects and failure of the reference step, and the scanner state after it when nothing failed |
| StreamingParser.ScanRest | app/backends/gemini/streaming_parser.py:74-110 | the second phase continues the first: its objects are those of the whole stream from the opening line on |
| StreamingParser.ScanFails | app/backends/gemini/streaming_parser.py:57-61 | the first object whose text does not decode ends the stream with a parse error naming that text, after the objects before it |
| StreamingParser.DecodeMore | app/backends/gemini/streaming_parser.py:57-61 | one more object text either appends its decoded object or stops with a parse error carrying that text |
| StreamingParser.DecodeOne | app/backends/gemini/streaming_parser.py:57-61 | a single object text decodes to one object or fails with that text |
| StreamingParser.DecodeAllAppend | app/backends/gemini/streaming_parser.py:57-61 | decoding two runs of texts without an earlier failure is decoding each in turn |
| StreamingParser.DecodeAllStops | app/backends/gemini/streaming_parser.py:60-61 | after a failure nothing later is decoded |
| StreamingParser.FeedFailStops | app/backends/gemini/streaming_parser.py:60-61 | characters after a failed object never change the outcome |
| StreamingParser.FeedAppend | app/backends/gemini/streaming_parser.py:32-110 | feeding two texts one after the other equals feeding their concatenation, so line boundaries do not matter |
| StreamingParser.FeedPrefix | app/backends/gemini/streaming_parser.py:56-59 | more input only adds object texts after those already emitted |
| StreamingParser.DecodeAllShape | app/backends/gemini/streaming_parser.py:57-61 | the k-th object is the decoding of the k-th text; without failure all texts decode, with failure the error names the first text that does not |
| StreamingParser.StepKeepsInv | app/backends/gemini/streaming_parser.py:33-67 | one character keeps the scanner invariant (outside objects the buffer is empty and no string is open; inside, the buffer starts with `{`), and an emitted text is framed by braces and resets the scanner |
| StreamingParser.FeedKeepsInv | app/backends/gemini/streaming_parser.py:32-67 | the invariant survives any text, and every emitted object text runs from `{` to `}` |
| StreamingParser.StepConserves | app/backends/gemini/streaming_parser.py:33-67 | one character is appended to the buffer exactly when it lies inside an object (met at depth > 0, or the `{` opening a top-level object), and an emitted text is the buffer so far plus that character |
| StreamingParser.FeedConserves | app/backends/gemini/streaming_parser.py:32-67 | over any run of characters, the emitted texts joined in order and followed by the remaining buffer are the starting buffer followed by exactly the in-object characters of the input: no character is lost, reordered or invented |
| StreamingParser.ParsedTextsSpans | app/backends/gemini/streaming_parser.py:28-110 | the texts handed to the JSON decoder, joined, are a prefix of the stream's in-object characters, and all of them when the stream ends outside every object |
| StreamingParser.ParsedTextsFramed | app/backends/gemini/streaming_parser.py:48-57 | every text handed to the JSON decoder starts with `{` and ends with `}` |
| StreamingParser.InsideString | app/backends/gemini/streaming_parser.py:65-67 | inside a string, ordinary characters (braces included) are only buffered |
| StreamingParser.AfterBackslash | app/backends/gemini/streaming_parser.py:33-37 | the character after a backslash is buffered inside an object and never interpreted |
| StreamingParser.OutsideObjects | app/backends/gemini/streaming_parser.py:47-53 | between objects, characters other than `{` are dropped and nothing is emitted |
| Base64Url.ValueOf | app/backends/gemini/jwt_manager.py:109 | a character has a sextet value exactly when it belongs to the URL-safe alphabet |
| Base64Url.CharRoundTrip | app/backends/gemini/jwt_manager.py:24-25 | every sextet's character is in the alphabet and decodes back to the sextet |
| Base64Url.EncodeLength | app/backends/gemini/jwt_manager.py:24-25 | with the padding stripped, n bytes encode to ceil(4n/3) characters |
| Base64Url.EncodeAlphabet | app/backends/gemini/jwt_manager.py:24-25 | the encoding uses only `A-Z a-z 0-9 - _`, so it holds no `.` and no `=` |
| Base64Url.GroupRoundTrip | app/backends/gemini/jwt_manager.py:24-25 | a final group of one to three bytes encodes to one more character than bytes and decodes back |
| Base64Url.DecodeEncode | app/backends/gemini/jwt_manager.py:24-25 | decoding the unpadded encoding gives back the bytes |
| Base64Url.DecodeSplit | app/backends/gemini/jwt_manager.py:109 | decoding a full four-character group followed by more text is the group's bytes followed by the rest's |
| Jwt.KqEncode | app/backends/gemini/jwt_manager.py:28-37 | the packing loop (one byte per character up to 255, low byte then high byte above) followed by base64url, failing where a byte would not fit |
| Jwt.KqPrefixFails | app/backends/gemini/jwt_manager.py:30-36 | once a prefix cannot be packed the whole text cannot |
| Jwt.KqLatin1 | app/backends/gemini/jwt_manager.py:30-36 | text whose characters are all at most 255 packs to exactly one byte per character, equal to the code point |
| Jwt.WideChar | app/backends/gemini/jwt_manager.py:32-34 | a character above 255 packs to two bytes, low then high, that recombine to its code point |
| Jwt.KqRoundTrip | app/backends/gemini/jwt_manager.py:28-37 | decoding a packed text gives back its packed bytes |
| Jwt.ClaimsAt | app/backends/gemini/jwt_manager.py:41-50 | the claims are issued at `now`, valid from `now`, expire 300 seconds later, and name the session as `csesidx/<id>` |
| Jwt.TokenShape | app/backends/gemini/jwt_manager.py:40-55 | a token splits at its dots into exactly the packed header, the packed claims and the base64url HMAC of the first two joined by a dot; header and claims decode back to their packed JSON |
| Jwt.NoDot | app/backends/gemini/jwt_manager.py:53-55 | a base64url segment contains no dot |
| Jwt.ThreeSegments | app/backends/gemini/jwt_manager.py:53-55 | three base64url segments joined by dots split back into the same three |
| Jwt.Unguarded | app/backends/gemini/jwt_manager.py:106 | the `)]}'` guard is removed exactly when the body starts with it, and nothing else is changed |
| Jwt.CapturedShape | app/backends/gemini/jwt_manager.py:113-140 | a cookie only changes to a non-empty value, and only when the scan reports an update |
| Jwt.OnlySetCookie | app/backends/gemini/jwt_manager.py:117-119 | headers other than `Set-Cookie` leave both cookies unchanged and report no update |
| Jwt.JwtManager.constructor | app/backends/gemini/jwt_manager.py:61-67 | a new manager holds no token and an expiry of zero |
| Jwt.JwtManager.CaptureSetCookies | app/backends/gemini/jwt_manager.py:113-140 | the account's cookies become those of the header scan; the refresh time becomes `now` exactly when a cookie changed; the session index is untouched |
| Jwt.TokenFrom | app/backends/gemini/jwt_manager.py:106-110 | a token is made exactly when the unguarded body parses, its `xsrfToken` decodes and the packing succeeds; it is then the token of that key and key id for claims issued at `now` for the account |
| Jwt.JwtManager.Refresh | app/backends/gemini/jwt_manager.py:76-111 | a non-200 handshake fails with `getoxsrf failed: <status>` and changes nothing; after a 200 both cookies and the refresh time are those of the header scan, and the call succeeds exactly when the body yields a token, which is then the cached `jwt`, made from the decoded key, the key id and claims issued now, and cached for 270 seconds; a failure keeps the cached token |
| Jwt.JwtManager.Accept | app/backends/gemini/jwt_manager.py:103-111 | both cookies and the refresh time become those of the header scan; the token made from the body is cached for 270 seconds, or the call fails with its error and the cached token stays |
| Jwt.JwtManager.Get | app/backends/gemini/jwt_manager.py:69-74 | a token that has not expired is returned as cached with nothing changed; otherwise the call succeeds exactly when the handshake answers 200 and its body yields a token, fails with `getoxsrf failed: <status>` on another status and with the body's error otherwise, and a refreshed token, issued now, is returned and cached for 270 seconds; the returned string is the token its recorded issue makes, and the claims inside it have not expired |
| AccountConfigs.AccountConfig.constructor | app/backends/gemini/account.py:26-37 | the record holds exactly the given fields |
| AccountConfigs.ExpiredByHours | app/backends/gemini/account.py:39-54 | an account is expired exactly when its remaining hours are known and not positive |
| AccountConfigs.ExpiryIsFinal | app/backends/gemini/account.py:50-54 | an account expired at one moment stays expired at every later moment |
| Accounts.CooldownOf | app/backends/gemini/account.py:92-97 | images and videos have their own cooldown; every other type uses the text cooldown |
| Accounts.StampedType | app/backends/gemini/account.py:99-101 | an error is stamped on its own quota type when that type is known, otherwise on `text` |
| Accounts.QuotaCheckMeaning | app/backends/gemini/account.py:110-121 | a type is available exactly when it is not blocked (a known type with a non-zero stamp younger than its cooldown); only a stale stamp of the checked type is deleted and every other stamp is kept |
| Accounts.CheckKeepsBlocked | app/backends/gemini/account.py:118-121 | deleting a stale stamp never changes whether any type is blocked |
| Accounts.OthersCheckMeaning | app/backends/gemini/account.py:130 | the check over the non-text types passes exactly when none of them is blocked |
| Accounts.QuotasCheckMeaning | app/backends/gemini/account.py:123-130 | with no types required every account passes; otherwise it passes exactly when `text` and every required type are unblocked |
| Accounts.AccountManager.constructor | app/backends/gemini/account.py:72-90 | a new account has no token manager, is available, has no cooldown stamps and zero counters |
| Accounts.AccountManager.HandleError | app/backends/gemini/account.py:99-108 | the stamp of the chosen quota type becomes `now`; the others are kept |
| Accounts.AccountManager.IsQuotaAvailable | app/backends/gemini/account.py:110-121 | the verdict and the remaining stamps are those of the quota check |
| Accounts.AccountManager.AreQuotasAvailable | app/backends/gemini/account.py:123-130 | the verdict and the remaining stamps are those of the combined check, `text` first and stopping at the first blocked type |
| Accounts.AccountManager.GetJwt | app/backends/gemini/account.py:132-145 | an expired account fails with `Account <id> has expired` and becomes unavailable; otherwise a token manager exists; the call succeeds exactly when the cached token has not expired or the handshake answers 200 with a body that yields a token, with the handshake's error otherwise; success marks the account available and returns its token, and failure stamps a text cooldown at `now` |
| AccountPool.ChosenMeaning | app/backends/gemini/account.py:176-186 | the chosen accounts are exactly those that pass the filter (enabled, not expired, quotas available), in pool order |
| AccountPool.AvailableIsUnblocked | app/backends/gemini/account.py:176-186 | every available account is enabled, not expired and unblocked for `text` and for every required type |
| AccountPool.ScanAccount | app/backends/gemini/account.py:179-185 | one account's verdict is the filter's, and its stamps become those the quota checks leave |
| AccountPool.ScanAll | app/backends/gemini/account.py:176-186 | the result is the chosen accounts in order, each account's stamps are those its scan leaves, and nothing outside the pool is returned |
| AccountPool.MultiAccountManager.constructor | app/backends/gemini/account.py:151-162 | an empty pool with zeroed counters, an empty cache of at most 1000 entries and the given time-to-live |
| AccountPool.MultiAccountManager.AddAccount | app/backends/gemini/account.py:164-174 | a fresh account with no stamps is stored under its id (replacing one of the same id), the id is appended to the account list, and counters and cache are untouched |
| AccountPool.MultiAccountManager.GetAvailableAccounts | app/backends/gemini/account.py:176-186 | the available accounts are the eligible ones as they stood before the call, and every account's stamps are those its scan leaves |
| AccountPool.MultiAccountManager.NamedAccount | app/backends/gemini/account.py:194-200 | a named account is returned exactly when its quotas are available, else `Account <id> quota unavailable` |
| AccountPool.CounterStep | app/backends/gemini/account.py:206-211 | the picked index is within the candidates; when their number differs from the last count the counter restarts from the random seed, the index is the counter modulo the count, and the counter advances by one |
| AccountPool.MultiAccountManager.NextIndex | app/backends/gemini/account.py:206-211 | the manager's index, counter and last count after the step are exactly the counter step from its counters before it |
| AccountPool.MultiAccountManager.SelectPooled | app/backends/gemini/account.py:202-211 | the result and both counters are the round-robin step over the accounts eligible before the call (an error and untouched counters when there are none), and every pooled account carries the stamps its scan leaves |
| AccountPool.MultiAccountManager.UseAccount | app/backends/gemini/account.py:213-214 | the chosen account's session usage count rises by one |
| AccountPool.MultiAccountManager.PooledAccount | app/backends/gemini/account.py:202-219 | the result and both counters are the round-robin step over the accounts eligible before the call: `No available Gemini accounts` with untouched counters when there are none, else the account at the (possibly reseeded) counter; every pooled account carries the stamps its scan leaves, and the chosen account's session usage rises by one |
| AccountPool.MultiAccountManager.GetAccount | app/backends/gemini/account.py:188-219 | a named unknown account fails with `Account <id> not found`; a named account is returned exactly when its quotas allow, and then the counters, every usage count and every other account stay as they were; without a name the round-robin step over the eligible accounts, with every pooled account's scan stamps and the chosen account's usage rising by one |
| AccountPool.RoundRobin | app/backends/gemini/account.py:210-211 | n consecutive requests over the same n candidates pick n different slots, so every candidate is picked |
| AccountPool.EvictTarget | app/backends/gemini/account.py:233 | the eviction target is 0.8 times the maximum rounded down, and strictly below a positive maximum |
| AccountPool.OldestExists | app/backends/gemini/account.py:230-232 | a non-empty cache has an oldest entry, so eviction by age is well defined |
| AccountPool.MultiAccountManager.SetSessionCache | app/backends/gemini/account.py:221-235 | the entry is stored with time `now`; when the cache grows past its maximum it shrinks to the eviction target by dropping only entries no newer than every kept one, and kept entries are unchanged |
| AccountPool.Evict | app/backends/gemini/account.py:230-235 | the cache keeps exactly the target number of entries, unchanged, and every dropped entry is no newer than every kept one |
| AccountPool.MultiAccountManager.UpdateSessionTime | app/backends/gemini/account.py:237-240 | a cached entry's time becomes `now`; a missing key changes nothing |
| AccountPool.MultiAccountManager.Sweep | app/backends/gemini/account.py:253-262 | exactly the entries idle longer than the time-to-live are removed, and the count removed is reported |
| AccountPool.LoadedMeaning | app/backends/gemini/account.py:297-317 | every entry carrying the three required fields is loaded (as the configuration numbered by its position), and every loaded configuration comes from such an entry |
| AccountPool.LoadedComplete | app/backends/gemini/account.py:297-317 | no entry carrying the required fields is skipped |
| AccountPool.LoadedHas | app/backends/gemini/account.py:298-317 | an entry with the required fields appears among the loaded configurations |
| AccountPool.LoadedSound | app/backends/gemini/account.py:298-302 | nothing is loaded from an entry missing a required field |
| AccountPool.MultiAccountManager.Managers | app/backends/gemini/account.py:178 | the managers of the listed ids, in order, all from the pool |
| AccountPool.LoadEntry | app/backends/gemini/account.py:297-317 | one more entry keeps the pool equal to the loaded prefix: account list, ids and the last configuration per id |
| AccountPool.LoadConfig | app/backends/gemini/account.py:304-317 | adding one complete entry's configuration extends the account list and makes it the configuration of its id |
| AccountPool.AddConfig | app/backends/gemini/account.py:317 | the id joins the pool with the given configuration, and every other account is unchanged |
| AccountPool.LoadGeminiAccounts | app/backends/gemini/account.py:273-320 | empty or unparsable configuration text gives an empty pool; otherwise the account list is the ids of every complete entry in order and each id holds the last configuration given for it |
| Messages.ExtractText | app/backends/gemini/message.py:41-47 | plain text is returned as it is; a part list gives the joined text of its `text` parts |
| Messages.PartsTextAppend | app/backends/gemini/message.py:46 | the text of two part lists is the text of the first followed by that of the second |
| Messages.PartsTextOfNonText | app/backends/gemini/message.py:46 | parts that are not of type `text` contribute nothing |
| Messages.Fingerprints | app/backends/gemini/message.py:23-32 | one fingerprint per message |
| Messages.FirstThree | app/backends/gemini/message.py:24 | the first three messages, or all of them when there are fewer |
| Messages.GetConversationKey | app/backends/gemini/message.py:18-38 | the loop builds the reference conversation key |
| Messages.KeyShape | app/backends/gemini/message.py:18-38 | no messages give the fixed key `empty` (prefixed by `<client>:`); otherwise the MD5 of the joined fingerprints, prefixed by `<client>|` when a client is given |
| Messages.KeyDependsOnFirstThree | app/backends/gemini/message.py:24 | two conversations that share their first three messages share their key |
| Messages.KeyIgnoresLaterMessages | app/backends/gemini/message.py:24 | messages appended after the third do not change the key |
| Messages.LowerStrip | app/backends/gemini/message.py:31 | lower-casing and stripping commute |
| Messages.FingerprintTextInsensitive | app/backends/gemini/message.py:31 | surrounding whitespace and letter case do not change a fingerprint's text |
| Messages.KeyIgnoresCaseAndPadding | app/backends/gemini/message.py:23-38 | replacing a message's text with the same text in another case and with extra surrounding whitespace keeps the key |
| Messages.RoleLabel | app/backends/gemini/message.py:115 | `User` exactly for the `user` and `system` roles, `Assistant` for everything else |
| Messages.ImageCount | app/backends/gemini/message.py:120 | the image count never exceeds the number of parts |
| Messages.BuildFullContextText | app/backends/gemini/message.py:111-125 | the loop builds the reference transcript |
| Messages.EntryOf | app/backends/gemini/message.py:115-124 | one message's entry as the reference defines it |
| Messages.ContextTextAppend | app/backends/gemini/message.py:113-124 | the transcript of two runs of messages is the first's followed by the second's |
| Messages.EntryShape | app/backends/gemini/message.py:115-124 | each entry is `<Role>: ` and the content's text, then one `[Image]` marker per image part when the content is a part list, ending with a blank line |
| Messages.LineHead | app/backends/gemini/message.py:79 | the text up to the first line break, a prefix of the input holding no line break |
| Messages.DataUrlMatches | app/backends/gemini/message.py:79-81 | a well-formed data URL yields its own MIME type and data |
| Messages.DataUrlShape | app/backends/gemini/message.py:79-81 | a match has a non-empty MIME type without `;` and non-empty single-line data, and the URL starts with exactly that data URL, ending there or at a line break |
| Messages.ClassifyUrl | app/backends/gemini/message.py:79-85 | inline exactly when the data-URL pattern matches; remote only for `http://` or `https://` URLs; unsupported exactly when neither |
| Messages.ScanLastParts | app/backends/gemini/message.py:74-85 | the part loop gives the reference text, inline images and URLs to download |
| Messages.ParseLastMessage | app/backends/gemini/message.py:50-108 | the text and images of the last message as the reference defines them, inline images first then the successful downloads in URL order |
| Messages.ParseReadsLastOnly | app/backends/gemini/message.py:64 | only the last message is parsed |
| Messages.ScanTextIsExtracted | app/backends/gemini/message.py:75-76 | the text collected from the parts is the extracted text of the content |
| Messages.ParseTextMeaning | app/backends/gemini/message.py:67-76 | the parsed text is the last message's extracted text, empty for content that is neither text nor parts |
| Messages.ScanCounts | app/backends/gemini/message.py:77-83 | at most one image or URL per `image_url` part |
| Messages.DownloadedCount | app/backends/gemini/message.py:103-106 | failed downloads are dropped, so never more images than URLs |
| Messages.ParseImageBound | app/backends/gemini/message.py:50-108 | never more images than `image_url` parts in the last message |
| Messages.ScanOneImagePart | app/backends/gemini/message.py:77-85 | an image part adds an inline image, a URL to download, or nothing when the URL is unsupported |
| GeminiClient.ToolsSpecMeaning | app/backends/gemini/client.py:80-93 | the two virtual models get only their generation spec; every other model gets web grounding and the default tool registry, plus image generation exactly for the image-capable models |
| GeminiClient.RequiredQuotaTypesMeaning | app/backends/gemini/client.py:96-103 | `text` always comes first; `images` is required exactly for the image model and the image-capable chat models, `videos` exactly for the video model, and nothing else is added |
| GeminiClient.RequiredQuotasAvailable | app/backends/gemini/client.py:96-103 | an account serves a model exactly when its text quota and the model's image or video quota are unblocked |
| GeminiClient.ReplyRef | app/backends/gemini/client.py:147-153 | a reply names a file exactly when it carries a non-empty file id; the MIME type defaults to `image/png` |
| GeminiClient.IdsMeaning | app/backends/gemini/client.py:149-151 | the seen set holds exactly the ids of the files met so far |
| GeminiClient.DedupeMeaning | app/backends/gemini/client.py:143-153 | the listed files have distinct ids, cover every id named, and each is listed where its id first appears |
| GeminiClient.DedupeDistinct | app/backends/gemini/client.py:149-153 | no id is listed twice and every named id is listed |
| GeminiClient.DedupeFirst | app/backends/gemini/client.py:149-153 | each listed file is the first one named with its id |
| GeminiClient.DedupePrefix | app/backends/gemini/client.py:131-153 | later stream objects only append to the files already listed |
| GeminiClient.LastSessionMeaning | app/backends/gemini/client.py:136-138 | the session name is empty exactly when no object names one; otherwise it is the name given by the last object that names one |
| GeminiClient.ScanReply | app/backends/gemini/client.py:143-153 | one reply extends the listed files and the seen ids as the reference defines them |
| GeminiClient.ScanReplies | app/backends/gemini/client.py:143-153 | the reply loop extends the listed files and the seen ids by every reply in order |
| GeminiClient.ParseImagesFromResponse | app/backends/gemini/client.py:125-155 | the loop gives the reference file list and session name |
| GeminiClient.EnhancedPromptMeaning | app/backends/gemini/client.py:675-686 | exactly the five ratios 1:1, 2:3, 3:2, 9:16 and 16:9 append an aspect sentence to the prompt; any other ratio leaves it unchanged |
| GeminiClient.SliceTo | app/backends/gemini/client.py:708 | Python's `[:n]`: a prefix of n elements, or all but the last -n for negative n |
| GeminiClient.CollectBound | app/backends/gemini/client.py:706-732 | collecting never yields more items than inputs |
| GeminiClient.CollectEach | app/backends/gemini/client.py:706-732 | each collecting loop keeps the items that succeed, in order |
| GeminiClient.GenerateImageData | app/backends/gemini/client.py:706-732 | the response data are the reference image list |
| GeminiClient.ImageDataMeaning | app/backends/gemini/client.py:706-732 | at most n images, each carrying the original prompt, all base64 for `b64_json` and all URLs otherwise |
| GeminiClient.CollectKinds | app/backends/gemini/client.py:706-732 | every collected item has the prompt and the kind its producer gives |
| GeminiClient.ImageDataPreference | app/backends/gemini/client.py:707-722 | for `b64_json` the inline images win whenever there are any; otherwise the links win whenever there are any; the preferred kind is never empty when present |
| GeminiChat.MaxRetries | app/backends/gemini/client.py:299 | the number of session attempts (and of failover passes, lines 347-348) is the number of eligible accounts, at least one and at most the configured switch limit |
| GeminiChat.FailureQuotaType | app/backends/gemini/client.py:323-324 | a failed attempt stamps the image quota for the image model, the video quota for the video model, and text otherwise |
| GeminiChat.TriesMeaning | app/backends/gemini/client.py:302-328 | the attempts succeed exactly when one of them creates a session; the first such attempt's account and session are returned and cached; each failure stamps at most one cooldown; when all fail the error is `All Gemini accounts unavailable: ` and the last failure |
| GeminiChat.AcquireSession | app/backends/gemini/client.py:263-331 | the acquisition steps give the reference outcome and effects |
| GeminiChat.AcquireMeaning | app/backends/gemini/client.py:263-331 | an unknown model fails with a ValueError and no accounts with `No Gemini accounts configured`, both with no effect; a cached session whose account still serves the model is resumed; otherwise a stale cache entry is dropped and new sessions are tried as above |
| GeminiChat.ItemChunks | app/backends/gemini/client.py:553-584 | one chunk per emitted item |
| GeminiChat.ItemChunksAppend | app/backends/gemini/client.py:553-584 | the chunks of two runs of items are the first run's followed by the second's |
| GeminiChat.CountedAppend | app/backends/gemini/client.py:576-578 | whether a conversation is counted is decided by the first item emitted |
| GeminiChat.EmitReply | app/backends/gemini/client.py:561-584 | one reply emits its chunk (reasoning for a thought, content otherwise, nothing when empty) and counts the conversation exactly when it is the first item and is answer text |
| GeminiChat.StreamReplies | app/backends/gemini/client.py:559-584 | the reply loop emits the chunks of every reply in order and counts the conversation at most once |
| GeminiChat.StreamAnswer | app/backends/gemini/client.py:544-584 | a skipped answer emits one notice (the safety text for a policy violation, else the reasons) and none of its replies; otherwise its replies |
| GeminiChat.StreamChat | app/backends/gemini/client.py:470-656 | the chunks are the items of every answer, framed by the role chunk, the stop chunk and `[DONE]` when streaming; the conversation counter rises by one exactly when the first item is answer text |
| GeminiChat.ResponseWrapper | app/backends/gemini/client.py:344-436 | the failover loop's output and stamped accounts are the reference run over at most `MaxRetries` passes; a failed streamed request ends with one error line, `Account Failover Failed` or the last error, and a non-streamed one adds nothing to what the passes yielded |
| GeminiChat.FailoverMeaning | app/backends/gemini/client.py:353-436 | the loop ends successfully exactly when some pass completes after every earlier pass failed and every switch succeeded, having stamped one account per failed pass; a failed switch ends it with `Account Failover Failed`; otherwise every pass failed, all their accounts are stamped and the error is the last one cut to 200 characters; nothing yielded is taken back |
| GeminiChat.CountedMeaning | app/backends/gemini/client.py:545-578 | the conversation counter rises exactly when the first answer that emits anything is not skipped and its first reply with text is not a thought; a skip notice or reasoning emitted first means the reply is never counted |
| GeminiChat.CountedFirst | app/backends/gemini/client.py:545-578 | by induction over the answers: the counter rises exactly when some non-skipped answer whose first reply with text is not a thought comes after answers that emitted nothing |
| GeminiChat.CountedReplies | app/backends/gemini/client.py:561-578 | within one answer, the counter rises exactly when some reply with text is not a thought and every reply before it has no text |
| GeminiChat.ReplyItemsEmpty | app/backends/gemini/client.py:561-565 | one answer's replies emit nothing exactly when none of them carries text |
| GeminiChat.ItemsEmpty | app/backends/gemini/client.py:545-584 | a run of answers emits nothing exactly when each answer emits nothing |
| GeminiChat.CollectCompletion | app/backends/gemini/client.py:440-459 | the collecting loop gives the reference assistant message |
| GeminiChat.CollectedItems | app/backends/gemini/client.py:441-455 | collecting a reply's chunks gives its answer text and notices as content and its thoughts as reasoning |
| GeminiChat.FramedMeaning | app/backends/gemini/client.py:516-518 | a streamed reply is the role chunk, the body, the stop chunk and `[DONE]`, and the framing adds nothing to the collected text |
| GeminiChat.NonStreamCompletion | app/backends/gemini/client.py:440-459 | a non-streamed reply's message holds every answer text and notice, and reasoning only when there is some |
| GoogleApi.CommonHeaders | app/backends/gemini/google_api.py:25-43 | the fixed browser headers plus the bearer token and the given user agent, and nothing else |
| GoogleApi.AddTwo | app/backends/gemini/google_api.py:31-35 | adding two distinct keys sets both and keeps every other entry |
| GoogleApi.RequestHeadersMeaning | app/backends/gemini/google_api.py:57-61 | extra headers are added and win over the common ones, and common headers they do not name are kept |
| GoogleApi.Authorization | app/backends/gemini/google_api.py:57-61 | the bearer token is sent unless the caller supplies its own `authorization` |
| GoogleApi.Upper | app/backends/gemini/google_api.py:63 | upper-casing maps each character and keeps the length |
| GoogleApi.JwtRetryRefuses | app/backends/gemini/google_api.py:55-82 | a failing first `get_jwt` is raised whatever the method; then a method other than GET or POST, in any case, fails with `Unsupported HTTP method: <method>`; a failing second `get_jwt` after a 401 is raised; otherwise the call succeeds |
| GoogleApi.JwtRetrySends | app/backends/gemini/google_api.py:46-82 | a request is sent once, and once more exactly when the first answer is 401, with the token `get_jwt` then returns (the cached one unless the cache has expired); each send uses the upper-cased method and the token its `get_jwt` call gave, and the last answer is returned |
| GoogleApi.RetryResendsCachedToken | app/backends/gemini/google_api.py:70-80 | as written, while the token cache is live, the request sent after a 401 is identical to the refused one |
| GoogleApi.RetryUsesMintedToken | app/backends/gemini/google_api.py:70-80 | with a forced refresh on 401, the second request carries the newly minted token, so it differs from the first whenever the token is new; a failed mint is raised |
| GoogleApi.CreateSession | app/backends/gemini/google_api.py:85-117 | the session name is returned exactly when the status is 200 and the answer names one; any other status fails with `createSession failed: <status>` |
| GoogleApi.LastIndexOf | app/backends/gemini/google_api.py:133 | the last position of the separator, or none when it does not occur |
| GoogleApi.LastPart | app/backends/gemini/google_api.py:133 | `split(sep)[-1]`: the suffix after the last separator, holding none, or the whole text when there is no separator |
| GoogleApi.UploadExtension | app/backends/gemini/google_api.py:133 | `bin` without a `/`; otherwise the part of the MIME type after its last `/` |
| GoogleApi.UploadFileName | app/backends/gemini/google_api.py:134 | the upload name starts with `upload_` and ends with `.` and the extension |
| GoogleApi.UploadResult | app/backends/gemini/google_api.py:154-167 | an upload succeeds exactly on status 200 and returns the file id the answer carries, possibly none |
| GoogleApi.MetadataMapKeys | app/backends/gemini/google_api.py:204-210 | the metadata map's keys are exactly the non-empty ids of the entries |
| GoogleApi.MetadataMapValues | app/backends/gemini/google_api.py:206-209 | each id maps to the last entry carrying it |
| GoogleApi.GetSessionFileMetadata | app/backends/gemini/google_api.py:197-210 | a non-200 answer gives an empty map; otherwise the loop gives the reference metadata map |
| GoogleApi.DownloadUrl | app/backends/gemini/google_api.py:213-214 | the URL lies under the API base and the session and ends with `&alt=media` |
| GoogleApi.DownloadUrlInjective | app/backends/gemini/google_api.py:213-214 | different file ids of one session give different download URLs |
| GoogleApi.Pow2 | app/backends/gemini/google_api.py:256 | every backoff step is at least one second |
| GoogleApi.Backoff | app/backends/gemini/google_api.py:256 | one sleep per failed attempt before the last |
| GoogleApi.DownloadImage | app/backends/gemini/google_api.py:217-266 | the retry loop gives the reference outcome and sleeps, including the immediate re-raise of an exception other than a timeout or `httpx.HTTPError` |
| GoogleApi.FirstStopAt | app/backends/gemini/google_api.py:230-264 | an attempt after only timeouts and HTTP errors that is not one itself is the attempt that ends the loop |
| GoogleApi.DownloadTriesByStop | app/backends/gemini/google_api.py:230-266 | the first attempt that is not a timeout or HTTP error decides: its content, or its exception raised at once, after one doubling sleep per earlier attempt; without one, the last attempt's error |
| GoogleApi.DownloadTriesMeaning | app/backends/gemini/google_api.py:230-266 | no attempts fail with `Image download failed unexpectedly`; success exactly when some attempt succeeds after only timeouts and HTTP errors, returning its content after doubling sleeps; an unhandled exception after only such failures is raised at once; when every attempt is a timeout or HTTP error, the last one's error |
| GoogleApi.DownloadTriesSucceeds | app/backends/gemini/google_api.py:230-248 | a success is the first attempt that is neither a timeout, an HTTP error nor an unhandled exception, after one doubling sleep per earlier failure |
| GoogleApi.DownloadTriesFails | app/backends/gemini/google_api.py:250-264 | a failure is either the first unhandled exception, raised at once after only timeouts and HTTP errors, or, when every attempt was a timeout or HTTP error, the last attempt's error |
| GoogleApi.DownloadMeaning | app/backends/gemini/google_api.py:217-266 | the download as a whole, from the first attempt: the same success, fail-fast and last-error cases |
| GoogleApi.MediaExtension | app/backends/gemini/google_api.py:279-288 | a known extension; `.png` exactly for PNG and for unknown MIME types |
| GoogleApi.MediaUrlMeaning | app/backends/gemini/google_api.py:288-296 | the file is named `<chat>_<file><ext>` and the public URL is `<base>/<path>/<name>` |
| GoogleApi.MediaFileNameInjective | app/backends/gemini/google_api.py:289 | different file ids of one chat give different file names |
| Imagine.SizeToAspectRatio | app/api/imagine.py:79-93 | the ratio is always allowed, and an unknown or absent size gives `2:3` |
| Imagine.SizeToAspectRatioMeaning | app/api/imagine.py:79-90 | the three square sizes and no other give `1:1`; each wide and tall size gives its own ratio |
| Imagine.ResolveAspectRatioMeaning | app/api/imagine.py:96-119 | the resolved ratio is always allowed; an explicit allowed ratio wins, an explicit disallowed one is a 400, and an absent or empty one falls back to the size |
| Imagine.ValidateVideoOptionsMeaning | app/api/imagine.py:122-131 | the options pass exactly when the duration is 6 or 10, the resolution 480p or 720p and the preset one of the four offered; a failure is a 400 |
| Imagine.ConvertResult | app/api/imagine.py:193-202 | the conversion loop gives one response item per usable backend item, and a 500 with the route's message when there is none |
| Imagine.Usable | app/api/imagine.py:195-199 | the number of usable items never exceeds the number of items |
| Imagine.ConvertItemsAppend | app/api/imagine.py:195-199 | converting two runs of items is converting each in turn |
| Imagine.ConvertItemsCount | app/api/imagine.py:195-199 | exactly one response item per usable backend item |
| Imagine.ConvertItemsEmpty | app/api/imagine.py:195-202 | the response is empty exactly when no item has non-empty inline data or a non-empty URL |
| Imagine.ConvertItemsOrder | app/api/imagine.py:195-199 | each item's conversion sits between those of the items before and after it |
| Imagine.ConvertItemPrefersInline | app/api/imagine.py:196-197 | an item with inline data gives that data even when it also has a URL |
| Imagine.ErrorStatusMeaning | app/api/imagine.py:208-338 | a rate-limit error is a 429 on both routes; the video route alone turns `video_not_supported` into a 501; everything else is a 500 |
| Imagine.GenerateImageMeaning | app/api/imagine.py:136-215 | field errors are 422, a bad ratio 400 and an unknown model 404, in that order; streaming happens exactly for a valid Grok request; a success holds one item per usable backend item, never none; runtime errors map through the image statuses |
| Imagine.GenerateVideoMeaning | app/api/imagine.py:275-341 | field errors are 422, bad options or ratio 400 and an unknown model 404, in that order; a video reply never streams; a success holds one item per usable backend item; runtime errors map through the video statuses |
| Imagine.MediaModels | app/api/imagine.py:260-272 | exactly the listed model ids that name images, imagine, video, imagen or veo |
| Imagine.MediaModelsAppend | app/api/imagine.py:264-268 | the filter composes over concatenation, so it keeps the listed order and every duplicate |
| Imagine.MediaModelsSingle | app/api/imagine.py:264-268 | one id is kept exactly when it names a media model |
| ChatApi.UserText | app/api/chat.py:53-60 | only a user message with text that is not blank once stripped offers a prompt |
| ChatApi.ExtractPromptScan | app/api/chat.py:50-61 | the backwards scan gives the reference prompt |
| ChatApi.LastUserTextAppend | app/api/chat.py:52 | later messages with a prompt win over earlier ones |
| ChatApi.ExtractPromptEmpty | app/api/chat.py:50-61 | the prompt is empty exactly when no user message has text |
| ChatApi.ExtractPromptLast | app/api/chat.py:52-60 | a non-empty prompt comes from the last user message that has text |
| ChatApi.LastUserTextAt | app/api/chat.py:52-60 | a found text belongs to a user message after which no message offers one |
| ChatApi.InsertOtherRole | app/api/chat.py:53 | messages of other roles never affect the prompt |
| ChatApi.TrimTrailingSlashes | app/api/chat.py:68 | `rstrip("/")`: a prefix ending in no slash, with only slashes removed |
| ChatApi.TrimTrailingSlashesIdempotent | app/api/chat.py:68 | trimming twice is trimming once |
| ChatApi.BaseUrlMeaning | app/api/chat.py:64-71 | a configured base URL wins, with exactly its trailing slashes removed; otherwise the URL starts with `x-forwarded-proto` when present, else the request scheme, and `://`, and ends with the forwarded host, else the `host` header, else `localhost` |
| ChatApi.ChatFailureMeaning | app/api/chat.py:124-135 | the detail is the error's text; ValueError is 400; a rate-limit RuntimeError is 429; 503 only for an unavailable RuntimeError; everything else 500 |
| ChatApi.GeminiUnknownModel | app/backends/gemini/client.py:263-264 | the Gemini backend's unknown-model error reaches the client as a 400 |
| ChatApi.GeminiExhausted | app/backends/gemini/client.py:325-328 | the Gemini backend's exhausted-accounts error reaches the client as a 503, or a 429 when the last failure was rate limiting |
| ChatApi.UnavailableIn | app/api/chat.py:130 | the exhausted-accounts message always contains `unavailable` |
| ChatApi.Quoted | app/api/chat.py:95-98 | one quoted id per model |
| ChatApi.ChatCompletionsMeaning | app/api/chat.py:76-135 | no backend gives a 404 naming the model; a backend error keeps its text with a non-404 status; otherwise the reply streams exactly when asked |
| Webhook.VerifySignature | app/api/webhook.py:27-32 | accepted exactly when a secret is set and the signature equals the expected digest, which is non-empty |
| Webhook.VerifySimpleSecret | app/api/webhook.py:35-39 | accepted exactly when a secret is set and the header carries it |
| Webhook.AuthenticatedMeaning | app/api/webhook.py:63-80 | without a secret every request passes; with one, a request passes exactly when its signature or its secret header matches, so a request sending neither is refused |
| Webhook.TopupAsWritten | app/api/webhook.py:151-171 | as written, every known pack fails inside the handler (the store has no extra-quota operation) and an unknown pack is reported |
| Webhook.Topup | app/api/webhook.py:151-171 | a known pack credits the user with that pack's images and videos; an unknown pack is reported |
| Webhook.TopupNeverCredited | app/api/webhook.py:158-170 | no top-up is ever credited as written, while the intended handler credits the `img50` pack with 50 images |
| Webhook.ProcessWebhookPayment | app/api/webhook.py:136-191 | the store's subscriptions and payments, and the outcome, are those of `Process`, the handler as written, so a top-up is never reported as credited |
| Webhook.ProcessMeaning | app/api/webhook.py:136-191 | the payment is settled as paid at `now`; a payment that was not pending is reported as already processed; subscriptions change only by a grant, issued by user 0 at `now` for the payment's tier and ending after `now` |
| Webhook.ProcessGrants | app/api/webhook.py:147-186 | a subscription is granted exactly for a pending payment whose tier is not a top-up and whose tier and duration are valid |
| Webhook.TopupNeverGrants | app/api/webhook.py:151-171 | a top-up payment never touches subscriptions in either handler; as written it is never credited and fails on the missing store operation exactly when pending and for a known pack, while the intended handler credits exactly such a payment, to its payer |
| Webhook.ProcessTwice | app/api/webhook.py:142-145 | processing the same payment again changes nothing and reports it as already processed |
| Webhook.QrisWebhook | app/api/webhook.py:42-133 | the store and the reply are those of the reference handler |
| Webhook.HandleChangesOnlyWhenMatched | app/api/webhook.py:63-133 | only a matched payment changes the store; a request is rejected exactly when it is not authenticated; an authenticated payload whose status is not `completed` is ignored with its status |
| Webhook.HandleProcessesPending | app/api/webhook.py:112-129 | a completed notice for a user with no pending payment is no match; otherwise the user's latest pending payment is processed and reported as granted, or granted with an amount mismatch exactly when the amounts differ |
| Webhook.HandleReplay | app/api/webhook.py:112-145 | a repeated notice for the same payment changes nothing more |

## Left out

- The Telegram UI handlers, keyboards and message texts (bot/handlers), the network clients and browser automation, and the schedulers are not part of this model; only the bookkeeping they call is.
- The periodic sleep loop around the session-cache sweep: the model has one sweep step with the clock as a parameter.
- The admin endpoints, bot/qr_utils.py and app/backends/base.py are not part of this model.
- `migrate_from_json` is not part of this model: it is one-off file import.
- Concurrency: session locks, asyncio locks and `gather` are not modelled. Every operation is modelled as atomic and sequential.
- MD5, HMAC-SHA256, JSON encoding and decoding, `uuid4` and `random` are parameters or uninterpreted inputs, not computed.
- The clock, the UTC+8 expiry-string parsing and `_today_key` are inputs (integers and date keys), not computed.
- HTTP requests and responses, file reads and writes, and SQLite I/O are oracle results or in-memory values.
- `update_http_client`, `initialize_all`, `shutdown_all` and `get_all_status` are not modelled: they only wire clients together.
- The tie order of the stable sort in session-cache eviction is not pinned: the model proves that exactly the excess entries with the oldest timestamps go, without fixing the order among equal timestamps.
- Logging is not modelled.
- RateLimiter.Limiter.CheckCooldown: the fractional seconds of `time.time()` are exact `real`s, so floating-point rounding of the elapsed time is not modelled.
- Config.ParseInt: only ASCII digits are accepted; Python's `int()` also accepts every other Unicode decimal digit.
- Case conversion is ASCII-only; the Unicode case tables behind Python's `lower()` are not modelled.
- Inside each pass of the response wrapper's failover loop, the session handling is not modelled: creating a session when the cache entry is gone, re-uploading images and rebuilding the full context on a retry (app/backends/gemini/client.py:356-380). Neither are the session-cache writes after a switch (lines 412-414). Each pass and each switch is an input outcome.
- Downloading and saving generated media inside the chat stream (app/backends/gemini/client.py:598-648) is not modelled beyond the URL and file-name helpers.
- HTTP header names are matched exactly; their case-insensitivity is not modelled.
- The validation framework's exact 422 message text and Python's `repr` quoting in error strings are not modelled.
- The Grok image streaming path (`stream_generate`, app/api/imagine.py:218-257) is not part of this model.
- `int(customer_id)` in the webhook is a parameter: the model receives the parsed user id or its absence.
- `get_cooldown_text` in the rate limiter (display text only) is not modelled.
- `get_db` and `close_db` (connection lifecycle) are not modelled.
- `SubscriptionManager.get_info_text` (bot/subscription_manager.py:173), display text only, is not modelled.
- The extraction of markdown images from a generated reply (app/backends/gemini/client.py:700-704, the base64 and URL regular expressions) is not modelled: `GeminiClient.GenerateImageData` takes the extracted inline images and links as its inputs `inline` and `links`.
- Base64 decoding of characters outside the URL-safe alphabet is modelled as a failure, not as the decoder's lenient skipping; this includes `+` and `/`, which the URL-safe decoder accepts as the values 62 and 63 because it first maps `-_` onto them.
- AccountPool.MultiAccountManager.PooledAccount: on the pooled path the contract states the chosen account's session usage count goes up by one, but not that every other account's count is unchanged, because the frame proof over the account map is too costly.
- AccountPool.MultiAccountManager.GetAccount: the same as `PooledAccount` when no account id is given. With an account id, the frame for the other accounts is stated in full.

## Findings

| source | as written | input that shows it | evidently intended | confidence | as-written member | corrected member |
|---|---|---|---|---|---|---|
| app/api/webhook.py:158 | the top-up branch calls `db.add_extra_quota`, which bot/database.py does not define. The AttributeError is caught at lines 169-170, so the payment is already marked paid and the user is never credited | a completed webhook for a pending payment with tier `topup_img50` | credit the user with the pack's images and videos (50 images for `img50`) | medium, not executed | Webhook.TopupAsWritten, Webhook.TopupNeverCredited | Webhook.Topup |
| app/backends/gemini/google_api.py:70-80 | the retry after a 401 calls `get_jwt` again, which returns the cached token until its 270 seconds have passed (app/backends/gemini/jwt_manager.py:69-74), so the retry resends the refused token | any GET whose first answer is 401 while the cached token is live | drop the cached token on a 401 so the retry carries a newly minted one | medium, not executed | GoogleApi.JwtRetryAsWritten, GoogleApi.RetryResendsCachedToken | GoogleApi.JwtRetryRefreshing, GoogleApi.RetryUsesMintedToken |

