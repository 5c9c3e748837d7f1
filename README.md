# Minecraft–Discord bridge: a verified model of its decision layer

The bridge keeps a bot logged in to a Minecraft server and relays what
happens there to a Discord channel. It also answers players through an AI
service. This project models the part of the bridge that decides and keeps
books. That is:

- the reply segmenter that cuts long AI replies into chat-sized chunks;
- the chat-line dispatcher with its ordered command rules, the rating
  grammar and the cooldown gate in front of the AI path;
- the delayed delivery of a reply and its follow-up chunks;
- the edge-triggered health, food and day/night monitors;
- the allow-list filters for mined blocks, rare mobs, valuable pickups,
  experience milestones and a nearly full inventory;
- the death counter;
- the advancement, portal, combat and whisper handlers;
- the guard that makes every Discord notification a no-op unless the relay is
  ready;
- from `index.js`: the login-name derivation, the uncaught-error classifier,
  the duplicate-login test, the 30-second connect watchdog and the
  status-message dedupe;
- `config/config.js`: resolving the environment into the configuration record
  and checking the required credentials.

The modules follow the program:

| file | module | models |
|---|---|---|
| `wrappers.dfy` | `Wrappers` | `Option` / `Result` for `undefined`, `NaN` and early exits |
| `text.dfy` | `Text` | the JavaScript string operations used: `includes`, `toLowerCase`, `trim`, `split(' ')`/`join(' ')`, `String(n)`, `slice(-n)`, `repeat`, `x \|\| fallback` |
| `segmenter.dfy` | `Segmenter` | the packing loop of `formatAIMessage` and what its chunks satisfy |
| `commands.dfy` | `Commands` | the command rules of the `chat` handler and the rating regular expression |
| `relay.dfy` | `Relay` | the notices and the `sendDiscordNotification` guard |
| `monitors.dfy` | `Monitors` | edge detection, the day/night flip, the filters, the slot count |
| `bridge.dfy` | `Bridge` | the module-level state of `handlers/minecraftEvents.js` as the class `ChatBridge`, and every handler |
| `session.dfy` | `Session` | the `index.js` rules and the client slot as the class `Supervisor` |
| `config.dfy` | `Config` | `parseInt`, the settings record, the required-field check |

A handler returns what it does, in order, as a list of `Effect`s. A notice
sent to Discord is `Notify(notice)`. A chat line is `Say(text)`. A
`setTimeout` is `After(delay, callback)`, whose callbacks are themselves
modelled (`ChatBridge.DeliverReply`, `OnRespawnTimer`). Time, randomness and
the AI service are inputs:

- the clock is an `int` parameter;
- the random prefix and decoration are indices below 10;
- the random 0–2 s jitter is an integer below 2000;
- `shouldRespond` is a `bool`;
- `generateResponse` is an `Option<string>`.

## Model

| member | source | states |
|---|---|---|
| `Text.Contains` | handlers/minecraftEvents.js:136 | `includes` is true exactly when the needle occurs at some index of the text |
| `Text.PrefixOccurs` | handlers/minecraftEvents.js:161-167 | an occurrence of a string carries an occurrence of each of its prefixes |
| `Text.AbsentCharExcludes` | handlers/minecraftEvents.js:385 | a needle holding a character the text lacks never occurs in it |
| `Text.ToLowerKeeps` | handlers/minecraftEvents.js:132 | lower-casing introduces no character other than lower-case letters |
| `Text.TrimSpaced` | handlers/minecraftEvents.js:33 | trimming a clean chunk followed by one space gives the chunk back |
| `Text.TrimSplits` | handlers/minecraftEvents.js:223 | `trim` cuts white space, and only white space, from the two ends: the text is white space, the trimmed text, and white space |
| `Text.TrimPadded` | handlers/minecraftEvents.js:223 | the same, stated as an existence for use in function contracts |
| `Text.TrimStartSplits` | handlers/minecraftEvents.js:223 | the text is a run of white space followed by what remains after the leading white space is removed |
| `Text.TrimEndSplits` | handlers/minecraftEvents.js:223 | the text is what remains after the trailing white space is removed, followed by a run of white space |
| `Text.TrimIsClean` | handlers/minecraftEvents.js:223 | `trim` yields the empty string or a string with no white space at either end |
| `Text.IndexOf` | handlers/minecraftEvents.js:385 | the index found holds the character, and no earlier index does |
| `Text.Split` | handlers/minecraftEvents.js:26 | `split(' ')` gives at least one piece, and no piece contains a space |
| `Text.JoinSplit` | handlers/minecraftEvents.js:26 | joining the pieces of `split(' ')` with single spaces gives the text back |
| `Text.SplitJoin` | handlers/minecraftEvents.js:26 | splitting space-joined space-free words gives the words back |
| `Text.JoinSnoc` | handlers/minecraftEvents.js:26-41 | appending a word to a joined list adds one space and the word |
| `Text.DigitChar` | handlers/minecraftEvents.js:169 | the character of a digit value is a decimal digit |
| `Text.Decimal` | index.js:115 | `String(n)` is non-empty and made of decimal digits |
| `Segmenter.Step` | handlers/minecraftEvents.js:31-37 | defines one iteration of the packing loop: finish the trimmed open chunk when the word would pass 75 characters and the chunk is non-empty, then append the word and a space |
| `Segmenter.Pack` | handlers/minecraftEvents.js:26-38 | defines the loop state after a list of words, from an empty chunk and no finished chunks |
| `Segmenter.Chunks` | handlers/minecraftEvents.js:26-41 | defines the chunks of a reply: the finished chunks plus the trimmed open one unless it trims to nothing |
| `Segmenter.SplitReply` | handlers/minecraftEvents.js:26-41 | the packing loop returns exactly the chunks of the reply (`Chunks`), with the loop state equal to the packing of the words seen so far |
| `Segmenter.PackKeepsInvariant` | handlers/minecraftEvents.js:30-37 | after any prefix of plain words, every finished chunk is clean and fits, the open chunk is a clean chunk plus one space, and all of them joined give the words joined |
| `Segmenter.StepKeepsInvariant` | handlers/minecraftEvents.js:30-37 | one iteration of the loop keeps that invariant |
| `Segmenter.FlushKeepsInvariant` | handlers/minecraftEvents.js:31-35 | a word that would pass 75 characters closes the open chunk and keeps the invariant |
| `Segmenter.FlushStep` | handlers/minecraftEvents.js:31-36 | when the word does not fit, the iteration finishes the open chunk without its trailing space and opens the next chunk with the word |
| `Segmenter.GrowKeepsInvariant` | handlers/minecraftEvents.js:36 | a word that fits is appended and keeps the invariant |
| `Segmenter.ChunksRebuildReply` | handlers/minecraftEvents.js:26-41 | for a reply of single-space-separated words, each free of spaces and with no white space at either end (a line break inside a word is allowed), there is at least one chunk, each chunk is non-empty and at most 75 characters unless it is a single longer word, and the chunks joined by spaces are the reply: no word split or dropped |
| `Segmenter.EdgeWhiteSpaceDropped` | handlers/minecraftEvents.js:31-39 | chunks are trimmed, so a word ending in a line break that closes a chunk loses the line break: the chunks of `w + "\n " + x` (with `x` longer than 75) are `[w, x]`, and joined they differ from the reply |
| `Segmenter.ChunksOfLinePair` | handlers/minecraftEvents.js:26-41 | the chunks of a short word with a line break, a space and a word longer than 75 are the bare short word and the long word |
| `Segmenter.SplitPair` | handlers/minecraftEvents.js:26 | two space-free pieces around one space split into exactly those pieces |
| `Segmenter.PackPair` | handlers/minecraftEvents.js:30-37 | a short word ending in a line break, then a word longer than 75, pack into the trimmed first word as a finished chunk and the long word as the open one |
| `Segmenter.TrimLineBreak` | handlers/minecraftEvents.js:33 | trimming a clean word followed by a line break and a space gives the word |
| `Segmenter.EmptyWordMakesEmptyChunk` | handlers/minecraftEvents.js:30-41 | a space followed by a word of 75 or more characters gives the chunks `""` and the word: the lone space left by the empty word is truthy, so an empty chunk is finished |
| `Segmenter.PackEmptyThenLong` | handlers/minecraftEvents.js:30-37 | an empty word then a word of 75 or more characters leave an empty finished chunk and the long word open |
| `Segmenter.BlankReplyHasNoChunk` | handlers/minecraftEvents.js:39-50 | a reply that is one blank word packs to no chunk, so the line reads "undefined" after the tag |
| `Segmenter.BlankTrimsAway` | handlers/minecraftEvents.js:39 | a string of white space trims to nothing |
| `Commands.Classify` | handlers/minecraftEvents.js:134-205 | defines the dispatcher: the first of help, status, follow me, stop, feedback hint and rating rules whose test holds on the lower-cased line, else the AI path |
| `Commands.FirstAlternative` | handlers/minecraftEvents.js:167 | the alternation picks an alternative the text starts with, and none only when no alternative fits |
| `Commands.RatingAtParts` | handlers/minecraftEvents.js:167 | a match at an index is "bot rate ", a digit, a space and one of the six feedback words |
| `Commands.MatchAt` | handlers/minecraftEvents.js:167 | the expression tried at one index yields captures that match there, or reports that no capture can |
| `Commands.SearchFrom` | handlers/minecraftEvents.js:167 | the search returns the captures of the leftmost match at or after an index, or none when there is no match |
| `Commands.ParseRating` | handlers/minecraftEvents.js:167-171 | `match` fails exactly when the expression matches nowhere, and otherwise returns the captures of its leftmost match |
| `Commands.RatingMatchMentionsRate` | handlers/minecraftEvents.js:161-167 | every line the rating expression matches contains "bot rate" |
| `Commands.RatingRuleUnreachable` | handlers/minecraftEvents.js:161-204 | the dispatch never reaches the rating rule: the rule at :161 answers every such line first |
| `Commands.ConverseIffNoCommand` | handlers/minecraftEvents.js:134-164 | a line goes to the AI path exactly when it mentions no command word (help, status, follow me, stop, rate, feedback, `!help`, `!status`) |
| `Commands.HintRule` | handlers/minecraftEvents.js:134-164 | the feedback-hint rule decides when the earlier rules do not apply and "bot rate" occurs |
| `Commands.RatingExampleGetsHint` | handlers/minecraftEvents.js:161-168 | every well-formed rating line "bot rate <digit> <type>" matches the rating pattern, yet gets the hint text, because the hint rule comes first |
| `Commands.PatternLetters` | handlers/minecraftEvents.js:167 | a rating line starts with "bot rate" and holds no further 'b' and no 's' or 'w' |
| `Commands.NoEarlierRule` | handlers/minecraftEvents.js:134-164 | a line that starts with "bot rate", has no other 'b' and no 's' or 'w' passes the help, status, follow and stop rules and reaches the hint rule |
| `Relay.Post` | handlers/minecraftEvents.js:66-80 | a notice is sent exactly when the relay client exists, is ready, a channel is selected and cached; otherwise nothing happens |
| `Monitors.Reading` | handlers/minecraftEvents.js:462-463 | a missing reading or a reading of 0 is taken as 20; any other reading is kept |
| `Monitors.FallsCritical` | handlers/minecraftEvents.js:466 | defines the falling-edge test: the new reading is at most 5 and the previous one above 5 (the food test at :489 has the same shape) |
| `Monitors.Readings` | handlers/minecraftEvents.js:462-463 | the readings a run of events stores are the inputs taken through `x \|\| 20`, one for one |
| `Monitors.ZeroReadingRaisesNoAlert` | handlers/minecraftEvents.js:462-466 | a health reading of 0 is read as 20, so from a full reading it raises no alert |
| `Monitors.AlertOncePerDescent` | handlers/minecraftEvents.js:466-509 | while readings stay at or below 5, the alert fires at most once, on the first of them, and only if the previous reading was above 5 |
| `Monitors.AlertsNeedRecovery` | handlers/minecraftEvents.js:466-509 | over any run, alerts are at most the readings above 5 plus one |
| `Monitors.PhaseOf` | handlers/minecraftEvents.js:359 | defines the phase: day when `timeOfDay < 6000`, night otherwise |
| `Monitors.PhaseFlips` | handlers/minecraftEvents.js:362 | defines the notice condition: a phase was seen before and differs from the current one |
| `Monitors.NoticesAreFlips` | handlers/minecraftEvents.js:356-378 | from a fresh registration, the sunrise/sunset notices over a run of samples are exactly the day/night changes between consecutive samples |
| `Monitors.NoticesAfter` | handlers/minecraftEvents.js:362-377 | with a phase already seen, the notices are the changes counted from that phase |
| `Monitors.SteadyPhaseIsSilent` | handlers/minecraftEvents.js:359-362 | samples that stay in one phase raise no notice |
| `Monitors.ConstantHasNoFlips` | handlers/minecraftEvents.js:362 | a constant run has no changes |
| `Monitors.LastReading` | handlers/minecraftEvents.js:507-508 | defines the reading stored after a run: its last reading, or the starting one for an empty run |
| `Monitors.LastPhase` | handlers/minecraftEvents.js:377 | defines the phase stored after a run of samples: the phase of the last sample, or the starting one |
| `Monitors.AlertsSnoc` | handlers/minecraftEvents.js:466-509 | one more reading adds exactly its own falling-edge alert, judged against the reading before it |
| `Monitors.TimeNoticesSnoc` | handlers/minecraftEvents.js:359-377 | one more time sample adds exactly its own notice, judged against the phase before it |
| `Monitors.IsSignificantBlock` | handlers/minecraftEvents.js:383-385 | defines the block filter: the name contains the part before `_` of some allow-list entry |
| `Monitors.IsRareEntity` | handlers/minecraftEvents.js:422-425 | defines the rare-mob filter on the lower-cased `displayName \|\| name \|\| 'unknown'` |
| `Monitors.IsValuablePickup` | handlers/minecraftEvents.js:595-599 | defines the pickup filter: the collector is the bot and the lower-cased `name \|\| 'item'` mentions a valuable item |
| `Monitors.XpMilestone` | handlers/minecraftEvents.js:403 | defines the experience test: points present, positive and divisible by 50 |
| `Monitors.NearlyFull` | handlers/minecraftEvents.js:644 | defines the fullness test `filled / total > 0.9` without division |
| `Monitors.InventoryAlert` | handlers/minecraftEvents.js:634-644 | defines the window alert: a watched window type whose occupied slots are more than 90% |
| `Monitors.BeforeUnderscore` | handlers/minecraftEvents.js:385 | `split('_')[0]` is a prefix free of `_`, either the whole entry or ending just before an underscore |
| `Monitors.SignificantBlockKeywords` | handlers/minecraftEvents.js:383-385 | a block is reported exactly when its name contains diamond, emerald, gold, iron, netherite or spawner |
| `Monitors.KeywordOf` | handlers/minecraftEvents.js:383-385 | the first part of each allow-list entry is its keyword |
| `Monitors.AncientDebrisIsIgnored` | handlers/minecraftEvents.js:383-385 | "ancient_debris" is not reported: its entry contributes only "netherite" |
| `Monitors.DebrisLacksKeyword` | handlers/minecraftEvents.js:383-385 | "ancient_debris" contains none of the six keywords |
| `Monitors.DisplayNameHidesDragon` | handlers/minecraftEvents.js:422-425 | an entity named "ender_dragon" with display name "Ender Dragon" is not reported, because the display name wins and has a space where the list has `_` |
| `Monitors.DragonLacksMob` | handlers/minecraftEvents.js:422-425 | "ender dragon" contains no rare-mob name |
| `Monitors.LowerLacks` | handlers/minecraftEvents.js:425 | lower-casing "Ender Dragon" introduces no 's' or 'w' |
| `Monitors.OthersPickupsIgnored` | handlers/minecraftEvents.js:595 | another player's pickup is never reported |
| `Monitors.XpMilestoneMultiples` | handlers/minecraftEvents.js:403 | the experience notice fires exactly at the positive multiples of 50 |
| `Monitors.FilledAtMostTotal` | handlers/minecraftEvents.js:638-642 | occupied slots never outnumber slots |
| `Monitors.CountSlots` | handlers/minecraftEvents.js:636-642 | the loop counts every slot and exactly the slots that hold an item |
| `Monitors.NearlyFullIsRatio` | handlers/minecraftEvents.js:644 | for a window with slots, `10 * filled > 9 * total` is the test `filled / total > 0.9` |
| `Monitors.InventoryAlertNeedsItems` | handlers/minecraftEvents.js:635-645 | an inventory notice needs a non-empty window with an occupied slot |
| `Bridge.Notified` | handlers/minecraftEvents.js:66-80 | a handler's notice appears exactly when the relay can send it |
| `Bridge.Mirrored` | handlers/minecraftEvents.js:122-129 | a chat line is copied as `**[MC]** user: text` exactly when the relay can send |
| `Bridge.ReplyLine` | handlers/minecraftEvents.js:7-57 | defines the line `formatAIMessage` returns: tag and first chunk for a reply over 80 characters, tag, reply and ornament otherwise |
| `Bridge.Stored` | handlers/minecraftEvents.js:44-48 | defines the pending map after `formatAIMessage`: the chunks after the first under the user's name when there is more than one, else unchanged |
| `Bridge.FollowUps` | handlers/minecraftEvents.js:236-241 | follow-up chunk `i` is scheduled at `(i + 1) * 2000` ms, marked with "» " |
| `Bridge.LeadingSpaceSendsBareTag` | handlers/minecraftEvents.js:25-50 | a long reply of a space and one word sends only the tag and `: `, stores the word as the user's one pending chunk, and that chunk follows after 2 s |
| `Bridge.FollowUpTimers` | handlers/minecraftEvents.js:236-241 | the `forEach` produces exactly the follow-up timers of the pending chunks, in order |
| `Bridge.LongReplyDelivered` | handlers/minecraftEvents.js:44-50 | for a long reply of single-space-separated words free of spaces and of white space at their ends, the sent line carries the first chunk, the follow-ups carry the rest two seconds apart, and together they give back the reply |
| `Bridge.GateOpen` | handlers/minecraftEvents.js:209-213 | defines the cooldown gate: `shouldRespond` and a strict `now - lastChatTime > CHAT_COOLDOWN` |
| `Bridge.Respond` | handlers/minecraftEvents.js:134-245 | defines what each rule other than rating does after the mirror: the fixed replies, following or stopping, and on the AI path the request and the 1–3 s delivery timer |
| `Bridge.CleanPrompt` | handlers/minecraftEvents.js:223 | after a leading `.`, the prompt is the rest of the line with the white space at both ends cut away: the rest is white space, the prompt and white space, and the prompt is empty or has no white space at either end (so it is exactly the `trim` of the rest), and shorter than the line; any other line is sent unchanged |
| `Bridge.TrimShortens` | handlers/minecraftEvents.js:223 | `trim` never lengthens |
| `Bridge.TrimStartShortens` | handlers/minecraftEvents.js:223 | removing leading white space never lengthens |
| `Bridge.AIPathConditions` | handlers/minecraftEvents.js:207-245 | the AI service is asked exactly when no command applies, `shouldRespond` holds and `now - lastChatTime > CHAT_COOLDOWN`; a reply is scheduled 1–3 s later exactly when the answer is non-empty as well |
| `Bridge.OnDiggingCompleted` | handlers/minecraftEvents.js:382-399 | a mined block is reported, as `BlockMined(block)` and nothing else, exactly when the relay can send and its name mentions a keyword |
| `Bridge.OnExperience` | handlers/minecraftEvents.js:402-418 | experience is reported, as `XpReached(points)` and nothing else, exactly when the relay can send and the points are a positive multiple of 50 |
| `Bridge.OnEntitySpawn` | handlers/minecraftEvents.js:421-440 | a spawn is reported, under the name shown, exactly when its lower-cased name mentions a rare mob |
| `Bridge.OnPlayerCollect` | handlers/minecraftEvents.js:594-615 | a pickup is reported only for the bot itself, only for a valuable item, under `name \|\| 'item'` |
| `Bridge.OnWindowOpen` | handlers/minecraftEvents.js:634-658 | a watched window is reported, with its counts, exactly when more than 90% of its slots are occupied |
| `Bridge.OnRespawnTimer` | handlers/minecraftEvents.js:316-329 | the timer respawns the bot and then, when the relay can send, reports `Respawned`; otherwise it only respawns |
| `Bridge.OnAdvancementMessage` | handlers/minecraftEvents.js:442-458 | an achievement notice, carrying the line, goes out exactly when the relay can send and the line mentions "has made the advancement" or "has completed the challenge" |
| `Bridge.OnPortalMessage` | handlers/minecraftEvents.js:662-678 | a portal notice, carrying the line, goes out exactly when the relay can send and the line names the bot and mentions "portal" or "dimension" |
| `Bridge.OnAttackedTarget` | handlers/minecraftEvents.js:573-591 | an attack is reported, under `displayName \|\| name`, exactly when the relay can send and one of the two names is non-empty |
| `Bridge.OnWhisper` | handlers/minecraftEvents.js:698-721 | a whisper always asks the AI service with the message as it is, with no cooldown; a reply is whispered back after 1 s exactly when the answer is non-empty |
| `Bridge.HealthEffects` | handlers/minecraftEvents.js:461-509 | defines the health handler's effects from the previous and current readings: the health notice and auto-eat on the health edge, then the food notice on the food edge |
| `Bridge.HealthAlerts` | handlers/minecraftEvents.js:461-509 | the health notice goes out exactly on a falling edge of health and the food notice exactly on one of food; auto-eat is enabled only on the health edge |
| `Bridge.PhaseNotice` | handlers/minecraftEvents.js:359-369 | the notice is a sunrise exactly when the new phase is day, otherwise a sunset, and its hour `h` satisfies `1000 * h <= timeOfDay < 1000 * (h + 1)`, i.e. `Math.floor(timeOfDay / 1000)` |
| `Bridge.ChatBridge.constructor` | handlers/minecraftEvents.js:60-63 | the module starts with `lastChatTime` 0, no deaths, readings of 20, no pending replies and empty feedback lists |
| `Bridge.ChatBridge.Register` | handlers/minecraftEvents.js:356 | each registration of the handlers starts with no day/night phase seen |
| `Bridge.ChatBridge.FormatAIMessage` | handlers/minecraftEvents.js:7-57 | a reply of at most 80 characters gives `prefix: reply decor` and leaves the pending map alone. A longer one gives `prefix: ` plus the first chunk. When there is more than one chunk, the user's entry becomes exactly the chunks after the first, replacing any earlier entry. No other user gains or loses an entry |
| `Bridge.ChatBridge.DeliverReply` | handlers/minecraftEvents.js:228-244 | the line is said first. `lastChatTime` becomes the delivery time. The user's pending chunks, if any, are scheduled as follow-ups and the entry is deleted. From an empty map, the follow-ups are exactly the chunks after the first and the map is empty again |
| `Bridge.ChatBridge.RecordRating` | handlers/minecraftEvents.js:168-204 | a rating of 1–5 appends a `{user, rating, type, 'minecraft', time}` record to each feedback list and thanks the user with that many stars; any other digit appends nothing and replies "Rating must be 1-5 stars!" |
| `Bridge.ChatBridge.OnChat` | handlers/minecraftEvents.js:117-246 | the bot's own lines are ignored. Other lines are mirrored and then handled by the first rule that applies. The AI path is gated as stated above. `lastChatTime` is never written here |
| `Bridge.ChatBridge.OnSpawn` | handlers/minecraftEvents.js:85-114 | the connection is reported, auto-eat is enabled when configured and loaded, and the current readings become the baseline |
| `Bridge.ChatBridge.OnHealth` | handlers/minecraftEvents.js:461-509 | the alerts are those of the falling edges from the stored readings; both readings are then overwritten |
| `Bridge.ChatBridge.OnTime` | handlers/minecraftEvents.js:357-379 | with no time nothing happens. Otherwise a notice goes out when a phase was seen and it differs from the current one, and the current phase is stored |
| `Bridge.ChatBridge.OnDeath` | handlers/minecraftEvents.js:296-331 | the count goes up by one, the new count is reported, and a respawn is scheduled after 2 s when enabled |
| `Bridge.ChatBridge.OnEnd` | handlers/minecraftEvents.js:549-568 | the session's death count is reported and then reset to 0 |
| `Bridge.ChatBridge.HealthRun` | handlers/minecraftEvents.js:461-509 | repeated `health` events with the relay reachable, any readings included (0 and missing read as 20), send exactly as many critical-health notices as `Alerts` counts from the stored reading over the readings as `\|\| 20` takes them, and leave the last of those stored |
| `Bridge.ChatBridge.TimeRun` | handlers/minecraftEvents.js:356-379 | repeated `time` events with the relay reachable send exactly as many sunrise and sunset notices as `TimeNotices` counts from the phase seen so far, and leave the last phase stored |
| `Bridge.CooldownStampedOnDelivery` | handlers/minecraftEvents.js:211-232 | two lines 500 ms apart, both before the first delivery, both get a reply scheduled; after a delivery, a line inside the cooldown gets none |
| `Session.Pow10` | index.js:115-116 | arithmetic helper of `Session.LoginNamesCollide`: powers of ten are positive |
| `Session.Digits` | index.js:115 | the last `k` digits are `k` characters long |
| `Session.DecimalLong` | index.js:115 | a number of at least `10^k` has at least `k + 1` decimal digits |
| `Session.LastIsDigits` | index.js:115 | from `10^(k-1)` on, `slice(-k)` of the decimal text is the last `k` digits |
| `Session.DigitsOfRemainder` | index.js:115 | the last `k` digits of a number are those of its remainder modulo `10^k` |
| `Session.DigitsDetermineRemainder` | index.js:115 | equal last digits mean equal remainders modulo `10^k` |
| `Session.ModSplit` | index.js:115-116 | arithmetic helper of `Session.LoginNamesCollide`: a remainder modulo `10p` splits into the remainder of `n / 10` modulo `p` and the last digit |
| `Session.ModUnique` | index.js:115-116 | arithmetic helper of `Session.LoginNamesCollide`: the Euclidean remainder is unique |
| `Session.DivModUnique` | index.js:115-116 | arithmetic helper of `Session.LoginNamesCollide`: the Euclidean quotient and remainder are unique |
| `Session.MulAtLeast` | index.js:115-116 | arithmetic helper of `Session.LoginNamesCollide`: a positive multiple is at least the factor |
| `Session.DigitsAreDigits` | index.js:115 | the last digits are decimal digits |
| `Session.LoginName` | index.js:115-116 | defines the login name: the base, `_` and the last four characters of the clock reading in decimal |
| `Session.LoginNameShape` | index.js:115-116 | the login name is the base, `_` and four decimal digits |
| `Session.LoginNamesCollide` | index.js:115-116 | two logins get the same name exactly when their clock readings agree modulo 10000 ms |
| `Session.OnUncaught` | index.js:290-303 | an error whose message mentions PartialReadError, Read error, Chunk size or packet is swallowed; any other ends the process with code 1 |
| `Session.EmptyHasNoMarker` | index.js:292 | an empty message mentions no marker, so the truthiness test changes nothing |
| `Session.UpperCasePacketExits` | index.js:290-303 | the test is case-sensitive: "PACKET ERROR" ends the process |
| `Session.PacketLacksMarker` | index.js:293-296 | "PACKET ERROR" contains none of the four markers |
| `Session.IsDuplicateLogin` | index.js:152-155 | a kick is flagged as a duplicate login exactly when its serialised reason contains `duplicate_login` |
| `Session.Supervisor.constructor` | index.js:19-21 | no client exists yet and no watchdog is armed |
| `Session.Supervisor.InitializeMinecraft` | index.js:110-212 | any exception inside the `try` is reported on the configured channel when reachable and gives null, with no watchdog armed. When `createBot` throws, nothing else changes; when a later step throws, the new client has already replaced the current one. Without an exception a fresh client becomes current, without a player or status message, with its watchdog armed |
| `Session.Supervisor.PlayerJoined` | index.js:186 | the current client has its `player` |
| `Session.Supervisor.OnSpawn` | index.js:192-195 | a client's spawn clears its own watchdog |
| `Session.Supervisor.WatchdogFires` | index.js:185-190 | a watchdog ends the session exactly when it was not cleared and the current client has no player |
| `Session.Supervisor.StatusCheck` | index.js:228-245 | with the relay reachable, a current client with a player, and more than one player online, the status line is stored; otherwise the stored line is unchanged. Nothing is sent |
| `Config.DigitIn` | config/config.js:11 | the digit value is below the radix, and in base 10 exactly the decimal digits have one |
| `Config.DigitRun` | config/config.js:11 | the run is the longest prefix of digits |
| `Config.ParseInt` | config/config.js:11 | a number is read exactly when at least one digit follows the blanks, the sign and any `0x`; a leading `-` gives a value at most 0 and otherwise the value is at least 0 |
| `Config.ParseDecimal` | config/config.js:11 | the decimal text of a number reads back as that number |
| `Config.RunOfDigits` | config/config.js:11 | a string of decimal digits is read in full |
| `Config.ValueOfDecimal` | config/config.js:11 | the value of the decimal text of `n` is `n` |
| `Config.TrailingTextIgnored` | config/config.js:11 | "2000ms" reads as 2000 |
| `Config.NumberThenText` | config/config.js:11 | a positive number followed by a non-digit reads as the number |
| `Config.DecimalLead` | config/config.js:11 | the decimal text of a positive number does not start with 0 |
| `Config.HexPrefixRead` | config/config.js:11 | "0x10" reads as 16 |
| `Config.SignAfterBlanks` | config/config.js:11 | "  -7" reads as -7 |
| `Config.NoDigitsIsNaN` | config/config.js:11 | "abc" reads as NaN |
| `Config.TrailingIgnored` | config/config.js:11 | digits not starting with 0 and followed by a non-digit read as the digits alone |
| `Config.IntSetting` | config/config.js:11 | defines `parseInt(x) \|\| d`: the default for an absent value, NaN or 0, else the number read |
| `Config.IntSettingFallsBack` | config/config.js:26-30 | an integer setting is its default exactly when the text is absent or reads as NaN or 0; otherwise it is the number read |
| `Config.IntSettingRoundTrip` | config/config.js:30 | a positive number written in decimal is taken as it is |
| `Config.Resolve` | config/config.js:3-35 | defines the configuration record from the environment, field by field, with each default and flag test |
| `Config.EmptyEnvironmentDefaults` | config/config.js:3-35 | with nothing set: port 48688, reconnect delay 15000, 50 attempts, cooldown 2000, the default host, username, prefix `!` and log level, respawn and auto-eat on, debug off, empty credentials |
| `Config.ZeroCooldownIsDefault` | config/config.js:30 | `CHAT_COOLDOWN=0` gives 2000 |
| `Config.FlagTexts` | config/config.js:21-33 | respawn and auto-eat are off only for the exact text "false"; debug is on only for the exact text "true" |
| `Config.MissingFrom` | config/config.js:38-39 | the filter keeps exactly the listed fields that are empty, in their order |
| `Config.Load` | config/config.js:38-45 | loading succeeds with the configuration exactly when no credential is missing, and otherwise fails with the non-empty list of missing names |
| `Config.LoadFailsIffCredentialMissing` | config/config.js:38-45 | loading fails exactly when a credential is unset or empty, and then names exactly those credentials, in order |

## Behaviour worth knowing

The model states each of these as the code does it.

- **Cooldown comparison.** The gate uses a strict `now - lastChatTime > CHAT_COOLDOWN`, not `>=`.
- **Replies can land inside the cooldown.** `lastChatTime` is written only when a reply is delivered, one to three seconds after the AI service answers, so the window also spans the service's own answer time. Two lines that arrive before that delivery both pass the gate and both get a reply, whatever the cooldown (`Bridge.CooldownStampedOnDelivery`). Lines at 0 ms and 500 ms with a 2000 ms cooldown both get a reply.
- **No supersession.** The pending map entry is written and deleted within one delivery callback (`Bridge.ChatBridge.DeliverReply` keeps `Quiescent()`). A second reply for the same user does not cancel the first reply's scheduled follow-ups, and nothing checks queue membership before a follow-up is sent.
- **The rating rule is dead.** The rule at handlers/minecraftEvents.js:161 answers every line the rating expression could match (`Commands.RatingRuleUnreachable`). Even the example from the hint text only gets the hint back. No feedback is ever recorded from the game chat.
- **Login names collide.** They are not collision-resistant: they repeat every ten seconds (`Session.LoginNamesCollide`).
- **Watchdog outcome.** A watchdog that fires without a player only ends the session; any retry is left to the reconnection module. Because it reads the global client, an uncleared watchdog of an earlier client tests the newer one (`Session.Supervisor.WatchdogFires`).
- **Status check.** The dedupe stores the line but sends nothing.
- **Block filter.** "ancient_debris" is not reported (`Monitors.AncientDebrisIsIgnored`).
- **Rare-mob filter.** Display names such as "Ender Dragon" escape the filter (`Monitors.DisplayNameHidesDragon`).

## Left out

- Discord embed rendering, `channel.send` and its failures, slash-command registration and the Express endpoints. These are I/O: a notice is its kind and the values it reports.
- Library calls. Pathfinder goals (`FollowPlayer`, `ClearGoal`), `autoEat.enable()` (`EnableAutoEat`) and `respawn()` (`Respawn`) are modelled as effects. `mineflayer.createBot` is modelled only as a fresh client number in `Session.Supervisor.InitializeMinecraft`. Plugin loading (`loadPlugin`, index.js:170-171) is not modelled.
- The status line's numbers: health and food are floats read from the library, so the line is only `SayStatus`.
- `aiService.shouldRespond` and `generateResponse`. They are not part of this model: inputs stand for their answers, and a thrown error is not modelled.
- `Math.random`. The prefix and the decoration are indices. The delivery jitter is an integer number of milliseconds below 2000, where JavaScript draws a fraction. `playerJoined`'s 30% welcome is not modelled.
- Handlers that notify unconditionally or only log: `playerJoined`, `playerLeft`, `weather`, `kicked`, `error`, `spawnReset` and the third `message` listener (admin detection). They hold no decision beyond the relay guard and log filters. The two notifying `message` listeners, `attackedTarget` and `whisper` are modelled (`Bridge.OnAdvancementMessage`, `Bridge.OnPortalMessage`, `Bridge.OnAttackedTarget`, `Bridge.OnWhisper`); the whisper's context object and a throwing `jsonMsg.toString()` are not.
- `utils/reconnection.js` is not part of this model. It holds the reconnection backoff and attempt cap, so no cap is modelled.
- The cron jobs other than the status dedupe: the 30-second auto-eat poll. Also `SIGINT`, `unhandledRejection` and `main`.
- `AI_RESPONSE_CHANCE`, which is read with `parseFloat`. Floats are not modelled.
- `Text.ToLower`: only ASCII letters are lower-cased, where JavaScript lower-cases all of Unicode. The names and keywords compared are ASCII.
- `Text.Contains`, `Text.Split` and the length tests count Unicode scalar values. JavaScript counts UTF-16 code units, so an emoji outside the Basic Multilingual Plane counts once here and twice there.
- `Config.ParseInt` reads the exact integer. JavaScript rounds readings beyond 2^53 to the nearest double, and `-0` is treated as 0.
- `Bridge.ChatBridge.OnChat` runs as one step: the awaits on `shouldRespond` (handlers/minecraftEvents.js:209) and `generateResponse` (:224) are not interleaved with other callbacks, so no delivery can change `lastChatTime` between them. `now` stands for the clock read at :212.
- `Bridge.ChatBridge.OnChat` leaves out the context object passed to the AI service (health, food, time of day, player count), as well as logging.
- `Segmenter.ChunksRebuildReply`: the round trip is promised only for words without white space at their ends. A word ending in white space that closes a chunk loses that white space, because each chunk is trimmed (`Segmenter.EdgeWhiteSpaceDropped`), and an empty word (a leading space, or two spaces in a row) leaves a lone space in the open chunk, which counts as non-empty: when the next word does not fit, an empty chunk is finished (`Segmenter.EmptyWordMakesEmptyChunk`). A long reply that starts with a space sends only the tag, and the whole text follows two seconds later (`Bridge.LeadingSpaceSendsBareTag`).
- `Bridge.ChatBridge.RecordRating` stamps both records with the one time `now`. The source reads the clock separately for each record (handlers/minecraftEvents.js:183 and :195), so the two stored times can differ by the time between the reads.
- `Session.Supervisor.InitializeMinecraft` distinguishes where the `try` is left only as: at `createBot`, or after the new client is stored. Listeners already attached to a client whose setup threw are not modelled.
- `Session.OnUncaught` takes the error's `message` as an optional string. A thrown value that is not an object is not modelled.
- `Session.IsDuplicateLogin` takes the serialised reason as its input. `JSON.stringify` is not modelled.
- `Monitors.CountSlots` sees a slot as an optional item type id. An empty slot is `None`, and a type id of -1 counts as empty.
- `shared/schema.js` and `drizzle.config.js` hold ORM declarations with no behaviour.
