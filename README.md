# MinecraftDCLink account-link gate, modelled in Dafny

MinecraftDCLink links Minecraft accounts to Discord accounts. It has two halves, and this project models both.

**The NeoForge server mod (Java).**
- Every player who joins is *frozen*: held in place, unable to interact or take damage.
- While frozen, the player is re-checked periodically, and an instruction message is resent periodically.
- The player is released when the companion bot's HTTP endpoint answers that the Minecraft UUID is linked to a Discord account.
- Separately, the mod looks up each player's Discord role. It shows the role as a coloured chat prefix and as a scoreboard team prefix.
- It posts join/leave events and the world's day and time of day to the same API.
- Its settings come from `config/minecraftdclink.properties`. Loading resolves each key against the current value and writes every resolved value back.

**The Discord bot (Python).**
- It serves `GET /v1/registration/{minecraft_uuid}`: an API-key check, then UUID validation with `uuid.UUID`, then a lookup in the `users` table.
- It offers `/register <minecraft_name>`. This resolves the name through Mojang's profile API into canonical UUID text, then admits the sign-up under a cap of 20 users, with both the Discord id and the Minecraft UUID unique.
- It offers `/checklink`, which reports the UUID linked to the caller.

**How the model is organised.**

Each module follows one part of the program:

| module | what it models |
|---|---|
| `Freeze` | `FreezeManager` and `FrozenPlayer`, as classes whose map and timestamp fields are updated in place |
| `Throttle` | the integer throttle used for the re-check, the message and the status post |
| `Http` | `RegistrationClient`: URL normalisation, request building and the exceptions it can throw, the `X-API-Key` header, `escapeJson`, the two JSON payloads, the registered-body test and the regex-based `parseRoleInfo` |
| `Config` | `FileConfig.parseInt` and `load`, over a property map |
| `Roles` | `RoleManager` (prefix, name style, `applyRole` on a scoreboard of teams), and team naming through `String.hashCode` and `Integer.toHexString` |
| `Mod` | the `MinecraftDCLink` class: event wiring, event gates, the chat prefix rule and the status tick |
| `Bot` | `handle_registration`, `resolve_uuid`, `link_minecraft` over a `UsersTable` class, and `check_link` |
| `Interop` | lemmas that connect the mod's reading of a reply to the bot's writing of it |

Supporting modules describe the library behaviour both sides rely on:
- `JavaLang`: 32- and 64-bit wrap-around, truncating `/` and `%`, `isBlank`, `trim`, `Integer.parseInt`, `toHexString` and `hashCode` over UTF-16.
- `PyUuid`: Python's `uuid.UUID(hex)` in full, including `int(_, 16)`.
- `Uuids`, `Hex`, `Numerals`, `Strings` and `JsonText`.

Work the mod hands to its background executor is returned as a value (`PendingCheck`, `Task`). Its completion is a separate method, run as a sequential step on the server thread. Outside inputs become parameters:
- the clock (`now`);
- the HTTP reply (status and body, or a failure);
- what `new URI(...)` and `HttpRequest.newBuilder(uri)` make of a URI string;
- the online players;
- the state of the properties file;
- the Mojang reply.

## Model

| member | source | states |
|---|---|---|
| Freeze.FrozenPlayer.constructor | src/main/java/com/marsphobos/minecraftdclink/freeze/FrozenPlayer.java:15-20 | the record keeps the given dimension, position, yaw and pitch (constant fields); both timestamps start at 0, Java's default for an unassigned `long` |
| Freeze.FrozenPlayer.SetLastCheckMillis | src/main/java/com/marsphobos/minecraftdclink/freeze/FrozenPlayer.java:42-44 | the check timestamp becomes `v`; the message timestamp is unchanged, and the frame allows no other field to change |
| Freeze.FrozenPlayer.SetLastMessageMillis | src/main/java/com/marsphobos/minecraftdclink/freeze/FrozenPlayer.java:50-52 | the message timestamp becomes `v`; the check timestamp is unchanged |
| Freeze.TickEntry | src/main/java/com/marsphobos/minecraftdclink/freeze/FreezeManager.java:68-79 | the check fires iff `now - lastCheck >= checkInterval*1000`, and the message fires iff the same holds for its own timestamp and interval; a firing timestamp becomes `now`, a silent one is kept; the place of the frozen player is kept |
| Freeze.FreezeManager.constructor | src/main/java/com/marsphobos/minecraftdclink/freeze/FreezeManager.java:30-35 | the manager starts with no frozen players and no server |
| Freeze.FreezeManager.SetServer | src/main/java/com/marsphobos/minecraftdclink/freeze/FreezeManager.java:37-39 | the server presence becomes the given value |
| Freeze.FreezeManager.IsFrozen | src/main/java/com/marsphobos/minecraftdclink/freeze/FreezeManager.java:41-43 | true exactly when the id has an entry in the gate |
| Freeze.FreezeManager.Schedule | src/main/java/com/marsphobos/minecraftdclink/freeze/FreezeManager.java:121-124 | a check is scheduled exactly when a server is set, and is for that player with the given immediate-message flag |
| Freeze.FreezeManager.FreezePlayer | src/main/java/com/marsphobos/minecraftdclink/freeze/FreezeManager.java:94-105 | the player's entry becomes a fresh record at their current place with both timestamps `now`; every other entry is unchanged; each player keeps a record of their own |
| Freeze.FreezeManager.HandlePlayerJoin | src/main/java/com/marsphobos/minecraftdclink/freeze/FreezeManager.java:45-48 | the player is frozen as by `freeze`, and a check with immediate message is scheduled iff there is a server |
| Freeze.FreezeManager.HandlePlayerQuit | src/main/java/com/marsphobos/minecraftdclink/freeze/FreezeManager.java:50-52 | exactly the player's entry is removed (a no-op when there is none); all others are unchanged |
| Freeze.FreezeManager.HandlePlayerTick | src/main/java/com/marsphobos/minecraftdclink/freeze/FreezeManager.java:54-80 | a player who is not frozen changes nothing; otherwise only that player's entry changes, as `TickEntry` says; a check without immediate message is scheduled iff the check fired and a server is set; the red instruction is sent iff the message fired |
| Freeze.FreezeManager.CompleteCheck | src/main/java/com/marsphobos/minecraftdclink/freeze/FreezeManager.java:128-143 | offline: no change and nothing sent. Registered: the entry is removed, the green unfreeze text is sent, and the unfreeze hook runs when one was supplied. Not registered: an existing entry is kept as it is, a missing one is created at the player's place; the instruction is sent iff the check asked for an immediate message |
| Throttle.Tick | src/main/java/com/marsphobos/minecraftdclink/freeze/FreezeManager.java:70-73 | with a non-negative last time, the throttle fires iff `now - last >= interval`; a firing sets `last` to `now`, otherwise it is kept |
| Throttle.FiringsSpaced | src/main/java/com/marsphobos/minecraftdclink/MinecraftDCLink.java:238-243 | over any run of ticks, two successive firings, and the previous firing and the first new one, are at least one interval apart |
| Throttle.FiringsAreTicks | src/main/java/com/marsphobos/minecraftdclink/MinecraftDCLink.java:238-243 | every firing time is one of the tick times |
| Throttle.NonPositiveIntervalAlwaysFires | src/main/java/com/marsphobos/minecraftdclink/freeze/FreezeManager.java:69-70 | with an interval of at most 0 (a setting of 0 or less) and a clock that does not go back, the throttle fires on every tick |
| JavaLang.Wrap32 | PluginJava.java:88 | the result is the `int` congruent to the exact value modulo 2^32, and equals it when it is in range |
| JavaLang.WrapLong | src/main/java/com/marsphobos/minecraftdclink/freeze/FreezeManager.java:70 | the result is the `long` congruent to the exact value modulo 2^64, and equals it when it is in range |
| JavaLang.JMod | src/main/java/com/marsphobos/minecraftdclink/MinecraftDCLink.java:245-246 | quotient and remainder recompose the dividend; the remainder lies in `[0, d)` for a non-negative dividend and in `(-d, 0]` for a negative one |
| JavaLang.TrimStart | src/main/java/com/marsphobos/minecraftdclink/config/FileConfig.java:68 | the result is a suffix of the input: exactly the leading characters at or below U+0020 are dropped, so it is empty or starts above U+0020 |
| JavaLang.TrimEnd | src/main/java/com/marsphobos/minecraftdclink/config/FileConfig.java:68 | the result is a prefix of the input: exactly the trailing characters at or below U+0020 are dropped, so it is empty or ends above U+0020 |
| JavaLang.ParseInt | src/main/java/com/marsphobos/minecraftdclink/config/FileConfig.java:68 | a number is read iff the text is an optional sign followed by one or more decimal digits whose signed value fits in an `int`, and it is that value |
| JavaLang.ParseIntDigits | src/main/java/com/marsphobos/minecraftdclink/http/RegistrationClient.java:207 | an unsigned digit run is read as its value when that fits in an `int`, and is rejected when it does not |
| JavaLang.ParseIntToString | src/main/java/com/marsphobos/minecraftdclink/config/FileConfig.java:49-52 | `Integer.parseInt(Integer.toString(v)) == v` for every `int` |
| JavaLang.ToHexString | PluginJava.java:88 | lowercase hex, at least one digit, whose value is the unsigned two's-complement reading of the `int` |
| JavaLang.Unsigned32 | PluginJava.java:88 | the unsigned reading is below 2^32 and congruent to the `int` modulo 2^32 |
| JavaLang.ToHexStringInjective | PluginJava.java:88 | two `int`s have the same `toHexString` iff they are equal |
| JavaLang.Utf16Units | PluginJava.java:88 | a character below U+10000 is the single unit of its own code; any other is the surrogate pair (high unit in D800-DBFF, low unit in DC00-DFFF) that encodes it |
| Numerals.NatToString | src/main/java/com/marsphobos/minecraftdclink/http/RegistrationClient.java:125 | decimal digits, at least one, with no leading zero, that denote `n` |
| Numerals.IntToString | src/main/java/com/marsphobos/minecraftdclink/http/RegistrationClient.java:125 | a leading '-' iff the number is negative, followed by the digits of its magnitude |
| Hex.HexValue | BotPython.py:73 | the value of `n` hex digits is below 16^n |
| Hex.HexDigits | src/main/java/com/marsphobos/minecraftdclink/http/RegistrationClient.java:39 | exactly `n` lowercase hex digits |
| Hex.HexDigitsValue | src/main/java/com/marsphobos/minecraftdclink/http/RegistrationClient.java:39 | the zero-padded hex rendering of a value denotes that value |
| Hex.HexDigitsOfValue | BotPython.py:225 | rendering a hex string's value at its own width gives back the string in lowercase |
| Hex.Lower | BotPython.py:225 | the same length, with each digit replaced by its lowercase form |
| Hex.UnsignedHex | PluginJava.java:88 | lowercase hex without leading zeros ("0" for zero) that denotes the value |
| Uuids.Hyphenate | BotPython.py:225 | 36 characters: hyphens at 8, 13, 18 and 23, and the 32 digits in order in the 8-4-4-4-12 groups |
| Uuids.Digits32 | src/main/java/com/marsphobos/minecraftdclink/http/RegistrationClient.java:39 | 32 lowercase hex digits that denote the UUID |
| Uuids.Canonical | src/main/java/com/marsphobos/minecraftdclink/http/RegistrationClient.java:39 | the text is in the canonical form of section 4 of RFC 9562: lowercase hex with hyphens at 8, 13, 18 and 23 |
| PyUuid.DropUnderscores | BotPython.py:73 | the digits left are hex digits, and a run that has no underscores is returned unchanged |
| PyUuid.InUuidRange | BotPython.py:73 | the integer is accepted iff it is in `[0, 2^128)`, and is kept as it is |
| PyUuid.AlnumCleaned | BotPython.py:73 | letters and digits lose nothing to the "urn:"/"uuid:" removal, brace stripping and hyphen removal |
| PyUuid.PyHexIntOfDigits | BotPython.py:73 | `int(h, 16)` on plain hex digits is their value |
| PyUuid.DehyphenateHyphenate | BotPython.py:73 | removing the hyphens from the 8-4-4-4-12 grouping gives back the 32 digits |
| PyUuid.HexIdAccepted | BotPython.py:223-225 | any 32 hex digits, in either case, are accepted as the UUID they denote |
| PyUuid.CanonicalAccepted | BotPython.py:71-75 | the canonical text of every UUID is accepted and denotes that UUID |
| PyUuid.CanonicalCleaned | BotPython.py:73 | cleaning canonical text leaves exactly its 32 digits |
| PyUuid.CanonicalInjective | BotPython.py:225 | distinct UUIDs have distinct canonical texts |
| PyUuid.NonHexRejected | BotPython.py:185-189 | 32 letters and digits with no "0x" prefix and one non-hex character raise `ValueError` |
| PyUuid.NonHexNotInt | BotPython.py:73 | such text is not a base-16 `int` literal |
| PyUuid.ZeroXPrefixAccepted | BotPython.py:73 | "0x" followed by 30 hex digits is also accepted, as the UUID with those digits |
| PyUuid.ZeroXInt | BotPython.py:73 | `int("0x" + h, 16)` is the value of `h` |
| Strings.Without | src/main/java/com/marsphobos/minecraftdclink/http/RegistrationClient.java:62 | no dropped character remains, and the result is no longer than the input |
| Strings.Strip | BotPython.py:67 | the result is the input with a run of stripped characters cut from its start and one from its end, the middle kept; it neither begins nor ends with a stripped character, and is shorter than the input whenever the input began or ended with one |
| Strings.StripNoop | BotPython.py:67 | text that neither begins nor ends with a stripped character is unchanged |
| Strings.ReplaceAllAbsent | BotPython.py:73 | a pattern one of whose characters never occurs is never replaced |
| Strings.ReplaceCharAppend | src/main/java/com/marsphobos/minecraftdclink/http/RegistrationClient.java:188 | replacing a one-character pattern distributes over concatenation |
| Strings.WithoutAppend | src/main/java/com/marsphobos/minecraftdclink/http/RegistrationClient.java:62 | removing white space distributes over concatenation |
| Strings.WithoutNoop | src/main/java/com/marsphobos/minecraftdclink/http/RegistrationClient.java:62 | a string with no white space is unchanged by the removal |
| Strings.OccursCount | src/main/java/com/marsphobos/minecraftdclink/http/RegistrationClient.java:63 | a string contains at least as many of each character as any substring of it |
| JsonText.ReadIntToString | src/main/java/com/marsphobos/minecraftdclink/http/RegistrationClient.java:125 | the decimal text of a number, followed by a non-digit, reads back as that number |
| JsonText.ReadString | src/main/java/com/marsphobos/minecraftdclink/http/RegistrationClient.java:88 | the body of a JSON string as section 7 of RFC 8259 defines it: text starting with a raw control character is invalid, and a closing quote must come before the end |
| JsonText.Unescape | src/main/java/com/marsphobos/minecraftdclink/http/RegistrationClient.java:88 | exactly the eight characters `" \ / b f n r t` are one-letter escapes, and the first three stand for themselves |
| Http.NormalizeBaseUrl | src/main/java/com/marsphobos/minecraftdclink/http/RegistrationClient.java:34 | exactly one trailing '/' is dropped when there is one; otherwise the URL is unchanged |
| Http.ApiKeyHeader | src/main/java/com/marsphobos/minecraftdclink/http/RegistrationClient.java:48-50 | there is an `X-API-Key` header, carrying the key, iff the key is present and not blank |
| Http.Target | src/main/java/com/marsphobos/minecraftdclink/http/RegistrationClient.java:29-43 | there is a URI iff the base URL is present and not blank and `new URI` accepts the normalised URI; it is the normalised base followed by the path |
| Http.BuildRequest | src/main/java/com/marsphobos/minecraftdclink/http/RegistrationClient.java:45-50 | no request without a target; an `IllegalArgumentException` iff there is a target and the builder refuses its scheme or host, the timeout is 0 or less, or the key header's value has a character the JDK refuses; otherwise a GET, or a POST of the payload with the JSON content type first, to the target with the key header last |
| Http.IsRegistered | src/main/java/com/marsphobos/minecraftdclink/http/RegistrationClient.java:28-69 | throws iff building the GET of `/v1/registration/<canonical uuid>` throws; otherwise true iff the request was sent and the reply was a 200 whose body, with `\s` removed, contains `"registered":true` |
| Http.EscapeJsonPerChar | src/main/java/com/marsphobos/minecraftdclink/http/RegistrationClient.java:184-189 | the two replace passes escape each character on its own: a backslash doubled, a quote prefixed; no character is escaped twice |
| Http.EscapeJsonLength | src/main/java/com/marsphobos/minecraftdclink/http/RegistrationClient.java:188 | the escaped length is the input length plus the number of backslashes plus the number of quotes |
| Http.EscapeCharsLength | src/main/java/com/marsphobos/minecraftdclink/http/RegistrationClient.java:188 | the same count for the per-character escape |
| Http.EscapeJsonReadBack | src/main/java/com/marsphobos/minecraftdclink/http/RegistrationClient.java:184-189 | an escaped string without control characters, closed by a quote, is read by an RFC 8259 string reader as the original text, and the reader stops right after that quote |
| Http.EscapeCharsReadBack | src/main/java/com/marsphobos/minecraftdclink/http/RegistrationClient.java:184-189 | the same read-back for the per-character escape |
| Http.EscapeJsonControlRejected | src/main/java/com/marsphobos/minecraftdclink/http/RegistrationClient.java:184-189 | a string with a control character is escaped into text no JSON string reader accepts, since the escape leaves the control character raw |
| Http.EscapeCharsControlRejected | src/main/java/com/marsphobos/minecraftdclink/http/RegistrationClient.java:184-189 | the same rejection for the per-character escape |
| Http.PlayerEventPayload | src/main/java/com/marsphobos/minecraftdclink/http/RegistrationClient.java:88 | the payload's length is that of the fixed parts, the 36-character UUID, the escaped name and the event type |
| Http.PlayerEventNameReadBack | src/main/java/com/marsphobos/minecraftdclink/http/RegistrationClient.java:88 | the payload begins `{"uuid":"<canonical uuid>","name":"`; from there it reads back as the player's exact name followed by the event field when the name has no control character, and is invalid JSON when it has one |
| Http.PlayerEventRequest | src/main/java/com/marsphobos/minecraftdclink/http/RegistrationClient.java:71-95 | none without a target; throws iff the builder throws; otherwise a POST to `/v1/mc-event` carrying the event payload, the JSON content type and the key header |
| Http.StatusPayloadReadBack | src/main/java/com/marsphobos/minecraftdclink/http/RegistrationClient.java:125 | `{"day":<d>,"time":<t>}` reads back both numbers unchanged, each in its field |
| Http.StatusRequest | src/main/java/com/marsphobos/minecraftdclink/http/RegistrationClient.java:108-132 | none without a target; throws iff the builder throws; otherwise a POST to `/v1/server-status` carrying the status payload, the JSON content type and the key header |
| Http.SkipSpaces | src/main/java/com/marsphobos/minecraftdclink/http/RegistrationClient.java:195-196 | `\s*` consumes exactly the maximal run of regex white space |
| Http.QuoteAfter | src/main/java/com/marsphobos/minecraftdclink/http/RegistrationClient.java:195 | the lazy `(.*?)"` ends at the first quote, and fails if a line terminator or the end comes first |
| Http.QuoteAfterFirst | src/main/java/com/marsphobos/minecraftdclink/http/RegistrationClient.java:195 | that first quote is the one the group ends at |
| Http.FirstWhere | src/main/java/com/marsphobos/minecraftdclink/http/RegistrationClient.java:197 | the leftmost position satisfying the test, or none |
| Http.FirstMatch | src/main/java/com/marsphobos/minecraftdclink/http/RegistrationClient.java:197 | `Matcher.find()` gives the leftmost position where the pattern matches, or none when it matches nowhere |
| Http.ColorOf | src/main/java/com/marsphobos/minecraftdclink/http/RegistrationClient.java:204-210 | 0 without a colour match; otherwise the first match's digits as an `int`, or 0 when they overflow |
| Http.ParseRoleInfo | src/main/java/com/marsphobos/minecraftdclink/http/RegistrationClient.java:191-212 | none for a missing body or no role match; otherwise the first role match decides: none when its capture is blank, else that role with the colour of `ColorOf` |
| Http.RoleReplyReadBack | src/main/java/com/marsphobos/minecraftdclink/http/RegistrationClient.java:191-212 | a reply `{"color":<c>,"role":"<name>"}` is read as exactly that role and colour, for every non-blank single-line name without quotes and every `int` colour |
| Http.ColorFieldFirst | src/main/java/com/marsphobos/minecraftdclink/http/RegistrationClient.java:196 | in such a reply, the colour pattern first matches at the colour field and captures its digits |
| Http.ColorMatchesAt | src/main/java/com/marsphobos/minecraftdclink/http/RegistrationClient.java:196 | `"color":<digits>` followed by a non-digit is a match that captures the digits |
| Http.RoleFieldAfterColor | src/main/java/com/marsphobos/minecraftdclink/http/RegistrationClient.java:195-200 | in such a reply, the role pattern first matches at the role field and captures the name |
| Http.RoleMatchesAt | src/main/java/com/marsphobos/minecraftdclink/http/RegistrationClient.java:195 | `"role":"<name>"` is a match that captures the name |
| Http.FirstMatchAt | src/main/java/com/marsphobos/minecraftdclink/http/RegistrationClient.java:197 | a match with no match before it is the one `find()` returns |
| Http.GetRoleInfo | src/main/java/com/marsphobos/minecraftdclink/http/RegistrationClient.java:146-182 | throws iff building the GET of `/v1/role/<canonical uuid>` throws; none without a target, on a failed send or on a non-200 status; otherwise the parsed body of the reply |
| Config.ParseIntOr | src/main/java/com/marsphobos/minecraftdclink/config/FileConfig.java:63-72 | missing, blank or unparsable text gives the fallback; otherwise the result is `Integer.parseInt` of the trimmed text |
| Config.ParseIntOrToString | src/main/java/com/marsphobos/minecraftdclink/config/FileConfig.java:49-52 | a written `Integer.toString(v)` reloads as `v`, whatever the fallback |
| Config.Resolve | src/main/java/com/marsphobos/minecraftdclink/config/FileConfig.java:39-45 | a string setting takes the file value whenever its key is present, even an empty one; an integer setting takes the `int` its present, non-blank value holds once trimmed, and is otherwise kept |
| Config.WriteBack | src/main/java/com/marsphobos/minecraftdclink/config/FileConfig.java:47-53 | all seven keys are set to the resolved values (integers as `Integer.toString`); every other key is kept |
| Config.ResolveWritten | src/main/java/com/marsphobos/minecraftdclink/config/FileConfig.java:39-53 | loading a written-back file gives exactly the settings that were written, whatever the settings were before |
| Config.WriteBackTwice | src/main/java/com/marsphobos/minecraftdclink/config/FileConfig.java:47-53 | writing the same settings back twice gives the same file |
| Config.LoadIdempotent | src/main/java/com/marsphobos/minecraftdclink/config/FileConfig.java:25-61 | a second load of the written file changes neither the settings nor the file |
| Config.ResolveEmpty | src/main/java/com/marsphobos/minecraftdclink/config/FileConfig.java:33-45 | with no file, the settings stay as they are |
| Config.FileConfig.constructor | src/main/java/com/marsphobos/minecraftdclink/config/FileConfig.java:14-20 | the settings start at the seven defaults |
| Config.FileConfig.Load | src/main/java/com/marsphobos/minecraftdclink/config/FileConfig.java:25-61 | an `IOException` before reading leaves the settings unchanged and stores nothing; a file `Properties.load` rejects (a `\u` without four hex digits) throws out of `load`, uncaught, with the settings unchanged and nothing stored; otherwise the settings become `Resolve` of the file (empty when missing), and the written-back map is stored when the file is writable |
| Roles.RoleStyle | PluginJava.java:95-98 | coloured, with the role colour, iff the colour is not 0 |
| Roles.TeamName | PluginJava.java:88 | starts with `dclink_` and continues after it |
| Roles.TeamNameShared | PluginJava.java:88-92 | two roles get the same team iff their names have the same `String.hashCode` |
| Roles.TeamNameCollision | PluginJava.java:88 | the distinct role names "Aa" and "BB" share a team |
| Roles.HashCodeTwoAscii | PluginJava.java:88 | the hash of two ASCII characters is `31*a + b` |
| Roles.Scoreboard.constructor | PluginJava.java:76 | no teams and no memberships |
| Roles.Scoreboard.RemovePlayerFromTeam | PluginJava.java:79 | only that player's membership is removed |
| Roles.Scoreboard.AddPlayerTeam | PluginJava.java:91 | a new team with an empty prefix is added; existing teams are unchanged |
| Roles.Scoreboard.SetPlayerPrefix | PluginJava.java:99 | only that team's prefix changes |
| Roles.Scoreboard.LeaveRoleTeamOf | PluginJava.java:77-80 | memberships become `LeaveRoleTeam` of the old ones |
| Roles.Scoreboard.JoinTeamWithPrefix | PluginJava.java:88-101 | the team exists with the prefix (it is created only when missing), and the player is on it; nothing else changes |
| Roles.Scoreboard.AddPlayerToTeam | PluginJava.java:101 | the player is on that team (leaving any other); other memberships are unchanged |
| Roles.LeaveRoleTeam | PluginJava.java:77-80 | the player leaves their team exactly when its name starts with `dclink_`; other players' memberships are unchanged |
| Roles.RoleManager.constructor | PluginJava.java:23-30 | an empty role cache and no server |
| Roles.RoleManager.SetServer | PluginJava.java:32-34 | the server presence becomes the given value |
| Roles.RoleManager.PrefixComponent | PluginJava.java:47-57 | none iff there is no cached role or the role is blank; otherwise `[role] `, coloured iff the colour is not 0 |
| Roles.RoleManager.NameStyle | PluginJava.java:59-65 | coloured with the role colour iff a role is cached and its colour is not 0 |
| Roles.RoleManager.ScheduleUpdate | PluginJava.java:36-45 | a role lookup is queued for the player iff there is a server |
| Roles.RoleManager.ApplyRole | PluginJava.java:67-102 | without a server or for an offline player: nothing changes. The player first leaves any `dclink_` team. No role: the cache entry is removed and no team is joined. A role: the cache maps the player to it, only their entry changing; the team named from the role is created if missing, gets the `[role] ` prefix (the same one the chat uses), and the player joins it |
| Mod.SplitDayTime | src/main/java/com/marsphobos/minecraftdclink/MinecraftDCLink.java:244-246 | `day*24000 + timeOfDay == dayTime`; for a non-negative `dayTime`, `0 <= timeOfDay < 24000`; for a negative one, Java's truncation gives `-24000 < timeOfDay <= 0` |
| Mod.PlainTextFour | src/main/java/com/marsphobos/minecraftdclink/MinecraftDCLink.java:224-227 | the text of four appended components is their texts concatenated |
| Mod.MinecraftDCLink.constructor | src/main/java/com/marsphobos/minecraftdclink/MinecraftDCLink.java:48-75 | fresh managers: nothing frozen, nothing cached, no server, default settings; the freeze gate's unfreeze hook is present |
| Mod.MinecraftDCLink.OnServerStarted | src/main/java/com/marsphobos/minecraftdclink/MinecraftDCLink.java:77-83 | the server is set in the mod and the settings are loaded as `FileConfig.Load` says; the managers get the server iff `load` does not throw, so after a malformed file the gate never schedules a check |
| Mod.MinecraftDCLink.OnPlayerJoin | src/main/java/com/marsphobos/minecraftdclink/MinecraftDCLink.java:90-99 | the player is frozen at once. Queued: a registration check with immediate message (with a server), a role lookup (with a server) and a "join" event |
| Mod.MinecraftDCLink.OnPlayerQuit | src/main/java/com/marsphobos/minecraftdclink/MinecraftDCLink.java:101-109 | the player's entry is removed and a "leave" event is queued |
| Mod.MinecraftDCLink.OnPlayerTick | src/main/java/com/marsphobos/minecraftdclink/MinecraftDCLink.java:111-116 | the freeze gate's tick with the configured intervals and instruction |
| Mod.MinecraftDCLink.CompleteRegistrationCheck | src/main/java/com/marsphobos/minecraftdclink/freeze/FreezeManager.java:126-143 | when `isRegistered` throws, the callback never runs: nothing changes and nothing is sent, so a frozen player stays frozen. Otherwise an offline player changes nothing; a registered online player is unfrozen with the green text and, through `roleManager::scheduleUpdate`, a role lookup; a not-registered online player keeps their entry or is frozen afresh at their place, and gets the instruction iff the check asked for an immediate message |
| Mod.MinecraftDCLink.ApplyCheckResult | src/main/java/com/marsphobos/minecraftdclink/MinecraftDCLink.java:57 | the check's answer applied to the gate with the exact new entries of `CompleteCheck`; an unfreeze queues a role lookup through the hook iff there is a server |
| Mod.MinecraftDCLink.CompleteRoleLookup | PluginJava.java:41-43 | when `getRoleInfo` throws, without a server, or for an offline player, neither the cache nor the scoreboard changes; otherwise the looked-up role replaces the cached one, or removes it when the lookup gave none |
| Mod.MinecraftDCLink.Canceled | src/main/java/com/marsphobos/minecraftdclink/MinecraftDCLink.java:143-204 | each interaction, block-break and block-place event is cancelled iff there is an acting player and that player is frozen |
| Mod.MinecraftDCLink.DamageTaken | src/main/java/com/marsphobos/minecraftdclink/MinecraftDCLink.java:206-213 | a frozen player takes 0 damage; any other damage is unchanged |
| Mod.MinecraftDCLink.OnChatMessage | src/main/java/com/marsphobos/minecraftdclink/MinecraftDCLink.java:215-232 | untouched iff the player has no prefix; otherwise cancelled and rebroadcast (iff there is a server) as the four components `<`, the role prefix `[role] ` as `getPrefixComponent` builds it (coloured iff the colour is not 0), the name in the role's style, and `> text` |
| Mod.MinecraftDCLink.OnServerTick | src/main/java/com/marsphobos/minecraftdclink/MinecraftDCLink.java:234-248 | nothing without a server. A status of the split day time is queued iff `now - lastStatus >= statusInterval*1000`, and only then `lastStatus` becomes `now` |
| Bot.RowByUuid | BotPython.py:78-81 | the first row with that `minecraft_uuid`, or none when no row has it |
| Bot.RowByDiscord | BotPython.py:199-202 | the first row with that `discord_id`, or none when no row has it |
| Bot.Lookup | BotPython.py:77-85 | the answer is "registered" or "not registered"; "registered" carries the non-zero Discord id of a row for the key |
| Bot.LookupRegisteredIff | BotPython.py:83-85 | in a table that keeps its constraints, the answer is "registered" with `discord_id` iff the key's row has a truthy `discord_id` |
| Bot.HandleRegistration | BotPython.py:65-85 | a configured key that differs from the header gives 401 `unauthorized` (checked first; an empty configured key disables it); an invalid UUID gives 400 `invalid_uuid`; otherwise the lookup answer with status 200 |
| Bot.ResolveUuid | BotPython.py:215-225 | not found iff the status is not 200, there is no id, or the id is not 32 characters; otherwise `uuid.UUID(id)` decides between invalid and resolved |
| Bot.ResolveHexId | BotPython.py:222-225 | a 32-hex-digit id resolves to the hyphenated lowercase form of the same digits |
| Bot.ResolveNonHexId | BotPython.py:223-225 | a 32-character alphanumeric id with a non-hex character, and no "0x" prefix, is an invalid format |
| Bot.UpsertRows | BotPython.py:151-158 | a new key appends the row; an existing key's row is replaced in place |
| Bot.UsersTable.constructor | BotPython.py:34-41 | an empty table that keeps its constraints |
| Bot.UsersTable.AnyOf | BotPython.py:138-141 | true iff some row has the Discord id or the Minecraft UUID |
| Bot.UsersTable.Upsert | BotPython.py:151-158 | the row is stored as PostgreSQL assigns it to its `VARCHAR` columns (refused with U+0000 or with non-space characters past the width; cut to the width when only spaces lie past it); succeeds iff that row exists and the result keeps the table's constraints, and then the table becomes the upsert of that row; on failure it is unchanged |
| Bot.LinkMinecraft | BotPython.py:108-189 | the replies in the source's order: name not found, invalid UUID, no database, registration full (at 20 or more users), already registered (either id present). A resolved name with a pool, fewer than 20 rows and neither id present is linked (the reply carrying the full name) when `VARCHAR(255)` accepts the name, i.e. it holds no U+0000 and everything past its 255th character is spaces, and gives `RegistrationFailed` otherwise; a link appends exactly one row `(canonical uuid, user, name as stored)`; the table never grows past 20 and is unchanged unless linked |
| Bot.CheckLink | BotPython.py:192-213 | a database error iff there is no pool; linked iff some row has the caller's Discord id, reporting a UUID of such a row |
| Bot.LookupAppended | BotPython.py:77-85 | after a sign-up appended a row, the endpoint answers "registered" with that Discord id |
| Bot.CheckLinkAppended | BotPython.py:199-202 | after a sign-up appended a row, `/checklink` by that user finds exactly that row |
| Bot.AppendedRowBounds | BotPython.py:35-40 | a row the table accepted fits the column widths: the name in 255 characters, the UUID in 36 |
| Bot.VarcharAssign | BotPython.py:35-40 | text is accepted by a `VARCHAR(n)` column iff it holds no U+0000 and has at most n characters or only spaces past the nth; it is then stored as its prefix of at most n characters |
| Bot.StoredRow | BotPython.py:35-40 | the row exists iff both text columns accept their values, and then carries the assigned texts and the same Discord id |
| Bot.CanonicalStored | BotPython.py:151-158 | the canonical UUID text the bot binds is stored unchanged in `minecraft_uuid` |
| Bot.AppendFreshRow | BotPython.py:35-40 | a row whose UUID and Discord id are both new keeps the table's constraints iff its UUID fits in 36 characters and its name in 255 |
| Bot.AppendKeepsCap | BotPython.py:126-135 | an upsert into a table below the cap keeps it at or below the cap |
| Interop.ProvidedKey | BotPython.py:67 | the bot sees a key iff the mod sent the header, and then sees the mod's key without the spaces and tabs around it (section 5.5 of RFC 9110) |
| Interop.SharedKeyAccepted | BotPython.py:66-69 | with the same key configured on both sides, the bot accepts the mod iff the key is empty, or is not blank and neither begins nor ends with a space or a tab |
| Interop.WithoutSpaceBetween | src/main/java/com/marsphobos/minecraftdclink/http/RegistrationClient.java:62 | removing white space closes up a single space between two space-free pieces |
| Interop.RegisteredAnswerSpaces | src/main/java/com/marsphobos/minecraftdclink/http/RegistrationClient.java:62 | the bot's `{"registered": true, ...}` becomes `{"registered":true,...` once white space is removed |
| Interop.RegisteredHeadOccurs | src/main/java/com/marsphobos/minecraftdclink/http/RegistrationClient.java:63 | `"registered":true` occurs right after the opening brace |
| Interop.RegisteredAnswerRead | src/main/java/com/marsphobos/minecraftdclink/http/RegistrationClient.java:62-63 | every "registered" answer of the bot passes the mod's body test |
| Interop.OneTNotRegistered | src/main/java/com/marsphobos/minecraftdclink/http/RegistrationClient.java:63 | text with a single 't' cannot contain `"registered":true`, which has two |
| Interop.NotRegisteredAnswerRead | src/main/java/com/marsphobos/minecraftdclink/http/RegistrationClient.java:62-63 | every "not registered" answer of the bot (`{"registered": false}`) fails the mod's body test |
| Interop.NotRegisteredSpaceless | src/main/java/com/marsphobos/minecraftdclink/http/RegistrationClient.java:62 | `{"registered": false}` loses exactly its one space |
| Interop.ModReadsBotAnswer | src/main/java/com/marsphobos/minecraftdclink/http/RegistrationClient.java:28-69 | when the mod's check request is built and sent, `isRegistered` returns, and returns true iff the bot accepted the key the bot saw and the player's row has a truthy Discord id |
| Interop.LinkedPlayerAdmitted | BotPython.py:151-158 | a player whose account `/register` appended is admitted by the mod once its check request is sent, given agreeing keys and a non-zero Discord id |

## Left out

- Network and database I/O. HTTP sends, how long the connect and request timeouts wait, interrupt handling, the aiohttp server, the asyncpg pool and the Discord client are all outside the model. The HTTP reply, the database rows and the Mojang reply are inputs.
- Concurrency. The executor, `server.execute`, `ConcurrentHashMap` and asyncio are not modelled. Each callback is a sequential step, and `onServerStopping` (executor shutdown) is not modelled.
- Holding a frozen player in place (`teleportPlayer`, `TELEPORT_EPSILON_SQR`, `setDeltaMovement`, `fallDistance`). This is floating-point movement code; positions are kept as opaque values.
- The in-game `/register` command (src/main/java/com/marsphobos/minecraftdclink/MinecraftDCLink.java:118-141). It only shows the player their UUID and the instruction text.
- Minecraft internals. Text components are modelled as text plus an optional colour, and the scoreboard as teams with prefixes plus a player-to-team map. The online player list is an input map.
- The properties file's text syntax. The file is a key-to-value map, or `Malformed` when `Properties.load` would reject it; which texts those are is not modelled.
- `src/main/java/com/marsphobos/minecraftdclink/config/ModConfigs.java` is not part of this model. It is a declarative config spec with no logic, and the mod reads its settings through `FileConfig`.
- Non-ASCII decimal digits. `Integer.parseInt` and Python's `int()` also accept Unicode digits; the model accepts ASCII digits only.
- Logging, Discord's ephemeral flags, the nickname change after a successful `/register`, and the `registration_date` column.
- A database error inside `handle_registration` (an aiohttp 500) is not modelled.
- Bot.LinkMinecraft: a refused upsert yields a fixed `RegistrationFailed` reply; the text of `str(db_error)` is not modelled.
- Mod.MinecraftDCLink.CompleteRoleLookup: when a role is applied, its contract states the new role cache; the scoreboard effect is stated by `Roles.RoleManager.ApplyRole`, which it calls.
- The request timeout matters only through its sign: `Duration.ofSeconds(api.timeoutSeconds)` of 0 or less makes the request builder throw. The client's connect timeout is built from the default of 5 seconds, before the settings are loaded, and is not modelled.
- Http.Target: which strings `new URI(...)` parses, and which parsed URIs have an http or https scheme and a host, is the parameter `parseUri`; URI syntax (RFC 3986) is not modelled.
- JsonText.ReadString: a `\u` escape of a surrogate half is rejected rather than combined with its partner into one character above U+FFFF. No payload in the model contains one.
- Interop.ProvidedKey: how characters above U+007F in the key travel (the JDK's encoding of the header and aiohttp's decoding of it) is not modelled. The key is taken to arrive as sent, less the spaces and tabs around it.
