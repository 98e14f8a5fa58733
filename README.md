# Guild state of the Discord bot, modelled in Dafny

This project models what the bot's event handlers do to its SQLite database
`discord_bot_pro.db`, with the Discord and Flask plumbing taken away. Three
tables matter:

- `users`, keyed by (user id, guild id): xp, level, coins, last_message,
  warnings, reputation, created_at;
- `guilds`, keyed by guild id: name, prefix, welcome and log settings, four
  feature toggles, created_at, updated_at;
- `tickets`, an append-only table with an AUTOINCREMENT id.

There are two near-duplicate programs over the same tables. As it stands,
`bot.py` has raw line breaks inside ordinary string literals (for example at
bot.py:280-285 and bot.py:536-549) and would not compile; `main.py` is the
version that closes them, and the model reads the `bot.py` handlers as if
those literals were closed. `bot.py`
(module `Bot`) awards 15 to 25 XP per message and then raises the level by one
step. `main.py` (module `MainApp`) awards 10 to 25 XP and has no level step.
Module `Store` holds what both share: the tables and their declared column
defaults, the `Database` object, the two INSERT OR REPLACE rows, the prefix
query `get_prefix` (the same code in both files), and Python's
`timedelta.seconds`.

Each handler that writes is a module-level method that takes the database as a
parameter `db: Store.Database` and declares `modifies db`, as the Python event
handlers are module-level functions over the global `db`. Its postcondition gives the whole new state as a pure function of the old
state. For example, `Bot.OnMessage` ensures
`db.users == Bot.UsersAfterMessage(old(db.users), ...)`. The lemmas then state
what the source promises about those functions.

Two behaviours of the code shape most of the properties:

1. **Every write is SQLite `INSERT OR REPLACE`.** On a conflict it deletes the
   old row and inserts a new one, so every column the statement does not list
   takes its declared default. An XP award therefore resets level, coins,
   warnings and reputation to 1, 100, 0 and 0. It can even lower a level
   (`Bot.AwardCanLowerLevel`). A guild re-join resets the prefix to `!` and
   every setting to its default.
2. **The cooldown compares `timedelta.seconds`.** That value is the seconds
   component of the elapsed time, not the total. A message one day and 30
   seconds after the last award is held back (`Bot.NextDayScenario`). When the
   clock has gone back, a message sent up to 23 h 59 min before the stored
   instant passes, and one sent between 23 h 59 min and 24 h before it is held
   back.

Timestamps are integers that count microseconds, the precision of the ISO
strings the programs store. `Store.TimedeltaSeconds(e)` is `(e / 10^6) % 86400`.
Dafny's `/` and `%` with a positive divisor floor, as Python's do, so this
equals `timedelta.seconds` for negative differences too.

A `last_message` value is one of three cases:

- `Unset`: NULL or the empty string. The cooldown check treats both as "no timestamp".
- `At(t)`: a timestamp that `datetime.fromisoformat` reads.
- `Unreadable`: a value whose parsing, or subtraction from `utcnow()`, raises.

`bot.py` lets that exception escape, so nothing is written (outcome `Raised`).
`main.py` catches it and awards XP.

`bot.py` announces a level-up in the message's channel before it commits. Where
the bot may not post, that send raises, the commit is never reached, and the
REPLACE and the level update are discarded. The `canPost` parameter of
`Bot.OnMessage` decides this send; such a message also has outcome `Raised`.
A member who talks only in such channels never reaches 155 xp
(`Bot.SilentChannelCapsXp`).

Several behaviours of the code are easy to misread; the model follows the code:

- The cooldown compares `.seconds`, not the total elapsed time.
- There is no multi-level jump. The REPLACE resets the level to 1, and the
  level check then compares the xp once with the threshold of that level. So
  the level after an award is 2 if xp is at least 155, and 1 otherwise.
- The guild upsert never writes `updated_at`, and the award never reads
  `level_system_enabled`: XP is awarded with leveling disabled too.
- The ticket open is not atomic. The code checks, awaits the channel
  creation, then inserts. The model runs handlers one at a time and states
  the uniqueness invariant for sequential calls only.

## Model

| member | source | states |
|---|---|---|
| `Store.Database.constructor` | bot.py:58-162 | a fresh database has empty `users`, `guilds` and `tickets` and a zero ticket sequence, and satisfies the AUTOINCREMENT invariant |
| `Store.TimedeltaSeconds` | bot.py:633 | the `.seconds` of an elapsed time always lies in 0..86399 |
| `Store.TimedeltaSecondsBelow` | bot.py:633 | `.seconds` is below n exactly when the elapsed time lies in the first n seconds of some whole day (both directions, any sign) |
| `Store.PrefixLookup` | bot.py:217-229 | `get_prefix` gives "!" for a direct message and for a guild without a row, the stored prefix otherwise, and depends only on that guild's row; main.py:142-151 is the same query |
| `Store.GuildJoinResetsSettings` | main.py:44-61 | after the guild REPLACE, that guild has prefix "!", all four toggles 1, NULL welcome, goodbye, auto-role, log and updated_at fields, the given name and created_at, and every other guild row is unchanged |
| `Store.USER_DEFAULTS` | bot.py:84-96 | the `users` row SQLite builds from the declared defaults: xp 0, level 1, coins 100, NULL last_message, warnings 0, reputation 0, NULL created_at |
| `Store.GUILD_DEFAULTS` | bot.py:64-80 | the `guilds` row from the declared defaults: prefix "!", the four toggles 1, every other column NULL |
| `Store.GetPrefix` | bot.py:217-229 | the prefix query: "!" without a guild or without a row, else the stored prefix (main.py:142-151 is the same code) |
| `Store.XpReplaceRow` | bot.py:640-649 | the row the XP REPLACE writes: old xp (0 without a row) plus the gain, last_message now, created_at kept when not NULL else now, every other column its default (main.py:368-371 is the same statement) |
| `Store.JoinedGuild` | bot.py:521 | the row the guild REPLACE writes: the name and created_at given, every other column its default (main.py:341 is the same statement) |
| `Bot.RequiredXp` | bot.py:658 | the XP a member at a level needs for the next one: 5·level² + 50·level + 100 |
| `Bot.LevelsUp` | bot.py:660 | the level check fires: the xp read back reaches the threshold of the level read back |
| `Bot.LevelOneThreshold` | bot.py:658 | the required-XP formula at level 1, the level after every REPLACE, is 155 |
| `Bot.CooldownGate` | bot.py:630-634 | the cooldown decision: pass without a row or a stored instant, hold back when `.seconds` since the stored instant is below 60, raise on an unreadable value |
| `Bot.LevelChecked` | bot.py:652-663 | the level check: read the row back and raise its level by one when its xp reaches the threshold of its level |
| `Bot.CooldownWindow` | bot.py:625-636 | a message is held back iff the row has a readable last_message and the time since it lies in the first 60 s of some whole day; it raises iff last_message is unreadable; no row or NULL always passes |
| `Bot.AwardEffect` | bot.py:636-663 | an award sets xp to old xp (or 0) plus the gain, last_message to now, and keeps created_at (or sets it to now); it resets coins, warnings and reputation to 100, 0, 0, and sets the level to 2 iff xp is at least 155, else 1 |
| `Bot.AwardCanLowerLevel` | bot.py:640-663 | some row that passes the cooldown leaves the award with a lower level and fewer coins than it had |
| `Bot.AwardedRow` | bot.py:640-663 | the sender's row after a committed award: the REPLACE row, then the level check |
| `Bot.UsersAfterMessage` | bot.py:617-674 | the `users` table after `on_message`: unchanged for a bot, a direct message, a held-back or raising message, or a level-up whose announcement cannot be sent; otherwise the sender's row becomes the awarded row |
| `Bot.MessageFrame` | bot.py:617-674 | a bot message, a direct message, a held-back message, and a level-up whose announcement cannot be sent write nothing; otherwise only the sender's row changes, to the awarded row |
| `Bot.OnMessage` | bot.py:615-677 | the new `users` table is `UsersAfterMessage` of the old one; the guilds and tickets are unchanged; the outcome is Ignored, OnCooldown or Raised as the gate decides, Raised also when the level-up announcement cannot be sent, and otherwise Awarded with a level-up iff the xp after the REPLACE reaches the level-1 threshold |
| `Bot.SilentChannelCapsXp` | bot.py:660-674 | over any messages in channels where the bot cannot post, a member below 155 xp (or without a row) stays below 155 xp |
| `Bot.SilentLevelUpScenario` | bot.py:660-674 | a member at 140 xp who draws 15 keeps the old row where the announcement cannot be sent, and reaches level 2 where it can |
| `Bot.SendAll` | bot.py:617-674 | the `users` table after one sender's messages are handled one after another |
| `Bot.SpacedMessagesAccumulate` | bot.py:625-674 | for a run of messages in channels where the bot can post, whose first message passes the cooldown of the stored row, each at least a minute of `.seconds` after the previous one, final xp = initial xp + sum of gains, last_message is the last message's time, the level is 2 or 1 by the 155 threshold, and coins are 100 |
| `Bot.ThreeMessagesScenario` | bot.py:630-649 | messages at 0 s, 30 s and 90 s with gain 20 each leave a new member with 40 xp at level 1 (the 30 s one is dropped) |
| `Bot.NextDayScenario` | bot.py:633 | a second message one day and 30 s after the first is held back, so xp stays at the first gain |
| `Bot.UsersAfterMemberJoin` | bot.py:559-572 | the `users` table after `on_member_join`: unchanged for a bot, else that member's row of that guild becomes the joined-member row |
| `Bot.OnMemberJoin` | bot.py:557-573 | the new `users` table is `UsersAfterMemberJoin` of the old one; guilds and tickets are unchanged |
| `Bot.MemberJoinEffect` | bot.py:559-573 | a bot joining changes nothing; a human joining replaces only that (user, guild) row, with xp 0, level 1, coins 100, NULL last_message, warnings 0, reputation 0, created_at now |
| `Bot.JoinedMember` | bot.py:570 | the row the member REPLACE writes: created_at now, every other column its default |
| `Bot.OnGuildJoin` | bot.py:514-524 | the guild row becomes the REPLACE row for (id, name, now); users and tickets are unchanged |
| `Bot.ActiveUsers` | bot.py:393-396 | the "Active Users" figure: the number of `users` rows of the guild |
| `Bot.ActiveUsersAfterWrite` | bot.py:393-396 | writing one `users` row raises the active-user count of that guild by one when the key is new, and leaves every guild's count unchanged otherwise |
| `Bot.MemberJoinCount` | bot.py:569-572 | a human's first join to a guild raises that guild's active-user count by one; a re-join, a bot, or a join to another guild leaves the count unchanged |
| `Bot.CreateTicket` | bot.py:422-455 | with an open ticket for (guild, user) it refuses and changes nothing; otherwise it appends exactly one row (status 'open', NULL closed_at, the given channel and category, id = sequence + 1); it keeps the id invariant and the one-open-ticket invariant; its new table and sequence are those of `Bot.Serve` for the same request |
| `Bot.HasOpenTicket` | bot.py:426-430 | the opener's query: some row of that guild and user has status 'open' |
| `Bot.NewTicket` | bot.py:452-453 | the row the ticket INSERT writes: the listed guild, user, channel, category and created_at, status 'open' by the declared default (bot.py:158), NULL closed_at, the next AUTOINCREMENT id |
| `Bot.Serve` | bot.py:424-455 | the tickets table and its sequence after one `create_ticket`: unchanged when the member has an open ticket, otherwise the new ticket appended with id = sequence + 1 |
| `Bot.ServeAll` | bot.py:424-455 | the tickets table and its sequence after requests handled one after another |
| `Bot.OpenKeepsInvariants` | bot.py:451-454 | appending the new ticket when none is open gives it an id above every earlier id, and keeps the AUTOINCREMENT ordering and the one-open-ticket invariant |
| `Bot.OpenTicketCountFinds` | bot.py:426-428 | the open-ticket query finds a row exactly when the member's open-ticket count is positive |
| `Bot.AtMostOneOpenTicket` | bot.py:424-432 | under the invariant every member has at most one open ticket per guild, and exactly one when the query finds one |
| `Bot.SequentialRequestsKeepInvariants` | bot.py:424-455 | any sequence of ticket requests handled one at a time keeps both invariants and only appends rows |
| `Bot.DoubleRequestScenario` | bot.py:424-455 | two requests from one member with no earlier ticket: the first opens ticket 1, the second is refused, and the member has exactly one open ticket |
| `MainApp.CanGainXp` | main.py:357-365 | the main.py cooldown decision: hold back only when a readable stored instant has a `.seconds` below 60 before now; no row, NULL, or a value whose parse fails passes |
| `MainApp.CooldownFallback` | main.py:354-365 | a message passes when there is no row, a NULL last_message, or an unreadable one (the except path); it is held back iff a readable instant lies within the first 60 s of some whole day before now |
| `MainApp.UsersAfterMessage` | main.py:347-373 | the `users` table after the main.py `on_message`: unchanged for a bot, a direct message or a held-back message; otherwise the sender's row becomes the REPLACE row |
| `MainApp.MessageEffect` | main.py:347-373 | bot, direct and held-back messages write nothing; a passing message changes only the sender's row, to old xp (or 0) plus the gain, last_message now, created_at kept or now, level 1, coins 100, warnings 0, reputation 0 |
| `MainApp.OnMessage` | main.py:346-374 | the new `users` table is `MainApp.UsersAfterMessage` of the old one, guilds and tickets are unchanged, and it reports an award iff a human guild message passed the cooldown |
| `MainApp.AgreesWithBot` | main.py:354-372 | on the same table and gain, in any channel, both programs hold back the same messages; where bot.py raises on an unreadable last_message or on a level-up announcement it cannot send, it writes nothing and main.py awards; otherwise both write the same rows except for the level |
| `MainApp.OnGuildJoin` | main.py:336-344 | the guild row becomes the REPLACE row for (id, name, now); users and tickets are unchanged |

## Left out

- Discord UI: the views, selects, buttons, modals and embeds. They only present data.
- Discord side effects: channel and category creation, message sends, role
  assignment, presence changes, `update_stats`, slash-command sync and
  extension loading. These are network calls. The ids of the channel and
  category that `create_ticket` obtains are parameters of `Bot.CreateTicket`.
  The only send that comes before a commit, the level-up announcement, is
  the `canPost` parameter of `Bot.OnMessage`.
- Bot.CreateTicket: assumes the category and channel creation succeed. If
  either raises, the handler leaves before the INSERT and the table is
  unchanged; the model does not have that path.
- Concurrency: the check-then-insert race across the awaits in `create_ticket`,
  and interleaving of handlers in general. The model runs handlers one at a time.
- Randomness: `random.randint` is the `gain` parameter, and a requires clause
  states its range.
- Clock: `datetime.utcnow` is the `now` parameter. The handlers read the clock
  up to three times; the model reads it once.
- ISO text: datetime text and its parsing become integer instants and the
  three-way `LastMessage` value.
- The reads that feed only messages: the settings read in `on_member_join`
  (welcome text formatting, auto-role) and the SELECT of xp and level in the
  main.py `on_message`.
- `process_commands` and command dispatch.
- Permission checks.
- Integer widths: SQLite INTEGER is 64 bits, and the model's integers are
  unbounded. No handler gets near the bound.
- `BotConfig` JSON loading and saving, `.env`, logging, the Flask dashboard and
  the thread start in main.py. These are file, HTTP and process plumbing.
- The tables that no handler of bot.py or main.py reads or writes: `mod_logs`,
  `custom_commands`, `shop_items`, `user_inventory`, `reaction_roles` and
  `music_queue`. main.py creates `tickets`, but none of its handlers touch it.
- `Models.py`: SQLAlchemy declarations that neither program uses.
- Neither program has a warning clear, a ticket close, a mod-log append, a
  level override or a status heartbeat that writes the database, so the
  model has none.
