/**
 * The SQLite database `discord_bot_pro.db` shared by both programs: the
 * `users`, `guilds` and `tickets` tables with their declared column defaults,
 * the two INSERT OR REPLACE statements both programs issue, the prefix query,
 * and Python's `timedelta.seconds`, which both cooldown checks rely on.
 *
 * Timestamps are integers counting microseconds (the precision of the ISO
 * strings the programs store). A column that may hold NULL is an `Option`.
 */
module Store {

  datatype Option<T> = None | Some(value: T)

  const MICROS_PER_SECOND: int := 1_000_000
  const SECONDS_PER_DAY: int := 86400
  const MICROS_PER_DAY: int := SECONDS_PER_DAY * MICROS_PER_SECOND

  /** Python's `timedelta.seconds` for a difference of two instants: the whole
      seconds of the difference reduced modulo one day (the days part is
      dropped, and a negative difference borrows a whole day). */
  function TimedeltaSeconds(elapsed: int): (s: int)
    ensures 0 <= s < SECONDS_PER_DAY
  {
    (elapsed / MICROS_PER_SECOND) % SECONDS_PER_DAY
  }

  /** The first instant of day `d` after the reference instant, used to state
      what `TimedeltaSeconds` means. */
  function DayStart(d: int): int {
    d * MICROS_PER_DAY
  }

  /** `TimedeltaSeconds(e) < n` holds exactly when `e` lies in the first `n`
      seconds of some whole day, counted from zero in either direction. */
  lemma {:induction false} TimedeltaSecondsBelow(elapsed: int, n: int)
    requires 0 < n <= SECONDS_PER_DAY
    ensures TimedeltaSeconds(elapsed) < n <==>
              exists d :: DayStart(d) <= elapsed < DayStart(d) + n * MICROS_PER_SECOND
  {
    var q := elapsed / MICROS_PER_SECOND;
    var d := q / SECONDS_PER_DAY;
    var s := q % SECONDS_PER_DAY;
    assert q == d * SECONDS_PER_DAY + s;
    assert DayStart(d) + s * MICROS_PER_SECOND <= elapsed < DayStart(d) + (s + 1) * MICROS_PER_SECOND;
    if TimedeltaSeconds(elapsed) < n {
      assert DayStart(d) <= elapsed < DayStart(d) + n * MICROS_PER_SECOND;
    } else {
      forall d' | DayStart(d') <= elapsed
        ensures elapsed >= DayStart(d') + n * MICROS_PER_SECOND
      {
        if d' <= d - 1 {
          assert DayStart(d') <= DayStart(d - 1);
          assert DayStart(d - 1) + MICROS_PER_DAY == DayStart(d);
        }
      }
    }
  }

  /** The `last_message` column as the cooldown checks see it: `Unset` when
      it is NULL or the empty string (both count as "no timestamp"),
      `At(t)` when `datetime.fromisoformat` reads a naive instant `t` from it,
      `Unreadable` when parsing it, or subtracting it from a naive instant,
      raises. */
  datatype LastMessage = Unset | At(time: int) | Unreadable

  /** A row of `users`, without its primary key (user_id, guild_id). */
  datatype UserRow = UserRow(
    xp: int,
    level: int,
    coins: int,
    lastMessage: LastMessage,
    warnings: int,
    reputation: int,
    createdAt: Option<int>)

  /** The primary key of `users`: (user_id, guild_id). */
  type UserKey = (int, int)

  /** A row of `guilds`, without its primary key id. The four toggles are
      SQLite integers, 1 for enabled. */
  datatype GuildRow = GuildRow(
    name: Option<string>,
    prefix: string,
    welcomeChannel: Option<int>,
    welcomeMessage: Option<string>,
    goodbyeMessage: Option<string>,
    autoRole: Option<int>,
    modLogChannel: Option<int>,
    levelSystemEnabled: int,
    economyEnabled: int,
    autoModEnabled: int,
    musicEnabled: int,
    createdAt: Option<int>,
    updatedAt: Option<int>)

  /** A row of `tickets`. */
  datatype TicketRow = TicketRow(
    id: int,
    guildId: int,
    userId: int,
    channelId: int,
    categoryId: int,
    status: string,
    createdAt: Option<int>,
    closedAt: Option<int>)

  const DEFAULT_PREFIX: string := "!"
  const OPEN: string := "open"

  /** The row SQLite builds for `users` when an INSERT lists no column: every
      column takes its declared default (NULL where none is declared). */
  const USER_DEFAULTS: UserRow :=
    UserRow(xp := 0, level := 1, coins := 100, lastMessage := Unset,
            warnings := 0, reputation := 0, createdAt := None)

  /** The same for `guilds`. */
  const GUILD_DEFAULTS: GuildRow :=
    GuildRow(name := None, prefix := DEFAULT_PREFIX, welcomeChannel := None,
             welcomeMessage := None, goodbyeMessage := None, autoRole := None,
             modLogChannel := None, levelSystemEnabled := 1, economyEnabled := 1,
             autoModEnabled := 1, musicEnabled := 1, createdAt := None, updatedAt := None)

  /** The row the guild join's REPLACE writes: it lists only id, name and
      created_at, and REPLACE deletes any old row, so every other column is
      its default. */
  function JoinedGuild(name: string, now: int): GuildRow {
    GUILD_DEFAULTS.(name := Some(name), createdAt := Some(now))
  }

  /** The row the XP award's REPLACE writes. It lists the key, xp,
      last_message and created_at: xp is the old xp
      (0 without a row) plus the gain, created_at the old one when not NULL
      (COALESCE) and otherwise `now`; every unlisted column is its default. */
  function XpReplaceRow(before: Option<UserRow>, gain: int, now: int): UserRow {
    var xp := if before.Some? then before.value.xp else 0;
    var created := if before.Some? && before.value.createdAt.Some? then before.value.createdAt else Some(now);
    USER_DEFAULTS.(xp := xp + gain, lastMessage := At(now), createdAt := created)
  }

  /** The row of `users` with that key, if any. */
  function Lookup(users: map<UserKey, UserRow>, key: UserKey): Option<UserRow> {
    if key in users then Some(users[key]) else None
  }

  /** The prefix `get_prefix` hands to `when_mentioned_or`: "!" in a direct
      message (no guild) or for a guild without a row, else the stored one. */
  function GetPrefix(guilds: map<int, GuildRow>, guild: Option<int>): string {
    if guild.None? || guild.value !in guilds then DEFAULT_PREFIX
    else guilds[guild.value].prefix
  }

  /** A direct message and a guild without a row get "!", a guild with a
      row gets its stored prefix, and the answer depends on that guild's row
      alone. */
  lemma PrefixLookup(guilds: map<int, GuildRow>, guildId: int, other: int, row: GuildRow)
    ensures GetPrefix(guilds, None) == "!"
    ensures guildId !in guilds ==> GetPrefix(guilds, Some(guildId)) == "!"
    ensures guildId in guilds ==> GetPrefix(guilds, Some(guildId)) == guilds[guildId].prefix
    ensures other != guildId ==> GetPrefix(guilds[other := row], Some(guildId)) == GetPrefix(guilds, Some(guildId))
  {
  }

  /** What the REPLACE at guild join does: whatever that guild's row held
      before, afterwards its prefix is "!", all four toggles are 1, the
      welcome, goodbye, auto-role and log settings and updated_at are NULL,
      and no other guild's row changes. */
  lemma GuildJoinResetsSettings(guilds: map<int, GuildRow>, guildId: int, name: string, now: int, other: int)
    ensures var after := guilds[guildId := JoinedGuild(name, now)];
      && GetPrefix(after, Some(guildId)) == DEFAULT_PREFIX
      && after[guildId].name == Some(name) && after[guildId].createdAt == Some(now)
      && after[guildId].levelSystemEnabled == 1 && after[guildId].economyEnabled == 1
      && after[guildId].autoModEnabled == 1 && after[guildId].musicEnabled == 1
      && after[guildId].welcomeChannel.None? && after[guildId].welcomeMessage.None?
      && after[guildId].goodbyeMessage.None? && after[guildId].autoRole.None?
      && after[guildId].modLogChannel.None? && after[guildId].updatedAt.None?
      && (other != guildId ==> (other in after <==> other in guilds) && (other in guilds ==> after[other] == guilds[other]))
  {
  }

  /** The SQLite AUTOINCREMENT guarantees on `tickets`: ids are positive, grow
      with insertion order and never exceed the sequence counter `last`. */
  ghost predicate AutoIncrementIds(tickets: seq<TicketRow>, last: int) {
    && (forall i :: 0 <= i < |tickets| ==> 0 < tickets[i].id <= last)
    && (forall i, j :: 0 <= i < j < |tickets| ==> tickets[i].id < tickets[j].id)
  }

  /** The database file, with the three tables the core reads and writes. */
  class Database {
    var users: map<UserKey, UserRow>
    var guilds: map<int, GuildRow>
    var tickets: seq<TicketRow>
    /** The `sqlite_sequence` entry of `tickets`: the largest id handed out. */
    var ticketSeq: nat

    ghost predicate Valid()
      reads this
    {
      AutoIncrementIds(tickets, ticketSeq)
    }

    /** `init_database` on a new file: every table exists and is empty. */
    constructor ()
      ensures Valid()
      ensures users == map[] && guilds == map[] && tickets == [] && ticketSeq == 0
    {
      users, guilds, tickets, ticketSeq := map[], map[], [], 0;
    }
  }
}
