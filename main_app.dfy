/**
 * The database effect of the event handlers of `main.py`, the variant of the
 * bot that also serves a web dashboard: an XP award without level-up, whose
 * cooldown check swallows a timestamp it cannot read (`on_message`), and the
 * guild upsert (`on_guild_join`). Its `get_prefix` is the same query as in
 * `bot.py` (`Store.GetPrefix`).
 */
module MainApp {
  import opened Store
  import Bot

  /** The inclusive range of `random.randint(10, 25)`. */
  const MIN_GAIN: int := 10
  const MAX_GAIN: int := 25
  const COOLDOWN_SECONDS: int := 60

  /** The cooldown check, where any exception while reading the stored
      instant lets the message through. */
  predicate CanGainXp(before: Option<UserRow>, now: int) {
    !(before.Some? && before.value.lastMessage.At? &&
      TimedeltaSeconds(now - before.value.lastMessage.time) < COOLDOWN_SECONDS)
  }

  /** A message passes when there is no row, no stored instant, or one that
      cannot be read; it is held back only for a readable instant whose time
      since falls within the first minute of some whole day. */
  lemma {:induction false} CooldownFallback(before: Option<UserRow>, now: int)
    ensures before.None? || before.value.lastMessage.Unset? || before.value.lastMessage.Unreadable? ==>
              CanGainXp(before, now)
    ensures !CanGainXp(before, now) <==>
              && before.Some? && before.value.lastMessage.At?
              && exists d :: DayStart(d) <= now - before.value.lastMessage.time < DayStart(d) + COOLDOWN_SECONDS * MICROS_PER_SECOND
  {
    if before.Some? && before.value.lastMessage.At? {
      TimedeltaSecondsBelow(now - before.value.lastMessage.time, COOLDOWN_SECONDS);
    }
  }

  /** The `users` table after `on_message`. */
  function UsersAfterMessage(users: map<UserKey, UserRow>, authorId: int, authorIsBot: bool,
                             guild: Option<int>, gain: int, now: int): map<UserKey, UserRow>
  {
    if authorIsBot || guild.None? then users
    else
      var key := (authorId, guild.value);
      if CanGainXp(Lookup(users, key), now) then users[key := XpReplaceRow(Lookup(users, key), gain, now)]
      else users
  }

  /** Nothing is written for a bot, a direct message or a held-back message,
      and nothing but the sender's row otherwise. That row gets the old xp
      plus the gain, the message instant and the kept (or new) created_at, and
      -- there being no level step -- level 1, 100 coins, no warnings and no
      reputation, whatever it held before. */
  lemma MessageEffect(users: map<UserKey, UserRow>, authorId: int, authorIsBot: bool,
                      guild: Option<int>, gain: int, now: int, other: UserKey)
    ensures var after := UsersAfterMessage(users, authorId, authorIsBot, guild, gain, now);
      && (authorIsBot || guild.None? ==> after == users)
      && (guild.Some? && !CanGainXp(Lookup(users, (authorId, guild.value)), now) ==> after == users)
      && (guild.None? || other != (authorId, guild.value) ==> Lookup(after, other) == Lookup(users, other))
      && (!authorIsBot && guild.Some? && CanGainXp(Lookup(users, (authorId, guild.value)), now) ==>
            var before := Lookup(users, (authorId, guild.value));
            var r := after[(authorId, guild.value)];
            && (authorId, guild.value) in after
            && r.xp == (if before.Some? then before.value.xp else 0) + gain
            && r.lastMessage == At(now)
            && r.createdAt == (if before.Some? && before.value.createdAt.Some? then before.value.createdAt else Some(now))
            && r.level == 1 && r.coins == 100 && r.warnings == 0 && r.reputation == 0)
  {
  }

  /** The two programs on the same table and gain: both hold back the same
      messages. `bot.py` writes nothing when it fails on an unreadable
      instant, or when a level-up's announcement cannot be sent in the
      channel; `main.py` awards in both cases. Otherwise, where `bot.py`
      awards, `main.py` awards too and writes the same row except for the
      level step. */
  lemma {:induction false} AgreesWithBot(users: map<UserKey, UserRow>, authorId: int, authorIsBot: bool,
                                         guild: Option<int>, gain: int, now: int, canPost: bool)
    ensures var bot := Bot.UsersAfterMessage(users, authorId, authorIsBot, guild, gain, now, canPost);
      var main := UsersAfterMessage(users, authorId, authorIsBot, guild, gain, now);
      && (authorIsBot || guild.None? ==> bot == users && main == users)
      && (!authorIsBot && guild.Some? ==>
            var before := Lookup(users, (authorId, guild.value));
            var gate := Bot.CooldownGate(before, now);
            var dropped := gate == Bot.Raises ||
                           (gate == Bot.Pass && Bot.LevelsUp(XpReplaceRow(before, gain, now)) && !canPost);
            && (gate == Bot.Pass ==> CanGainXp(before, now))
            && (gate == Bot.Cooldown <==> !CanGainXp(before, now))
            && (dropped ==> main != users && bot == users)
            && (!dropped ==>
                  && bot.Keys == main.Keys
                  && forall k :: k in main ==> main[k] == bot[k].(level := main[k].level)))
  {
    if !authorIsBot && guild.Some? {
      var key := (authorId, guild.value);
      var before := Lookup(users, key);
      var gate := Bot.CooldownGate(before, now);
      var main := UsersAfterMessage(users, authorId, authorIsBot, guild, gain, now);
      if gate == Bot.Raises {
        assert main[key].lastMessage != users[key].lastMessage;
      } else if gate == Bot.Pass && key in users {
        assert main[key].lastMessage != users[key].lastMessage;
      }
    }
  }

  method OnMessage(db: Database, authorId: int, authorIsBot: bool, guild: Option<int>, gain: int, now: int)
    returns (awarded: bool)
    requires db.Valid()
    requires MIN_GAIN <= gain <= MAX_GAIN
    modifies db
    ensures db.Valid()
    ensures db.guilds == old(db.guilds) && db.tickets == old(db.tickets) && db.ticketSeq == old(db.ticketSeq)
    ensures db.users == UsersAfterMessage(old(db.users), authorId, authorIsBot, guild, gain, now)
    ensures awarded <==> !authorIsBot && guild.Some? && CanGainXp(Lookup(old(db.users), (authorId, guild.value)), now)
  {
    if authorIsBot || guild.None? {
      return false;
    }
    var key := (authorId, guild.value);
    var row := if key in db.users then Some(db.users[key]) else None;
    awarded := true;
    if row.Some? && row.value.lastMessage != Unset {
      match row.value.lastMessage
      case At(last) =>
        if TimedeltaSeconds(now - last) < COOLDOWN_SECONDS {
          awarded := false;
        }
      case Unreadable =>
        awarded := true;
    }
    if awarded {
      db.users := db.users[key := XpReplaceRow(row, gain, now)];
    }
  }

  method OnGuildJoin(db: Database, guildId: int, name: string, now: int)
    requires db.Valid()
    modifies db
    ensures db.Valid()
    ensures db.users == old(db.users) && db.tickets == old(db.tickets) && db.ticketSeq == old(db.ticketSeq)
    ensures db.guilds == old(db.guilds)[guildId := JoinedGuild(name, now)]
  {
    db.guilds := db.guilds[guildId := JoinedGuild(name, now)];
  }
}
