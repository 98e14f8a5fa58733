/**
 * The database effect of the event handlers of `bot.py`: the XP award with
 * its cooldown and one-step level-up (`on_message`), the member upsert
 * (`on_member_join`), the guild upsert (`on_guild_join`), the ticket opener
 * of the quick-actions view (`create_ticket`) and the active-user count of
 * the server-stats button.
 *
 * The random XP gain, the clock and the ids of channels the platform creates
 * are parameters; every handler reads the clock once, as `now`.
 */
module Bot {
  import opened Store

  /** The inclusive range of `random.randint(15, 25)`. */
  const MIN_GAIN: int := 15
  const MAX_GAIN: int := 25
  /** The cooldown, compared with the `.seconds` of the elapsed time. */
  const COOLDOWN_SECONDS: int := 60

  // ---------------------------------------------------------------------
  // XP and levels

  /** The XP a member at `level` needs to reach `level + 1`. */
  function RequiredXp(level: int): int {
    5 * (level * level) + 50 * level + 100
  }

  /** The threshold that decides every level-up after an award: the REPLACE
      resets the level to 1 first, and 5 + 50 + 100 is 155. */
  lemma LevelOneThreshold()
    ensures RequiredXp(USER_DEFAULTS.level) == 155
  {
  }

  /** What the cooldown check decides: award, skip, or fail on a
      `last_message` that `datetime.fromisoformat` rejects (the exception
      leaves the handler before anything is written). */
  datatype Gate = Pass | Cooldown | Raises

  function CooldownGate(before: Option<UserRow>, now: int): Gate {
    if before.None? then Pass
    else match before.value.lastMessage
      case Unset => Pass
      case Unreadable => Raises
      case At(t) => if TimedeltaSeconds(now - t) < COOLDOWN_SECONDS then Cooldown else Pass
  }

  /** A message is held back exactly when the sender's row has a stored
      instant and the time since it falls within the first minute of some
      whole day: a message one day and 30 seconds later is held back too.
      Since the day may be negative, a message sent up to 23 h 59 min before
      the stored instant (clock skew) passes, and one sent between 23 h 59 min
      and 24 h before it is held back. */
  lemma {:induction false} CooldownWindow(before: Option<UserRow>, now: int)
    ensures CooldownGate(before, now) == Cooldown <==>
              && before.Some? && before.value.lastMessage.At?
              && exists d :: DayStart(d) <= now - before.value.lastMessage.time < DayStart(d) + COOLDOWN_SECONDS * MICROS_PER_SECOND
    ensures CooldownGate(before, now) == Raises <==> before.Some? && before.value.lastMessage.Unreadable?
  {
    if before.Some? && before.value.lastMessage.At? {
      TimedeltaSecondsBelow(now - before.value.lastMessage.time, COOLDOWN_SECONDS);
    }
  }

  /** The level check after the REPLACE fires: the row read back has
      reached the threshold of its level. */
  predicate LevelsUp(row: UserRow) {
    row.xp >= RequiredXp(row.level)
  }

  /** The level check after the REPLACE: the row is read back and its level
      goes one step up when its xp reaches the threshold of its level. */
  function LevelChecked(row: UserRow): UserRow {
    if LevelsUp(row) then row.(level := row.level + 1) else row
  }

  /** The sender's row after an award. */
  function AwardedRow(before: Option<UserRow>, gain: int, now: int): UserRow {
    LevelChecked(XpReplaceRow(before, gain, now))
  }

  /** The award adds the gain to the stored xp (0 without a row), stamps the
      message, keeps created_at (or sets it now), and -- because the REPLACE
      lists only xp, last_message and created_at -- resets coins, warnings and
      reputation to 100, 0 and 0 and the level to 1 before the level check, so
      the level afterwards is 2 when xp reaches 155 and 1 otherwise. */
  lemma AwardEffect(before: Option<UserRow>, gain: int, now: int)
    ensures var r := AwardedRow(before, gain, now);
      && r.xp == (if before.Some? then before.value.xp else 0) + gain
      && r.lastMessage == At(now)
      && r.createdAt == (if before.Some? && before.value.createdAt.Some? then before.value.createdAt else Some(now))
      && r.coins == 100 && r.warnings == 0 && r.reputation == 0
      && r.level == (if r.xp >= 155 then 2 else 1)
  {
  }

  /** Because the level is reset before the check, an award can lower a
      level: a member at level 7 with 3000 xp and 5000 coins ends at level 2
      with 100 coins. */
  lemma AwardCanLowerLevel()
    ensures exists before: UserRow, gain, now ::
              && MIN_GAIN <= gain <= MAX_GAIN
              && CooldownGate(Some(before), now) == Pass
              && AwardedRow(Some(before), gain, now).level < before.level
              && AwardedRow(Some(before), gain, now).coins < before.coins
  {
    var before := USER_DEFAULTS.(xp := 3000, level := 7, coins := 5000);
    assert AwardedRow(Some(before), MIN_GAIN, 0).level == 2;
  }

  /** What `on_message` reports. */
  datatype MessageOutcome =
    | Ignored                         // bot author, or no guild (direct message)
    | OnCooldown
    | Raised                          // an exception left the handler before the commit
    | Awarded(levelUp: Option<int>)   // the new level when it rose

  /** The `users` table after `on_message`. `canPost` says whether the
      level-up announcement can be sent in the message's channel: when the
      level check fires and the send raises, the handler leaves before its
      commit, so the REPLACE and the level update are discarded. */
  function UsersAfterMessage(users: map<UserKey, UserRow>, authorId: int, authorIsBot: bool,
                             guild: Option<int>, gain: int, now: int, canPost: bool): map<UserKey, UserRow>
  {
    if authorIsBot || guild.None? then users
    else
      var key := (authorId, guild.value);
      var replaced := XpReplaceRow(Lookup(users, key), gain, now);
      if CooldownGate(Lookup(users, key), now) != Pass || (LevelsUp(replaced) && !canPost) then users
      else users[key := LevelChecked(replaced)]
  }

  /** Only the sender's row can change, and only when the message is a human
      guild message that passes the cooldown and, if it levels up, whose
      announcement is sent; otherwise nothing is written. */
  lemma MessageFrame(users: map<UserKey, UserRow>, authorId: int, authorIsBot: bool,
                     guild: Option<int>, gain: int, now: int, canPost: bool, other: UserKey)
    ensures var after := UsersAfterMessage(users, authorId, authorIsBot, guild, gain, now, canPost);
      && (guild.None? || other != (authorId, guild.value) ==> Lookup(after, other) == Lookup(users, other))
      && (authorIsBot || guild.None? ==> after == users)
      && (guild.Some? && CooldownGate(Lookup(users, (authorId, guild.value)), now) != Pass ==> after == users)
      && (guild.Some? && !canPost && XpReplaceRow(Lookup(users, (authorId, guild.value)), gain, now).xp >= 155 ==>
            after == users)
      && (!authorIsBot && guild.Some? && CooldownGate(Lookup(users, (authorId, guild.value)), now) == Pass &&
          (canPost || XpReplaceRow(Lookup(users, (authorId, guild.value)), gain, now).xp < 155) ==>
            Lookup(after, (authorId, guild.value)) == Some(AwardedRow(Lookup(users, (authorId, guild.value)), gain, now)))
  {
  }

  method OnMessage(db: Database, authorId: int, authorIsBot: bool, guild: Option<int>, gain: int, now: int,
                   canPost: bool)
    returns (outcome: MessageOutcome)
    requires db.Valid()
    requires MIN_GAIN <= gain <= MAX_GAIN
    modifies db
    ensures db.Valid()
    ensures db.guilds == old(db.guilds) && db.tickets == old(db.tickets) && db.ticketSeq == old(db.ticketSeq)
    ensures db.users == UsersAfterMessage(old(db.users), authorId, authorIsBot, guild, gain, now, canPost)
    ensures authorIsBot || guild.None? ==> outcome == Ignored
    ensures !authorIsBot && guild.Some? ==>
              var before := Lookup(old(db.users), (authorId, guild.value));
              var levelsUp := XpReplaceRow(before, gain, now).xp >= RequiredXp(USER_DEFAULTS.level);
              match CooldownGate(before, now)
              case Cooldown => outcome == OnCooldown
              case Raises => outcome == Raised
              case Pass =>
                && (levelsUp && !canPost ==> outcome == Raised)
                && (!levelsUp || canPost ==>
                      && outcome.Awarded?
                      && (outcome.levelUp.Some? <==> levelsUp)
                      && (outcome.levelUp.Some? ==> outcome.levelUp.value == AwardedRow(before, gain, now).level))
  {
    if authorIsBot || guild.None? {
      return Ignored;
    }
    var key := (authorId, guild.value);
    var before := if key in db.users then Some(db.users[key]) else None;
    var gate := CooldownGate(before, now);
    if gate == Raises {
      return Raised;
    } else if gate == Cooldown {
      return OnCooldown;
    }
    var committed := db.users;
    db.users := db.users[key := XpReplaceRow(before, gain, now)];
    var row := db.users[key];
    if row.xp >= RequiredXp(row.level) {
      var newLevel := row.level + 1;
      db.users := db.users[key := row.(level := newLevel)];
      if !canPost {
        // the announcement raises: the uncommitted writes are discarded
        db.users := committed;
        return Raised;
      }
      outcome := Awarded(Some(newLevel));
    } else {
      outcome := Awarded(None);
    }
  }

  /** One human guild message of a fixed sender: its drawn gain, the
      instant it was handled, and whether the bot can post in its channel. */
  datatype Message = Message(gain: int, time: int, canPost: bool)

  /** The `users` table after the sender's messages are handled in order. */
  function SendAll(users: map<UserKey, UserRow>, key: UserKey, msgs: seq<Message>): map<UserKey, UserRow>
    decreases |msgs|
  {
    if msgs == [] then users
    else SendAll(UsersAfterMessage(users, key.0, false, Some(key.1), msgs[0].gain, msgs[0].time, msgs[0].canPost),
                 key, msgs[1..])
  }

  function TotalGain(msgs: seq<Message>): int
    decreases |msgs|
  {
    if msgs == [] then 0 else msgs[0].gain + TotalGain(msgs[1..])
  }

  /** Consecutive messages whose time apart has a `.seconds` of at least a
      minute: each of them passes the cooldown set by the one before. */
  predicate Spaced(msgs: seq<Message>) {
    forall i :: 0 < i < |msgs| ==> TimedeltaSeconds(msgs[i].time - msgs[i - 1].time) >= COOLDOWN_SECONDS
  }

  /** Every message was sent in a channel where the bot can post. */
  predicate Postable(msgs: seq<Message>) {
    forall i :: 0 <= i < |msgs| ==> msgs[i].canPost
  }

  /** A spaced run of messages in channels where the bot can post, whose
      first one passes the cooldown, adds up: the xp is the old xp plus the
      sum of the gains, the row is stamped with the last message, and the
      level is again 2 or 1 by the 155 threshold. */
  lemma {:induction false} SpacedMessagesAccumulate(users: map<UserKey, UserRow>, key: UserKey, msgs: seq<Message>)
    requires |msgs| > 0 && Spaced(msgs) && Postable(msgs)
    requires CooldownGate(Lookup(users, key), msgs[0].time) == Pass
    ensures var after := SendAll(users, key, msgs);
      && key in after
      && after[key].xp == (if key in users then users[key].xp else 0) + TotalGain(msgs)
      && after[key].lastMessage == At(msgs[|msgs| - 1].time)
      && after[key].level == (if after[key].xp >= 155 then 2 else 1)
      && after[key].coins == 100
    decreases |msgs|
  {
    var next := UsersAfterMessage(users, key.0, false, Some(key.1), msgs[0].gain, msgs[0].time, msgs[0].canPost);
    assert msgs[0].canPost;
    assert next[key] == AwardedRow(Lookup(users, key), msgs[0].gain, msgs[0].time);
    if |msgs| > 1 {
      var rest := msgs[1..];
      assert rest[0] == msgs[1];
      assert CooldownGate(Lookup(next, key), rest[0].time) == Pass;
      assert Spaced(rest) by {
        forall i | 0 < i < |rest|
          ensures TimedeltaSeconds(rest[i].time - rest[i - 1].time) >= COOLDOWN_SECONDS
        {
          assert rest[i] == msgs[i + 1] && rest[i - 1] == msgs[i];
        }
      }
      assert Postable(rest) by {
        forall i | 0 <= i < |rest| ensures rest[i].canPost {
          assert rest[i] == msgs[i + 1];
        }
      }
      SpacedMessagesAccumulate(next, key, rest);
      assert msgs[|msgs| - 1] == rest[|rest| - 1];
    }
  }

  /** Three messages at 0 s, 30 s and 90 s with a gain of 20 each: the one at
      30 s is held back, so a new member ends with 40 xp at level 1. */
  lemma ThreeMessagesScenario(key: UserKey)
    ensures var msgs := [Message(20, 0, true), Message(20, 30 * MICROS_PER_SECOND, true), Message(20, 90 * MICROS_PER_SECOND, true)];
      var after := SendAll(map[], key, msgs);
      key in after && after[key].xp == 40 && after[key].level == 1
  {
    var msgs := [Message(20, 0, true), Message(20, 30 * MICROS_PER_SECOND, true), Message(20, 90 * MICROS_PER_SECOND, true)];
    var u1 := UsersAfterMessage(map[], key.0, false, Some(key.1), 20, 0, true);
    assert u1[key].xp == 20;
    var u2 := UsersAfterMessage(u1, key.0, false, Some(key.1), 20, 30 * MICROS_PER_SECOND, true);
    assert u2 == u1;
    var u3 := UsersAfterMessage(u2, key.0, false, Some(key.1), 20, 90 * MICROS_PER_SECOND, true);
    assert u3[key].xp == 40;
    assert msgs[1..][1..][1..] == [];
    assert SendAll(map[], key, msgs) == SendAll(u1, key, msgs[1..]) == SendAll(u2, key, msgs[1..][1..])
        == SendAll(u3, key, msgs[1..][1..][1..]) == u3;
  }

  /** A message one day and 30 seconds after the last award is held back:
      `.seconds` drops the day. */
  lemma NextDayScenario(key: UserKey)
    ensures var msgs := [Message(20, 0, true), Message(20, DayStart(1) + 30 * MICROS_PER_SECOND, true)];
      var after := SendAll(map[], key, msgs);
      key in after && after[key].xp == 20
  {
    var msgs := [Message(20, 0, true), Message(20, DayStart(1) + 30 * MICROS_PER_SECOND, true)];
    var u1 := UsersAfterMessage(map[], key.0, false, Some(key.1), 20, 0, true);
    assert u1[key].xp == 20;
    var u2 := UsersAfterMessage(u1, key.0, false, Some(key.1), 20, DayStart(1) + 30 * MICROS_PER_SECOND, true);
    assert u2 == u1;
    assert msgs[1..][1..] == [];
    assert SendAll(map[], key, msgs) == SendAll(u1, key, msgs[1..]) == SendAll(u2, key, msgs[1..][1..]) == u2;
  }

  /** In channels where the bot cannot post, every award that would level up
      is discarded with its failed announcement: from a row below 155 xp (or
      no row), the member's xp never reaches 155, whatever the messages. */
  lemma {:induction false} SilentChannelCapsXp(users: map<UserKey, UserRow>, key: UserKey, msgs: seq<Message>)
    requires forall i :: 0 <= i < |msgs| ==> !msgs[i].canPost
    requires key in users ==> users[key].xp < 155
    ensures var after := SendAll(users, key, msgs);
      key in after ==> after[key].xp < 155
    decreases |msgs|
  {
    if msgs != [] {
      var next := UsersAfterMessage(users, key.0, false, Some(key.1), msgs[0].gain, msgs[0].time, msgs[0].canPost);
      assert !msgs[0].canPost;
      assert key in next ==> next[key].xp < 155;
      var rest := msgs[1..];
      assert forall i :: 0 <= i < |rest| ==> !rest[i].canPost by {
        forall i | 0 <= i < |rest| ensures !rest[i].canPost {
          assert rest[i] == msgs[i + 1];
        }
      }
      SilentChannelCapsXp(next, key, rest);
    }
  }

  /** A member with 140 xp whose next message draws 15 reaches 155 and levels
      up; where the bot cannot post, the failed announcement discards the award
      and the row stays as it was. */
  lemma SilentLevelUpScenario(key: UserKey)
    ensures var users := map[key := USER_DEFAULTS.(xp := 140, createdAt := Some(0))];
      && UsersAfterMessage(users, key.0, false, Some(key.1), 15, 0, false) == users
      && UsersAfterMessage(users, key.0, false, Some(key.1), 15, 0, true)[key].level == 2
  {
  }

  // ---------------------------------------------------------------------
  // Members and guilds

  /** The row the member join's REPLACE writes: it lists only created_at, so
      every other column is its default. */
  function JoinedMember(now: int): UserRow {
    USER_DEFAULTS.(createdAt := Some(now))
  }

  /** The `users` table after `on_member_join`. */
  function UsersAfterMemberJoin(users: map<UserKey, UserRow>, memberId: int, memberIsBot: bool,
                                guildId: int, now: int): map<UserKey, UserRow>
  {
    if memberIsBot then users else users[(memberId, guildId) := JoinedMember(now)]
  }

  method OnMemberJoin(db: Database, memberId: int, memberIsBot: bool, guildId: int, now: int)
    requires db.Valid()
    modifies db
    ensures db.Valid()
    ensures db.guilds == old(db.guilds) && db.tickets == old(db.tickets) && db.ticketSeq == old(db.ticketSeq)
    ensures db.users == UsersAfterMemberJoin(old(db.users), memberId, memberIsBot, guildId, now)
  {
    if memberIsBot {
      return;
    }
    db.users := db.users[(memberId, guildId) := JoinedMember(now)];
  }

  /** A bot joining changes nothing; a human's join replaces only that
      member's row in that guild, with a fresh row (xp 0, level 1, 100 coins,
      no last message, no warnings, no reputation, created now) that discards
      any earlier progress. */
  lemma MemberJoinEffect(users: map<UserKey, UserRow>, memberId: int, memberIsBot: bool,
                         guildId: int, now: int, other: UserKey)
    ensures var after := UsersAfterMemberJoin(users, memberId, memberIsBot, guildId, now);
      && (memberIsBot ==> after == users)
      && (!memberIsBot ==>
            Lookup(after, (memberId, guildId)) == Some(UserRow(0, 1, 100, Unset, 0, 0, Some(now))))
      && (other != (memberId, guildId) ==> Lookup(after, other) == Lookup(users, other))
  {
  }

  method OnGuildJoin(db: Database, guildId: int, name: string, now: int)
    requires db.Valid()
    modifies db
    ensures db.Valid()
    ensures db.users == old(db.users) && db.tickets == old(db.tickets) && db.ticketSeq == old(db.ticketSeq)
    ensures db.guilds == old(db.guilds)[guildId := JoinedGuild(name, now)]
  {
    db.guilds := db.guilds[guildId := JoinedGuild(name, now)];
  }

  // ---------------------------------------------------------------------
  // Server statistics

  /** The number of `users` rows of a guild, shown as "Active Users". */
  function ActiveUsers(users: map<UserKey, UserRow>, guildId: int): nat {
    |set k | k in users && k.1 == guildId|
  }

  /** Writing one row of `users` adds one to its guild's count when the row
      is new and leaves every count unchanged otherwise. */
  lemma {:induction false} ActiveUsersAfterWrite(users: map<UserKey, UserRow>, key: UserKey, row: UserRow, guildId: int)
    ensures ActiveUsers(users[key := row], guildId) ==
              ActiveUsers(users, guildId) + (if key !in users && key.1 == guildId then 1 else 0)
  {
    var before := set k | k in users && k.1 == guildId;
    var after := set k | k in users[key := row] && k.1 == guildId;
    if key !in users && key.1 == guildId {
      assert after == before + {key};
    } else {
      assert after == before;
    }
  }

  /** A human joining a guild for the first time raises its active-user count
      by one; a rejoin, a bot, or a join elsewhere leaves it unchanged. */
  lemma MemberJoinCount(users: map<UserKey, UserRow>, memberId: int, memberIsBot: bool,
                        guildId: int, now: int, counted: int)
    ensures ActiveUsers(UsersAfterMemberJoin(users, memberId, memberIsBot, guildId, now), counted) ==
              ActiveUsers(users, counted) +
              (if !memberIsBot && (memberId, guildId) !in users && guildId == counted then 1 else 0)
  {
    if !memberIsBot {
      ActiveUsersAfterWrite(users, (memberId, guildId), JoinedMember(now), counted);
    }
  }

  // ---------------------------------------------------------------------
  // Tickets

  predicate IsOpenFor(t: TicketRow, guildId: int, userId: int) {
    t.guildId == guildId && t.userId == userId && t.status == OPEN
  }

  /** The opener's query finds a ticket of that member in that guild whose
      status is 'open'. */
  predicate HasOpenTicket(tickets: seq<TicketRow>, guildId: int, userId: int) {
    exists i :: 0 <= i < |tickets| && IsOpenFor(tickets[i], guildId, userId)
  }

  /** The invariant the opener is meant to keep: no two open tickets of one
      member of one guild. */
  ghost predicate OneOpenPerMember(tickets: seq<TicketRow>) {
    forall i, j :: 0 <= i < j < |tickets| && tickets[i].status == OPEN && tickets[j].status == OPEN ==>
      !IsOpenFor(tickets[j], tickets[i].guildId, tickets[i].userId)
  }

  /** The row the opener inserts: it lists the guild, user, channel, category
      and created_at, so status takes its default 'open', closed_at is NULL
      and the id is the next AUTOINCREMENT value. */
  function NewTicket(id: int, guildId: int, userId: int, channelId: int, categoryId: int, now: int): TicketRow {
    TicketRow(id, guildId, userId, channelId, categoryId, OPEN, Some(now), None)
  }

  datatype TicketOutcome = AlreadyOpen | Created(id: int)

  /** `create_ticket` after the platform has made the channel `channelId`
      in the category `categoryId`. */
  method CreateTicket(db: Database, guildId: int, userId: int, channelId: int, categoryId: int, now: int)
    returns (outcome: TicketOutcome)
    requires db.Valid()
    modifies db
    ensures db.Valid()
    ensures db.users == old(db.users) && db.guilds == old(db.guilds)
    ensures old(HasOpenTicket(db.tickets, guildId, userId)) ==>
              outcome == AlreadyOpen && db.tickets == old(db.tickets) && db.ticketSeq == old(db.ticketSeq)
    ensures !old(HasOpenTicket(db.tickets, guildId, userId)) ==>
              && outcome == Created(old(db.ticketSeq) + 1)
              && db.ticketSeq == old(db.ticketSeq) + 1
              && db.tickets == old(db.tickets) + [NewTicket(db.ticketSeq, guildId, userId, channelId, categoryId, now)]
    ensures OneOpenPerMember(old(db.tickets)) ==> OneOpenPerMember(db.tickets)
    ensures (db.tickets, db.ticketSeq) ==
              Serve(old(db.tickets), old(db.ticketSeq), TicketRequest(guildId, userId, channelId, categoryId, now))
  {
    if HasOpenTicket(db.tickets, guildId, userId) {
      return AlreadyOpen;
    }
    ghost var before := db.tickets;
    var id := db.ticketSeq + 1;
    db.tickets := db.tickets + [NewTicket(id, guildId, userId, channelId, categoryId, now)];
    db.ticketSeq := id;
    OpenKeepsInvariants(before, id - 1, NewTicket(id, guildId, userId, channelId, categoryId, now));
    outcome := Created(id);
  }

  /** Appending the new ticket when no open one exists keeps the id
      guarantees and the one-open-ticket invariant, and its id is larger than
      every earlier id. */
  lemma {:induction false} OpenKeepsInvariants(tickets: seq<TicketRow>, last: nat, t: TicketRow)
    requires AutoIncrementIds(tickets, last)
    requires t.id == last + 1 && t.status == OPEN
    requires !HasOpenTicket(tickets, t.guildId, t.userId)
    ensures AutoIncrementIds(tickets + [t], t.id)
    ensures forall i :: 0 <= i < |tickets| ==> tickets[i].id < t.id
    ensures OneOpenPerMember(tickets) ==> OneOpenPerMember(tickets + [t])
  {
    var after := tickets + [t];
    assert after[|tickets|] == t;
    forall i | 0 <= i < |tickets| ensures after[i] == tickets[i] { }
    if OneOpenPerMember(tickets) {
      forall i, j | 0 <= i < j < |after| && after[i].status == OPEN && after[j].status == OPEN
        ensures !IsOpenFor(after[j], after[i].guildId, after[i].userId)
      {
        if j == |tickets| {
          assert !IsOpenFor(tickets[i], t.guildId, t.userId);
        }
      }
    }
  }

  /** The number of open tickets of a member, by scanning the table. */
  function OpenTicketCount(tickets: seq<TicketRow>, guildId: int, userId: int): nat
    decreases |tickets|
  {
    if tickets == [] then 0
    else (if IsOpenFor(tickets[0], guildId, userId) then 1 else 0) + OpenTicketCount(tickets[1..], guildId, userId)
  }

  lemma {:induction false} OpenTicketCountFinds(tickets: seq<TicketRow>, guildId: int, userId: int)
    ensures OpenTicketCount(tickets, guildId, userId) > 0 <==> HasOpenTicket(tickets, guildId, userId)
    decreases |tickets|
  {
    if tickets != [] {
      OpenTicketCountFinds(tickets[1..], guildId, userId);
      if HasOpenTicket(tickets[1..], guildId, userId) {
        var i :| 0 <= i < |tickets[1..]| && IsOpenFor(tickets[1..][i], guildId, userId);
        assert IsOpenFor(tickets[i + 1], guildId, userId);
      }
      if HasOpenTicket(tickets, guildId, userId) && !IsOpenFor(tickets[0], guildId, userId) {
        var i :| 0 <= i < |tickets| && IsOpenFor(tickets[i], guildId, userId);
        assert IsOpenFor(tickets[1..][i - 1], guildId, userId);
      }
    }
  }

  /** Under the invariant every member of every guild has at most one open
      ticket, and exactly one when the opener's query finds one. */
  lemma {:induction false} AtMostOneOpenTicket(tickets: seq<TicketRow>, guildId: int, userId: int)
    requires OneOpenPerMember(tickets)
    ensures OpenTicketCount(tickets, guildId, userId) <= 1
    ensures OpenTicketCount(tickets, guildId, userId) == 1 <==> HasOpenTicket(tickets, guildId, userId)
    decreases |tickets|
  {
    OpenTicketCountFinds(tickets, guildId, userId);
    if tickets != [] {
      var rest := tickets[1..];
      assert OneOpenPerMember(rest) by {
        forall i, j | 0 <= i < j < |rest| && rest[i].status == OPEN && rest[j].status == OPEN
          ensures !IsOpenFor(rest[j], rest[i].guildId, rest[i].userId)
        {
          assert rest[i] == tickets[i + 1] && rest[j] == tickets[j + 1];
        }
      }
      AtMostOneOpenTicket(rest, guildId, userId);
      OpenTicketCountFinds(rest, guildId, userId);
    }
  }

  /** One press of "Create Ticket": the member and guild, the channel and
      category the platform made, and the clock. */
  datatype TicketRequest = TicketRequest(guildId: int, userId: int, channelId: int, categoryId: int, time: int)

  /** The `tickets` table and its sequence counter after one request. */
  function Serve(tickets: seq<TicketRow>, last: nat, r: TicketRequest): (seq<TicketRow>, nat) {
    if HasOpenTicket(tickets, r.guildId, r.userId) then (tickets, last)
    else (tickets + [NewTicket(last + 1, r.guildId, r.userId, r.channelId, r.categoryId, r.time)], last + 1)
  }

  /** ... after requests handled one after another. */
  function ServeAll(tickets: seq<TicketRow>, last: nat, rs: seq<TicketRequest>): (seq<TicketRow>, nat)
    decreases |rs|
  {
    if rs == [] then (tickets, last)
    else
      var next := Serve(tickets, last, rs[0]);
      ServeAll(next.0, next.1, rs[1..])
  }

  /** Requests handled one at a time, from a table that keeps the invariants,
      keep them: ids stay increasing and no member ever holds two open
      tickets in one guild. Only rows are added: the old table is a prefix. */
  lemma {:induction false} SequentialRequestsKeepInvariants(tickets: seq<TicketRow>, last: nat, rs: seq<TicketRequest>)
    requires AutoIncrementIds(tickets, last) && OneOpenPerMember(tickets)
    ensures var after := ServeAll(tickets, last, rs);
      && AutoIncrementIds(after.0, after.1) && OneOpenPerMember(after.0)
      && tickets <= after.0 && last <= after.1
    decreases |rs|
  {
    if rs != [] {
      var r := rs[0];
      if !HasOpenTicket(tickets, r.guildId, r.userId) {
        OpenKeepsInvariants(tickets, last, NewTicket(last + 1, r.guildId, r.userId, r.channelId, r.categoryId, r.time));
      }
      var next := Serve(tickets, last, r);
      SequentialRequestsKeepInvariants(next.0, next.1, rs[1..]);
    }
  }

  /** Two requests of one member in one guild with no earlier ticket, handled
      one after the other: the first opens ticket 1, the second is refused,
      and the member has exactly one open ticket. */
  lemma DoubleRequestScenario(guildId: int, userId: int, c1: int, c2: int, k: int, t1: int, t2: int)
    ensures var first := Serve([], 0, TicketRequest(guildId, userId, c1, k, t1));
      var second := Serve(first.0, first.1, TicketRequest(guildId, userId, c2, k, t2));
      && first.0 == [NewTicket(1, guildId, userId, c1, k, t1)]
      && second == first
      && OpenTicketCount(second.0, guildId, userId) == 1
  {
    var first := Serve([], 0, TicketRequest(guildId, userId, c1, k, t1));
    assert IsOpenFor(first.0[0], guildId, userId);
    assert OpenTicketCount(first.0[1..], guildId, userId) == 0;
  }
}
