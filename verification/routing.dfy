/** What one call of the message handler does, route by route
    (lib/funcord.js:108-159). */
module Routing {
  import opened Wrappers
  import opened Json
  import opened Frames
  import opened Cache
  import opened Discord
  import Outbound

  /** The three cache maps and the user are as they were. */
  predicate SameCache(a: Client, b: Client) {
    a.guilds == b.guilds && a.users == b.users && a.channels == b.channels && a.user == b.user
  }

  /** Every frame, of whatever op, overwrites `lastS` with its own `s`,
      absent or null included, so the next heartbeat carries exactly that. */
  lemma HeartbeatCarriesLatestS(c: Client, f: Frame)
    ensures OnMessage(c, f).client.lastS == f.s
    ensures Outbound.Decode(Heartbeat(OnMessage(c, f).client)) == Some(Outbound.Beat(f.s))
  {
  }

  /** Hello identifies exactly once, swaps the heartbeat timer for a fresh
      one with the announced interval (stopping the old one first), and
      touches no cache. */
  lemma HelloEffects(c: Client, f: Frame)
    requires f.op == OpHello
    ensures var r := OnMessage(c, f);
      && Sends(r.effects) == [Outbound.IdentifyFrame(c.token)]
      && Outbound.Decode(Sends(r.effects)[0]) == Some(Outbound.Identify(c.token))
      && Emits(r.effects) == []
      && r.client.beatInterval == Some(Timer(c.nextHandle, HeartbeatIntervalOf(f.d)))
      && (c.beatInterval.Some? ==> r.effects[0] == ClearInterval(c.beatInterval.value.handle))
      && r.effects[|r.effects| - 1] == SetInterval(c.nextHandle, HeartbeatIntervalOf(f.d))
      && SameCache(r.client, c)
      && r.fault.None?
  {
    var r := OnMessage(c, f);
    var stop := match c.beatInterval
                case Some(t) => [ClearInterval(t.handle)]
                case None => [];
    var tail := [Send(Outbound.IdentifyFrame(c.token)), SetInterval(c.nextHandle, HeartbeatIntervalOf(f.d))];
    assert r.effects == stop + tail;
    assert Sends(stop) == [];
    SendsAppend(stop, tail);
    EmitsAppend(stop, tail);
  }

  lemma {:induction false} SendsAppend(a: seq<Effect>, b: seq<Effect>)
    ensures Sends(a + b) == Sends(a) + Sends(b)
  {
    if |a| == 0 {
      assert a + b == b;
    } else {
      assert (a + b)[1..] == a[1..] + b;
      SendsAppend(a[1..], b);
    }
  }

  lemma {:induction false} EmitsAppend(a: seq<Effect>, b: seq<Effect>)
    ensures Emits(a + b) == Emits(a) + Emits(b)
  {
    if |a| == 0 {
      assert a + b == b;
    } else {
      assert (a + b)[1..] == a[1..] + b;
      EmitsAppend(a[1..], b);
    }
  }

  /** A heartbeat ack, or any op the switch does not name (a server
      heartbeat request, an invalid-session notice, ...), only records `s`. */
  lemma OtherOpsOnlyRecordS(c: Client, f: Frame)
    requires f.op != OpHello && f.op != OpDispatch
    ensures OnMessage(c, f) == Reaction(c.(lastS := f.s), [], None)
  {
  }

  /** READY: the user becomes `d.user`; each listed guild is cached under
      its id (the last one listed wins an id); other guild entries, the
      other maps, and the timer are untouched; READY is emitted once with
      the whole frame. */
  lemma ReadyEffects(c: Client, f: Frame)
    requires f.op == OpDispatch && f.t == Some("READY")
    ensures var r := OnMessage(c, f);
      && r.client.user == UserOf(f.d)
      && r.effects == [Emit(Some("READY"), f)]
      && Emits(r.effects) == [(Some("READY"), f)]
      && r.fault.None?
      && r.client.users == c.users && r.client.channels == c.channels
      && (GuildsOf(f.d).None? ==> r.client.guilds == c.guilds)
  {
  }

  /** READY with a guild list: every guild in it is cached under its id. */
  lemma ReadyCachesGuilds(c: Client, f: Frame, gs: seq<Guild>)
    requires f.op == OpDispatch && f.t == Some("READY") && GuildsOf(f.d) == Some(gs)
    ensures var guilds := OnMessage(c, f).client.guilds;
      && (forall g :: g in gs ==> g.id in guilds)
      && (forall i :: 0 <= i < |gs| && (forall j :: i < j < |gs| ==> gs[j].id != gs[i].id)
            ==> guilds[gs[i].id] == gs[i])
      && (forall id :: (forall g :: g in gs ==> g.id != id) ==>
            (id in guilds <==> id in c.guilds) && (id in c.guilds ==> guilds[id] == c.guilds[id]))
  {
    var guilds := OnMessage(c, f).client.guilds;
    assert guilds == PutAll(c.guilds, gs, GuildId);
    PutAllHasAllKeys(c.guilds, gs, GuildId);
    forall i | 0 <= i < |gs| && (forall j :: i < j < |gs| ==> gs[j].id != gs[i].id)
      ensures guilds[gs[i].id] == gs[i]
    {
      PutAllStores(c.guilds, gs, GuildId, i);
    }
    forall id | (forall g :: g in gs ==> g.id != id)
      ensures (id in guilds <==> id in c.guilds) && (id in c.guilds ==> guilds[id] == c.guilds[id])
    {
      forall j | 0 <= j < |gs| ensures gs[j].id != id {
        assert gs[j] in gs;
      }
      PutAllKeeps(c.guilds, gs, GuildId, id);
    }
  }

  /** GUILD_CREATE with members and channels: the three maps become the
      members' users, the stamped channels and the stamped payload put
      over the old ones, and nothing is sent, emitted or thrown. */
  lemma GuildCreateResult(c: Client, f: Frame, g: Guild, ms: seq<GuildMember>, chs: seq<Channel>)
    requires f.op == OpDispatch && f.t == Some("GUILD_CREATE") && f.d == GuildData(g)
    requires g.members == Some(ms) && g.channels == Some(chs)
    requires forall m :: m in ms ==> m.user.Some?
    ensures var r := OnMessage(c, f);
      && r.effects == [] && r.fault.None?
      && r.client.user == c.user
      && r.client.users == PutAll(c.users, MemberUsers(ms), UserId)
      && r.client.channels == PutAll(c.channels, Stamp(chs, g.id), ChannelId)
      && r.client.guilds == c.guilds[g.id := g.(channels := Some(Stamp(chs, g.id)))]
  {
  }

  /** GUILD_CREATE caches every member's user under its id (the last member
      with an id wins it) and keeps the users of every other id. */
  lemma GuildCreateCachesUsers(c: Client, f: Frame, g: Guild, ms: seq<GuildMember>)
    requires f.op == OpDispatch && f.t == Some("GUILD_CREATE") && f.d == GuildData(g)
    requires g.members == Some(ms)
    requires forall m :: m in ms ==> m.user.Some?
    ensures var users := OnMessage(c, f).client.users;
      && (forall m :: m in ms ==> m.user.value.id in users)
      && (forall i :: 0 <= i < |ms| && (forall j :: i < j < |ms| ==> ms[j].user.value.id != ms[i].user.value.id)
            ==> users[ms[i].user.value.id] == ms[i].user.value)
      && (forall id :: (forall m :: m in ms ==> m.user.value.id != id) ==>
            (id in users <==> id in c.users) && (id in c.users ==> users[id] == c.users[id]))
  {
    if g.channels.None? {
      GuildCreateFaults(c, f);
    } else {
      GuildCreateResult(c, f, g, ms, g.channels.value);
    }
    PutMemberUsers(c.users, ms);
  }

  /** GUILD_CREATE caches every channel under its id carrying the guild's
      id (the last channel with an id wins it), keeps the channels of every
      other id, and so every channel it adds points back at the guild. */
  lemma GuildCreateCachesChannels(c: Client, f: Frame, g: Guild, ms: seq<GuildMember>, chs: seq<Channel>)
    requires f.op == OpDispatch && f.t == Some("GUILD_CREATE") && f.d == GuildData(g)
    requires g.members == Some(ms) && g.channels == Some(chs)
    requires forall m :: m in ms ==> m.user.Some?
    ensures var channels := OnMessage(c, f).client.channels;
      && (forall ch :: ch in chs ==> ch.id in channels)
      && (forall i :: 0 <= i < |chs| && (forall j :: i < j < |chs| ==> chs[j].id != chs[i].id)
            ==> channels[chs[i].id] == chs[i].(guildId := Some(g.id)))
      && (forall id :: (forall ch :: ch in chs ==> ch.id != id) ==>
            (id in channels <==> id in c.channels) && (id in c.channels ==> channels[id] == c.channels[id]))
      && (forall id :: id in channels && id !in c.channels ==> channels[id].guildId == Some(g.id))
  {
    GuildCreateResult(c, f, g, ms, chs);
    PutStampedChannels(c.channels, chs, g.id);
    StampedChannelsPointBack(c.channels, chs, g.id);
  }

  /** GUILD_CREATE caches the payload, channels stamped, as the guild under
      its id and keeps every other guild entry. */
  lemma GuildCreateCachesGuild(c: Client, f: Frame, g: Guild, ms: seq<GuildMember>, chs: seq<Channel>)
    requires f.op == OpDispatch && f.t == Some("GUILD_CREATE") && f.d == GuildData(g)
    requires g.members == Some(ms) && g.channels == Some(chs)
    requires forall m :: m in ms ==> m.user.Some?
    ensures var guilds := OnMessage(c, f).client.guilds;
      && g.id in guilds
      && guilds[g.id] == g.(channels := Some(Stamp(chs, g.id)))
      && (forall ch :: ch in guilds[g.id].channels.value ==> ch.guildId == Some(g.id))
      && (forall id :: id != g.id ==>
            (id in guilds <==> id in c.guilds) && (id in c.guilds ==> guilds[id] == c.guilds[id]))
  {
    GuildCreateResult(c, f, g, ms, chs);
  }

  /** GUILD_CREATE whose payload has no `members` throws before changing
      anything. A member without a `user` throws after the users of the
      members before it are cached; with every user present but no
      `channels` it throws after caching them all. Either way channels and
      guilds are untouched. */
  lemma GuildCreateFaults(c: Client, f: Frame)
    requires f.op == OpDispatch && f.t == Some("GUILD_CREATE")
    ensures var r := OnMessage(c, f);
      && r.effects == []
      && (!f.d.GuildData? || f.d.guild.members.None? ==>
            r.fault == Some(MembersUndefined) && r.client == c.(lastS := f.s))
      && (f.d.GuildData? && f.d.guild.members.Some? ==>
            var ms := f.d.guild.members.value;
            var n := UserlessIndex(ms);
            && (n < |ms| ==>
                  && r.fault == Some(MemberUserUndefined)
                  && r.client == c.(lastS := f.s, users := PutAll(c.users, MemberUsers(ms[..n]), UserId)))
            && (n == |ms| && f.d.guild.channels.None? ==>
                  && r.fault == Some(ChannelsUndefined)
                  && r.client == c.(lastS := f.s, users := PutAll(c.users, MemberUsers(ms), UserId))))
  {
    if f.d.GuildData? && f.d.guild.members.Some? {
      var ms := f.d.guild.members.value;
      MemberUsersOfPrefix(ms);
    }
  }

  /** PRESENCE_UPDATE changes no cache entry and emits nothing; it throws
      exactly when the payload has no user, the user's id is `size`, or
      some cached guild has no member list. */
  lemma PresenceUpdateChangesNothing(c: Client, f: Frame)
    requires f.op == OpDispatch && f.t == Some("PRESENCE_UPDATE")
    ensures var r := OnMessage(c, f);
      && r.client == c.(lastS := f.s)
      && r.effects == []
      && (r.fault.None? <==> && UserOf(f.d).Some? && UserOf(f.d).value.id != "size"
                             && forall id :: id in c.guilds ==> c.guilds[id].members.Some?)
  {
  }

  /** Any other event name (or none) is emitted once, under that name, with
      the whole frame, and changes no cache entry. */
  lemma OtherDispatchIsEmitted(c: Client, f: Frame)
    requires f.op == OpDispatch
    requires f.t != Some("READY") && f.t != Some("GUILD_CREATE") && f.t != Some("PRESENCE_UPDATE")
    ensures var r := OnMessage(c, f);
      && r.client == c.(lastS := f.s)
      && Emits(r.effects) == [(f.t, f)]
      && Sends(r.effects) == []
      && r.fault.None?
  {
    var r := OnMessage(c, f);
    assert r.effects == [Emit(f.t, f)];
    assert Emits(r.effects) == [(f.t, f)] + Emits([]);
  }

  /** Handling the same frame twice leaves the client as handling it once,
      for every frame but hello (which starts a new timer each time). In
      particular a repeated GUILD_CREATE snapshot leaves the same maps. */
  lemma RepeatedFrameIsIdempotent(c: Client, f: Frame)
    requires f.op != OpHello
    ensures var once := OnMessage(c, f).client;
            OnMessage(once, f).client == once
  {
    var c' := c.(lastS := f.s);
    if f.op == OpDispatch {
      if f.t == Some("READY") {
        ReadyTwice(c', f);
      } else if f.t == Some("GUILD_CREATE") {
        GuildCreateTwice(c', f.d);
      }
    }
  }

  lemma ReadyTwice(c: Client, f: Frame)
    ensures OnReady(OnReady(c, f).client, f).client == OnReady(c, f).client
  {
    if GuildsOf(f.d).Some? {
      PutAllIdempotent(c.guilds, GuildsOf(f.d).value, GuildId);
    }
  }

  lemma GuildCreateTwice(c: Client, d: Payload)
    ensures OnGuildCreate(OnGuildCreate(c, d).client, d).client == OnGuildCreate(c, d).client
  {
    if d.GuildData? && d.guild.members.Some? {
      if UserlessIndex(d.guild.members.value) < |d.guild.members.value| || d.guild.channels.None? {
        GuildCreateThrowsTwice(c, d.guild);
      } else {
        GuildCreateCompletesTwice(c, d.guild);
      }
    }
  }

  lemma GuildCreateThrowsTwice(c: Client, g: Guild)
    requires g.members.Some?
    requires UserlessIndex(g.members.value) < |g.members.value| || g.channels.None?
    ensures OnGuildCreate(OnGuildCreate(c, GuildData(g)).client, GuildData(g)).client == OnGuildCreate(c, GuildData(g)).client
  {
    var users := PutAll(c.users, MemberUsers(g.members.value), UserId);
    PutAllIdempotent(c.users, MemberUsers(g.members.value), UserId);
    assert OnGuildCreate(c, GuildData(g)).client == c.(users := users);
    assert OnGuildCreate(c.(users := users), GuildData(g)).client == c.(users := users);
  }

  lemma GuildCreateCompletesTwice(c: Client, g: Guild)
    requires g.members.Some? && g.channels.Some?
    requires UserlessIndex(g.members.value) == |g.members.value|
    ensures OnGuildCreate(OnGuildCreate(c, GuildData(g)).client, GuildData(g)).client == OnGuildCreate(c, GuildData(g)).client
  {
    var chs := Stamp(g.channels.value, g.id);
    PutAllIdempotent(c.users, MemberUsers(g.members.value), UserId);
    PutAllIdempotent(c.channels, chs, ChannelId);
  }
}
