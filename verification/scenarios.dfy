/** Concrete frame sequences traced through the handler. */
module Scenarios {
  import opened Wrappers
  import opened Json
  import opened Frames
  import opened Cache
  import opened Discord
  import opened Session
  import Outbound

  const u1 := User("u1", "alice")
  const g1Stub := Guild("g1", "guild", None, None)
  const c1 := Channel("c1", "general", None)
  const g1 := Guild("g1", "guild", Some([GuildMember(Some(u1), None)]), Some([c1]))

  const hello := Frame(OpHello, Some(Null), None, HelloData(500))
  const ready := Frame(OpDispatch, Some(Num(1)), Some("READY"), ReadyData(Some(u1), Some([g1Stub])))
  const guildCreate := Frame(OpDispatch, Some(Num(2)), Some("GUILD_CREATE"), GuildData(g1))
  const ack := Frame(OpHeartbeatAck, Some(Null), None, OpaqueData)
  const presence := Frame(OpDispatch, Some(Num(3)), Some("PRESENCE_UPDATE"), PresenceData(Some(u1), None))

  const c1Stamped := c1.(guildId := Some("g1"))
  const g1Cached := g1.(channels := Some([c1Stamped]))

  /** Hello, READY, GUILD_CREATE: the client identifies once, runs one
      timer of 500 ms, knows user u1, and caches guild g1 with its member
      and its channel c1 pointing back at g1. */
  lemma HelloReadyGuildCreate(token: string)
    ensures var r := Run(New(token), [hello, ready, guildCreate]);
      && r.0.user == Some(u1)
      && "g1" in r.0.guilds && r.0.guilds["g1"].members == Some([GuildMember(Some(u1), None)])
      && "u1" in r.0.users
      && "c1" in r.0.channels && r.0.channels["c1"].guildId == Some("g1")
      && r.0.beatInterval == Some(Timer(1, Some(500)))
      && r.1 == [Send(Outbound.IdentifyFrame(token)), SetInterval(1, Some(500)), Emit(Some("READY"), ready)]
  {
    var a := OnMessage(New(token), hello);
    AfterHello(token);
    var b := OnMessage(a.client, ready);
    AfterReady(a.client);
    var c := OnMessage(b.client, guildCreate);
    AfterGuildCreate(b.client);
    assert [hello, ready, guildCreate][1..] == [ready, guildCreate];
    assert [ready, guildCreate][1..] == [guildCreate];
    assert [guildCreate][1..] == [];
    assert Run(b.client, [guildCreate]) == (c.client, c.effects + []);
    assert Run(a.client, [ready, guildCreate]) == (c.client, b.effects + (c.effects + []));
  }

  lemma AfterHello(token: string)
    ensures OnMessage(New(token), hello) ==
      Reaction(New(token).(lastS := Some(Null), beatInterval := Some(Timer(1, Some(500))), nextHandle := 2),
               [Send(Outbound.IdentifyFrame(token)), SetInterval(1, Some(500))], None)
  {
  }

  lemma AfterReady(c: Client)
    requires c.guilds == map[]
    ensures OnMessage(c, ready) ==
      Reaction(c.(lastS := Some(Num(1)), user := Some(u1), guilds := map["g1" := g1Stub]),
               [Emit(Some("READY"), ready)], None)
  {
  }

  lemma AfterGuildCreate(c: Client)
    requires c.users == map[] && c.channels == map[]
    ensures OnMessage(c, guildCreate) ==
      Reaction(c.(lastS := Some(Num(2)), users := map["u1" := u1], channels := map["c1" := c1Stamped],
                  guilds := c.guilds["g1" := g1Cached]), [], None)
  {
    assert Stamp([c1], "g1") == [c1Stamped];
    assert MemberUsers([GuildMember(Some(u1), None)]) == [u1];
  }

  /** A heartbeat ack after a dispatch replaces the dispatch's sequence
      number with the ack's null, so the next heartbeat sends `"d": null`. */
  lemma AckResetsHeartbeatSequence(token: string)
    ensures var c := Run(New(token), [ready, ack]).0;
      && c.lastS == Some(Null)
      && Heartbeat(c) == Obj([("op", Num(1)), ("d", Null)])
  {
    assert [ready, ack][1..] == [ack];
  }

  /** A presence update while READY's member-less guild stub is still
      cached throws, and changes nothing but `lastS`. */
  lemma PresenceBeforeGuildCreateThrows(token: string)
    ensures var c := OnMessage(New(token), ready).client;
      var r := OnMessage(c, presence);
      && r.fault == Some(CachedGuildMembersUndefined)
      && r.client == c.(lastS := Some(Num(3)))
  {
    var c := OnMessage(New(token), ready).client;
    assert c.guilds == map["g1" := g1Stub];
    assert "g1" in c.guilds && c.guilds["g1"].members.None?;
  }

  /** A presence update for a user whose id is `size` throws on a fresh
      client, though no guild is cached: the Map's `size` cannot be
      assigned. */
  lemma PresenceForSizeThrows(token: string)
    ensures var f := Frame(OpDispatch, Some(Num(3)), Some("PRESENCE_UPDATE"), PresenceData(Some(User("size", "x")), None));
      var r := OnMessage(New(token), f);
      && r.fault == Some(UsersSizeReadOnly)
      && r.client == New(token).(lastS := Some(Num(3)))
  {
  }
}
