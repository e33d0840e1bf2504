/** The Discord client's gateway message handler, `Discord.onMessage`
    (lib/funcord.js:108-159), as a pure step from the client's fields and
    one decoded frame to the new fields, the ordered side effects the
    handler performs, and the TypeError it throws, if any. */
module Discord {
  import opened Wrappers
  import opened Json
  import opened Frames
  import opened Cache
  import Outbound

  /** A running `setInterval` timer: its handle and the delay argument it
      was started with (None when `heartbeat_interval` was absent). */
  datatype Timer = Timer(handle: nat, delay: Option<int>)

  /** The client's fields that frame handling reads or writes
      (lib/funcord.js:30-38). `beatInterval` is the heartbeat timer handle;
      `nextHandle` stands for the browser's supply of fresh timer handles. */
  datatype Client = Client(
    token: string,
    lastS: Option<Json>,
    beatInterval: Option<Timer>,
    nextHandle: nat,
    user: Option<User>,
    guilds: map<Id, Guild>,
    users: map<Id, User>,
    channels: map<Id, Channel>)

  /** What the handler does outside its own fields, in the order it does it:
      socket writes, timer calls and events emitted to application listeners. */
  datatype Effect =
    | Send(frame: Json)
    | ClearInterval(handle: nat)
    | SetInterval(handle: nat, delay: Option<int>)
    | Emit(name: Option<string>, event: Frame)

  /** The TypeErrors the model represents: reading a property of
      `undefined`, or calling `forEach` on it. */
  datatype Fault =
    | MembersUndefined             // `e.d.members.forEach`, line 136
    | MemberUserUndefined          // `member.user.id`, line 137
    | ChannelsUndefined            // `e.d.channels.forEach`, line 139
    | PresenceUserUndefined        // `e.d.user.id`, line 146
    | UsersSizeReadOnly            // `users["size"] = ...` in strict code, line 146
    | CachedGuildMembersUndefined  // `guild.members[...]`, line 148

  /** The outcome of handling one frame. When `fault` is set, `client` and
      `effects` are what the handler had done before it threw. */
  datatype Reaction = Reaction(client: Client, effects: seq<Effect>, fault: Option<Fault>)

  /** `new Discord({token})`: sequence 0, no timer, empty caches. */
  function New(token: string): (c: Client)
    ensures c.token == token && c.lastS == Some(Num(0))
    ensures c.beatInterval.None? && c.user.None?
    ensures c.guilds == map[] && c.users == map[] && c.channels == map[]
  {
    Client(token, Some(Num(0)), None, 1, None, map[], map[], map[])
  }

  /** `heartbeat()`: the frame carries `lastS` as it is when the frame is built. */
  function Heartbeat(c: Client): (j: Json)
    ensures Outbound.Decode(j) == Some(Outbound.Beat(c.lastS))
  {
    Outbound.HeartbeatFrame(c.lastS)
  }

  /** The socket writes among some effects, in order. */
  function Sends(effects: seq<Effect>): (frames: seq<Json>)
    ensures |frames| <= |effects|
    ensures forall j :: j in frames <==> Send(j) in effects
  {
    if |effects| == 0 then []
    else
      assert forall e :: e in effects <==> e == effects[0] || e in effects[1..];
      (if effects[0].Send? then [effects[0].frame] else []) + Sends(effects[1..])
  }

  /** The emitted events among some effects, in order. */
  function Emits(effects: seq<Effect>): (events: seq<(Option<string>, Frame)>)
    ensures |events| <= |effects|
    ensures forall n, f :: (n, f) in events <==> Emit(n, f) in effects
  {
    if |effects| == 0 then []
    else
      assert forall e :: e in effects <==> e == effects[0] || e in effects[1..];
      (if effects[0].Emit? then [(effects[0].name, effects[0].event)] else []) + Emits(effects[1..])
  }

  /** `onMessage`: records the frame's `s`, then routes on `op`. Op 11
      (heartbeat ack) only logs, and any op the switch does not name is
      ignored, so both leave the rest untouched. */
  function OnMessage(c: Client, f: Frame): (r: Reaction)
    ensures r.client.lastS == f.s
    ensures r.client.token == c.token
    ensures f.op != OpHello ==> r.client.beatInterval == c.beatInterval && r.client.nextHandle == c.nextHandle
    ensures f.op != OpDispatch ==> r.fault.None?
    ensures f.op != OpHello && f.op != OpDispatch ==> r.effects == []
    ensures f.op != OpHello ==> forall e :: e in r.effects ==> e.Emit?
  {
    var c' := c.(lastS := f.s);
    if f.op == OpHello then OnHello(c', f.d)
    else if f.op == OpDispatch then OnDispatch(c', f)
    else Reaction(c', [], None)
  }

  /** Op 10: stop any running heartbeat timer, identify, and start a new
      timer with the announced interval. */
  function OnHello(c: Client, d: Payload): (r: Reaction)
    ensures r.client == c.(beatInterval := r.client.beatInterval, nextHandle := r.client.nextHandle)
    ensures r.client.beatInterval == Some(Timer(c.nextHandle, HeartbeatIntervalOf(d)))
    ensures r.client.nextHandle > c.nextHandle
    ensures Send(Outbound.IdentifyFrame(c.token)) in r.effects
    ensures c.beatInterval.Some? ==> ClearInterval(c.beatInterval.value.handle) in r.effects
    ensures forall e :: e in r.effects ==> !e.Emit?
    ensures r.fault.None?
  {
    var stop := match c.beatInterval
                case Some(t) => [ClearInterval(t.handle)]
                case None => [];
    var timer := Timer(c.nextHandle, HeartbeatIntervalOf(d));
    Reaction(
      c.(beatInterval := Some(timer), nextHandle := c.nextHandle + 1),
      stop + [Send(Outbound.IdentifyFrame(c.token)), SetInterval(timer.handle, timer.delay)],
      None)
  }

  /** Op 0: route on the event name `t`. Names other than the three the
      cache interprets are re-emitted under their own name with the frame. */
  function OnDispatch(c: Client, f: Frame): (r: Reaction)
    ensures r.client.lastS == c.lastS && r.client.token == c.token
    ensures r.client.beatInterval == c.beatInterval && r.client.nextHandle == c.nextHandle
    ensures forall e :: e in r.effects ==> e.Emit?
    ensures |r.effects| <= 1
  {
    if f.t == Some("READY") then OnReady(c, f)
    else if f.t == Some("GUILD_CREATE") then OnGuildCreate(c, f.d)
    else if f.t == Some("PRESENCE_UPDATE") then OnPresenceUpdate(c, f.d)
    else Reaction(c, [Emit(f.t, f)], None)
  }

  /** READY: remember `d.user`, cache every listed guild under its id, and
      emit READY with the whole frame. */
  function OnReady(c: Client, f: Frame): (r: Reaction)
    ensures r.client == c.(user := r.client.user, guilds := r.client.guilds)
    ensures r.client.user == UserOf(f.d)
    ensures c.guilds.Keys <= r.client.guilds.Keys
    ensures GuildsOf(f.d).Some? ==> forall g :: g in GuildsOf(f.d).value ==> g.id in r.client.guilds
    ensures r.effects == [Emit(Some("READY"), f)] && r.fault.None?
  {
    match GuildsOf(f.d)
    case None => Reaction(c.(user := UserOf(f.d)), [Emit(Some("READY"), f)], None)
    case Some(gs) =>
      PutAllHasAllKeys(c.guilds, gs, GuildId);
      Reaction(c.(user := UserOf(f.d), guilds := PutAll(c.guilds, gs, GuildId)), [Emit(Some("READY"), f)], None)
  }

  /** GUILD_CREATE: cache each member's user (throwing at the first member
      without one), stamp each channel with the guild's id and cache it,
      then cache the payload itself as the guild.
      The channels inside the cached guild are the stamped ones, since the
      source stamps the payload's own channel objects. */
  function OnGuildCreate(c: Client, d: Payload): (r: Reaction)
    ensures r.client == c.(users := r.client.users, channels := r.client.channels, guilds := r.client.guilds)
    ensures r.effects == []
    ensures c.users.Keys <= r.client.users.Keys && c.channels.Keys <= r.client.channels.Keys
    ensures c.guilds.Keys <= r.client.guilds.Keys
    ensures r.fault.None? <==> && d.GuildData? && d.guild.members.Some? && d.guild.channels.Some?
                               && forall m :: m in d.guild.members.value ==> m.user.Some?
    ensures r.fault.None? ==> d.guild.id in r.client.guilds && r.client.guilds[d.guild.id].id == d.guild.id
    ensures r.fault.Some? ==> r.client.channels == c.channels && r.client.guilds == c.guilds
  {
    if !d.GuildData? || d.guild.members.None? then Reaction(c, [], Some(MembersUndefined))
    else
      var g := d.guild;
      var ms := g.members.value;
      var users := PutAll(c.users, MemberUsers(ms), UserId);
      if UserlessIndex(ms) < |ms| then
        assert ms[UserlessIndex(ms)] in ms;
        Reaction(c.(users := users), [], Some(MemberUserUndefined))
      else if g.channels.None? then Reaction(c.(users := users), [], Some(ChannelsUndefined))
      else
        var chs := Stamp(g.channels.value, g.id);
        Reaction(
          c.(users := users,
             channels := PutAll(c.channels, chs, ChannelId),
             guilds := c.guilds[g.id := g.(channels := Some(chs))]),
          [], None)
  }

  /** Some cached guild has no `members` property (a READY stub). */
  predicate HasMemberlessGuild(guilds: map<Id, Guild>) {
    exists id :: id in guilds && guilds[id].members.None?
  }

  /** The one property of a Map whose assignment throws: `size` is an
      accessor without a setter, and the class body is strict code. */
  const MapSize: Id := "size"

  /** PRESENCE_UPDATE: `users[id] = d` writes a plain property on the Map
      object, not an entry, and `... .game == d.game` only compares; so no
      entry changes. What remains observable is the TypeErrors: no user,
      a user whose id is `size`, or a cached guild without `members`. */
  function OnPresenceUpdate(c: Client, d: Payload): (r: Reaction)
    ensures r.client == c && r.effects == []
    ensures r.fault.None? <==> UserOf(d).Some? && UserOf(d).value.id != MapSize && !HasMemberlessGuild(c.guilds)
    ensures r.fault == Some(PresenceUserUndefined) <==> UserOf(d).None?
    ensures r.fault == Some(UsersSizeReadOnly) <==> UserOf(d).Some? && UserOf(d).value.id == MapSize
  {
    if UserOf(d).None? then Reaction(c, [], Some(PresenceUserUndefined))
    else if UserOf(d).value.id == MapSize then Reaction(c, [], Some(UsersSizeReadOnly))
    else if HasMemberlessGuild(c.guilds) then Reaction(c, [], Some(CachedGuildMembersUndefined))
    else Reaction(c, [], None)
  }
}
