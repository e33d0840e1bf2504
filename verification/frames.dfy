/** Inbound gateway frames as `JSON.parse` hands them to the message
    handler (lib/funcord.js:110), with one payload shape per interpreted
    event and an opaque shape for the rest. */
module Frames {
  import opened Wrappers
  import opened Json

  /** Gateway op codes the handler switches on (lib/funcord.js:112-123). */
  const OpDispatch := 0
  const OpHello := 10
  const OpHeartbeatAck := 11

  /** Snowflake ids travel as strings. */
  type Id = string

  datatype User = User(id: Id, username: string)

  /** `user` is None when the member object has no `user` property. */
  datatype GuildMember = GuildMember(user: Option<User>, nick: Option<string>)

  /** `guildId` is the `guild_id` property the handler stamps on a channel. */
  datatype Channel = Channel(id: Id, name: string, guildId: Option<Id>)

  /** A guild object: a full snapshot carries `members` and `channels`; a
      stub (as listed in READY) may lack them (None = property absent). */
  datatype Guild = Guild(id: Id, name: string, members: Option<seq<GuildMember>>, channels: Option<seq<Channel>>)

  /** The `d` payload of a frame. A payload is a JSON object; a variant
      without some property reads as `undefined` there. */
  datatype Payload =
    | HelloData(heartbeatInterval: int)
    | ReadyData(user: Option<User>, guilds: Option<seq<Guild>>)
    | GuildData(guild: Guild)
    | PresenceData(user: Option<User>, game: Option<Json>)
    | OpaqueData

  /** `{op, d, s, t}`; `s` is whatever JSON value (or absence) the server sent. */
  datatype Frame = Frame(op: int, s: Option<Json>, t: Option<string>, d: Payload)

  /** `d.heartbeat_interval` */
  function HeartbeatIntervalOf(d: Payload): Option<int> {
    if d.HelloData? then Some(d.heartbeatInterval) else None
  }

  /** `d.user`: READY and PRESENCE_UPDATE payloads may carry one. */
  function UserOf(d: Payload): Option<User> {
    match d
    case ReadyData(u, _) => u
    case PresenceData(u, _) => u
    case _ => None
  }

  /** `d.guilds` */
  function GuildsOf(d: Payload): Option<seq<Guild>> {
    if d.ReadyData? then d.guilds else None
  }

  function UserId(u: User): Id { u.id }
  function ChannelId(c: Channel): Id { c.id }
  function GuildId(g: Guild): Id { g.id }
}
