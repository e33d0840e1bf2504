# funcord gateway handler, modelled in Dafny

This project models the gateway side of the funcord Discord client
(`lib/funcord.js`). The core is `Discord.onMessage`. It is called once for
each message the gateway socket delivers. It records the frame's sequence
number `s` and then routes on the op code:

- **hello (op 10)** stops the running heartbeat timer, sends the identify
  frame and starts a new timer with the announced interval;
- **heartbeat ack (op 11)** only logs;
- **dispatch (op 0)** routes on the event name `t`:
  - READY stores the user and the listed guild stubs, then emits `READY`;
  - GUILD_CREATE caches the members' users, the channels (each stamped
    with the guild's id) and the guild itself;
  - PRESENCE_UPDATE changes no cache entry;
  - any other name is re-emitted to listeners.

The model is a pure step function, `Discord.OnMessage(client, frame)`. It
returns a `Reaction` with three parts:

- the new client fields (`lastS`, the heartbeat timer, `user` and the
  `guilds`, `users` and `channels` maps);
- the ordered side effects: socket sends, `clearInterval`/`setInterval`
  calls and emitted events;
- the TypeError the handler throws, if any (the throws the model does
  not represent are listed under "Left out"). The client and effects in a
  throwing reaction are what the handler had done before the throw, since
  JavaScript keeps mutations made before an exception.

The four outbound control frames are built as JSON values: heartbeat
(op 1), identify (op 2), status (op 3) and voice state (op 4). Members whose
value is `undefined` are dropped, as `JSON.stringify` drops them. A reader,
`Outbound.Decode`, recognises exactly the frames the builders make. It is
proved inverse to them.

Files, one module each:

- `wrappers.dfy`: `Option`.
- `json.dfy`: JSON values and object members.
- `outbound.dfy`: the outbound frame builders and their reader.
- `frames.dfy`: inbound frames and payloads. `d` has one variant per
  interpreted payload shape plus an opaque variant. A variant that lacks a
  property reads as `undefined` there, as JavaScript's property access does.
- `cache.dfy`: `forEach(x => map.set(id, x))` as `PutAll`, with a
  last-writer-wins characterisation.
- `discord.dfy`: the client fields and the step function.
- `routing.dfy`: what one step does, route by route.
- `session.dfy`: runs of frames, and the timers they leave running.
- `scenarios.dfy`: concrete frame sequences.

## How the handler meets the gateway protocol

- In the Discord gateway protocol a heartbeat carries the sequence number
  of the last dispatch received. The code instead assigns
  `this.lastS = e.s` for every frame, of whatever op (line 111).
  Non-dispatch frames carry `s: null`, so a heartbeat ack resets the number
  and the next heartbeat sends `"d": null`
  (`Scenarios.AckResetsHeartbeatSequence`). A frame without `s` makes the
  next heartbeat omit `d` altogether.
- The handler keeps no connection phase. A dispatch frame that arrives
  before hello is handled like any other.
- PRESENCE_UPDATE writes a plain property on the `users` Map object
  (line 146), not a Map entry. It then compares `game` with `==` instead
  of assigning it (line 149). No cache entry changes. On this frame the
  observable effect is a TypeError in three cases: the payload has no
  `user`; the user's id is `size`, since the Map's `size` has no setter and
  the class body is strict code (`Scenarios.PresenceForSizeThrows`); or a
  cached guild has no `members`, such as a READY stub
  (`Scenarios.PresenceBeforeGuildCreateThrows`).
- The gateway may send op 1 to ask for a heartbeat at once. The switch
  has no case for op 1, so such a frame only overwrites `lastS`.

## Model

| member | source | states |
|---|---|---|
| Outbound.HeartbeatFrame | lib/funcord.js:56-59 | the heartbeat is `{"op": 1, "d": lastS}`, with `d` dropped when `lastS` is undefined; it reads back as exactly that heartbeat command |
| Outbound.IdentifyFrame | lib/funcord.js:115 | the identify frame has op 2 and carries the token, `properties.$browser = "funcord"` and `large_threshold = 50`; it reads back as the identify command for that token |
| Outbound.StatusFrame | lib/funcord.js:215-217 | `setStatus` sends op 3 with `idle_since` and `game`, dropping undefined ones; it reads back as that status command |
| Outbound.VoiceStateFrame | lib/funcord.js:229-240 | `voiceState` sends op 4 with the guild and channel ids, `self_mute` false and `self_deaf` false; it reads back as that voice-state command |
| Outbound.DecodeIsInverse | lib/funcord.js:56-59 | for the heartbeat and the other three builders (lines 115, 216, 230-239), a JSON value reads as a command exactly when it is that command's frame |
| Discord.New | lib/funcord.js:30-38 | a new client has `lastS` 0, no timer, no user and empty guild, user and channel maps |
| Discord.Heartbeat | lib/funcord.js:56-59 | the heartbeat carries the client's `lastS` at the time it is built |
| Discord.OnMessage | lib/funcord.js:108-159 | every frame sets `lastS` to its own `s` and keeps the token; only hello touches the timer; only dispatch can throw; a frame that is neither hello nor dispatch has no effects; every effect of a non-hello frame is an emitted event |
| Discord.OnHello | lib/funcord.js:113-119 | hello changes only the timer fields: the recorded timer becomes a fresh handle with `d.heartbeat_interval`; it sends identify and clears the old timer when there is one; it emits nothing and never throws |
| Discord.OnDispatch | lib/funcord.js:123-157 | dispatch never touches `lastS`, the token or the timer; it sends nothing, and its only effect is at most one emitted event |
| Discord.OnReady | lib/funcord.js:125-133 | READY changes only `user`, to `d.user` (undefined when absent, with the guilds still cached), and `guilds`; it keeps every existing guild id and adds every listed guild's id; it emits exactly `READY` with the whole frame and never throws |
| Discord.OnGuildCreate | lib/funcord.js:134-144 | GUILD_CREATE changes only the three maps and only adds keys; it completes exactly when the payload has `members`, every member has a `user`, and the payload has `channels`, and then it caches the guild under its id; when it throws, channels and guilds are untouched |
| Discord.OnPresenceUpdate | lib/funcord.js:145-152 | PRESENCE_UPDATE returns the client unchanged with no effects; it throws exactly when `d.user` is missing, the user's id is `size` (the Map's read-only `size`), or some cached guild has no `members` |
| Routing.HeartbeatCarriesLatestS | lib/funcord.js:111 | after any frame, whatever its op, `lastS` is that frame's `s` (absent and null included), and the next heartbeat carries it |
| Routing.HelloEffects | lib/funcord.js:113-119 | hello sends exactly one frame, the identify frame; it stops the old timer first when one runs; it ends by starting a timer, which becomes the client's only recorded timer, with `d.heartbeat_interval`; no event, no cache change, no throw |
| Routing.OtherOpsOnlyRecordS | lib/funcord.js:112-122 | heartbeat ack and any op the switch does not name only overwrite `lastS`: no send, no timer, no event, no cache change |
| Routing.ReadyEffects | lib/funcord.js:125-133 | READY sets `user` to `d.user`, undefined when absent; it emits exactly one `READY` event carrying the whole frame; users and channels are unchanged; guilds are unchanged when `d.guilds` is absent |
| Routing.ReadyCachesGuilds | lib/funcord.js:127-131 | READY puts every listed guild under its id; a guild not overridden by a later one with its id is the stored value; entries for ids not listed are unchanged |
| Routing.GuildCreateResult | lib/funcord.js:134-144 | GUILD_CREATE with members that all have users, and with channels, sends and emits nothing and does not throw; its maps are the members' users, the stamped channels and the stamped guild put over the old ones |
| Routing.GuildCreateCachesUsers | lib/funcord.js:136-138 | when every member has a `user`, every member's user is stored under `member.user.id` (the last member with an id wins it); users of other ids are unchanged |
| Routing.GuildCreateCachesChannels | lib/funcord.js:139-142 | every channel is stored under its id with `guild_id` set to `d.id` (the last with an id wins it); channels of other ids are unchanged; every channel entry added points back at the guild |
| Routing.GuildCreateCachesGuild | lib/funcord.js:143 | `guilds[d.id]` becomes the payload itself with its channels stamped; other guild entries are unchanged |
| Routing.GuildCreateFaults | lib/funcord.js:136-139 | without `members` the handler throws before changing anything but `lastS`; at the first member without a `user` it throws after caching the users of the members before it; with every user present but no `channels` it throws after caching them all; channels and guilds are untouched when it throws |
| Routing.PresenceUpdateChangesNothing | lib/funcord.js:145-152 | PRESENCE_UPDATE leaves every field but `lastS` unchanged and has no effects; it throws exactly when `d.user` is missing, its id is `size`, or some cached guild has no `members` |
| Routing.OtherDispatchIsEmitted | lib/funcord.js:153-155 | any other event name causes no cache change and no send; it emits exactly one event, named by `t`, carrying the whole frame |
| Routing.RepeatedFrameIsIdempotent | lib/funcord.js:123-157 | handling any non-hello frame a second time leaves the client as handling it once; in particular a repeated GUILD_CREATE leaves the same maps |
| Cache.PutAll | lib/funcord.js:128-130 | after `forEach(set)`, a key is present iff it was before or some element has it; its value is the last element with that key, else the old value |
| Cache.PutAllIdempotent | lib/funcord.js:136-143 | putting the same elements twice gives the same map as putting them once |
| Cache.PutMemberUsers | lib/funcord.js:136-138 | caching members' users: every member's user id is present, an un-overridden member's user is stored, other ids are unchanged |
| Cache.UserlessIndex | lib/funcord.js:136-138 | the position where the member loop throws: every member before it has a `user`, and the member at it, if any, has none |
| Cache.MemberUsers | lib/funcord.js:136-138 | the users the member loop stores are, in order, those of the members before the first member without a `user`; that member, if any, is where the loop throws |
| Cache.MemberUsersOfPrefix | lib/funcord.js:136-138 | the members before the first user-less one all have users, and caching them stores the same users as the loop that throws |
| Cache.PutStampedChannels | lib/funcord.js:139-142 | caching stamped channels: every channel id is present, an un-overridden channel is stored with the guild id, other ids are unchanged |
| Cache.StampedChannelsPointBack | lib/funcord.js:140-141 | every channel entry added by a GUILD_CREATE carries that guild's id |
| Session.Run | lib/funcord.js:108-111 | frames handled in order, a throwing frame keeping its partial effects; after a non-empty run `lastS` is the last frame's `s` |
| Session.HeartbeatAfterRun | lib/funcord.js:56-59 | the heartbeat after a run carries the last frame's `s`, not the largest `s` seen |
| Session.OnMessageKeepsTimers | lib/funcord.js:114-118 | if the running timers are exactly the client's recorded timer before a frame, they still are after it |
| Session.AtMostOneHeartbeatTimer | lib/funcord.js:114-118 | from a new client, after any frames, at most one heartbeat timer runs; it is the one the client records |
| Scenarios.HelloReadyGuildCreate | lib/funcord.js:113-143 | hello, READY and GUILD_CREATE in turn give: one identify send, one 500 ms timer, user u1, guild g1 cached, and channel c1 carrying guild id g1 |
| Scenarios.AckResetsHeartbeatSequence | lib/funcord.js:111 | an ack with `s: null` after a dispatch makes the next heartbeat `{"op": 1, "d": null}` |
| Scenarios.PresenceBeforeGuildCreateThrows | lib/funcord.js:145-148 | a presence update while READY's member-less guild stub is cached throws and changes nothing but `lastS` |
| Scenarios.PresenceForSizeThrows | lib/funcord.js:146 | a presence update for a user whose id is `size` throws even on a fresh client, and changes nothing but `lastS` |

## Left out

- The `EventEmitter` (lines 3-15) dispatches DOM `CustomEvent`s on
  `window`. Emitted events are modelled as `Emit(name, frame)` effects;
  listeners and their delivery are not modelled. The emitted name is `t`
  as received. The string coercion `CustomEvent` applies to a missing `t`
  is not modelled.
- `callAPI`, `sendMessage`, `editMessage`, `deleteMessage` and
  `startTyping` (lines 68-79, 176-205, 223-227) are asynchronous `fetch`
  calls.
- `login`, `logout` and `onDisconnect` (lines 84-101, 166-168) create and
  close the WebSocket. `onDisconnect` only logs.
- `log` (lines 45-50) is console output. The model assumes `debug` is off.
  With debug on, `log` refers to a global `client` the file never
  declares. Unless the embedding page defines one, the calls at lines 57,
  121 and 135 would throw there.
- `JSON.parse` (line 110) is not modelled: frames arrive already decoded.
  A `d` that is a primitive other than `null` reads `undefined` for every
  property. It behaves as `OpaqueData`: nothing throws on hello, ack or
  READY, GUILD_CREATE throws at line 136 and PRESENCE_UPDATE at line 146.
- A `d` that is `null` or absent cannot be expressed. On such a frame the handler
  throws at line 118 on hello, after clearing the old timer (line 114) and
  sending identify (line 115), so `beatInterval` is left naming a stopped
  timer. It throws at line 126 on READY, at line 135 on GUILD_CREATE (the
  `e.d.id` argument of `log` is evaluated even with debug off) and at
  line 146 on PRESENCE_UPDATE. It throws nowhere on ack, unknown ops or
  other dispatch events.
- A `null` element of `d.guilds` (line 129), `d.members` (line 137) or
  `d.channels` (line 140) throws inside the loop, after the elements
  before it are cached. Lists of `null` cannot be expressed. A member
  without a `user` is modelled, as the `MemberUserUndefined` fault, and so
  are READY and PRESENCE_UPDATE payloads without a `user`.
- A GUILD_CREATE payload without `id` cannot be expressed: `Guild.id` is
  a string. On such a payload lines 140 and 143 would stamp `guild_id` as
  `undefined` and cache the guild under the key `undefined`.
- Most payload properties the handler never reads are not represented.
  Only the names `User.username`, `GuildMember.nick`, `Channel.name` and
  `Guild.name` are kept. They stand for the rest of each object, which the
  handler caches whole.
- Timers firing over time are not modelled. `Discord.Heartbeat` is the
  frame a fire would send. The delay is recorded as the raw
  `heartbeat_interval` (None when absent). The browser's coercion and
  clamping of that delay are not modelled.
- Timer handles come from the client's `nextHandle` counter. It stands in
  for the browser's supply of fresh handles.
- Discord.OnPresenceUpdate: assumes user ids are snowflakes that name no
  property of a Map or of `Object.prototype`, apart from `size`, which is
  modelled. Line 146 writes `users[id] = d` as a plain property on the Map
  object, and that property is not modelled. For an id of `set` it would
  hide `Map.prototype.set`, and for `__proto__` it would replace the Map's
  prototype. Either way the next GUILD_CREATE with a member would throw at
  line 137, where the model caches the users.
- Routing.PresenceUpdateChangesNothing: "changes nothing" is about Map
  entries and the client's other fields. It does not cover the plain
  property line 146 leaves on the Map, which breaks later frames for the
  ids `set` and `__proto__`, as described above.
- Line 148 looks up `guild.members[id]`. Its result only feeds a `==`
  whose value is discarded, so the model keeps only the TypeError when
  `members` is missing.
- Map insertion order is not modelled: Dafny maps are unordered. Nothing
  in the handler depends on the order beyond which guild a TypeError is
  raised at.
- The token is modelled as a string. An `options.token` that is
  `undefined` would make `JSON.stringify` drop it from the identify frame;
  that case is not modelled.
- JSON numbers are integers, so floating point is not modelled. The
  arguments of `setStatus` and `voiceState` are JSON values or
  `undefined`. Functions and other non-JSON values are not modelled.
