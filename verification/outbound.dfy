/** The control frames the client writes to the gateway socket
    (lib/funcord.js:56-59, 115, 216, 229-240), each built as the object
    literal the source passes to `JSON.stringify`, and a reader that
    recognises exactly those frames again. */
module Outbound {
  import opened Wrappers
  import opened Json

  /** Gateway op codes the client sends. */
  const OpHeartbeat := 1
  const OpIdentify := 2
  const OpStatusUpdate := 3
  const OpVoiceStateUpdate := 4

  /** The fixed identify properties. */
  const Browser := "funcord"
  const LargeThreshold := 50

  /** What an outbound frame asks of the server. `None` arguments are
      JavaScript's `undefined`, which serialization drops. */
  datatype Command =
    | Beat(lastS: Option<Json>)
    | Identify(token: string)
    | StatusUpdate(idleSince: Option<Json>, game: Option<Json>)
    | VoiceStateUpdate(guildId: Option<Json>, channelId: Option<Json>)

  /** The op code of a frame, when it has one up front. */
  function OpOf(j: Json): Option<int> {
    if j.Obj? && |j.fields| > 0 && j.fields[0].0 == "op" && j.fields[0].1.Num?
    then Some(j.fields[0].1.n) else None
  }

  /** The heartbeat: op 1 with the last sequence number as `d`; the `d`
      member is dropped when that number is undefined. */
  function HeartbeatFrame(lastS: Option<Json>): (j: Json)
    ensures OpOf(j) == Some(OpHeartbeat)
    ensures Decode(j) == Some(Beat(lastS))
  {
    var j := Obj([("op", Num(OpHeartbeat))] + Member("d", lastS));
    ReadMemberWritten("d", lastS, []);
    assert j.fields[1..] == Member("d", lastS) + [];
    j
  }

  /** Identify: op 2 with the token, the declared browser property and the
      large-guild threshold. */
  function IdentifyFrame(token: string): (j: Json)
    ensures OpOf(j) == Some(OpIdentify)
    ensures Decode(j) == Some(Identify(token))
  {
    var j := Obj([("op", Num(OpIdentify)), ("d", IdentifyPayload(token))]);
    ReadMemberWritten("d", Some(IdentifyPayload(token)), []);
    assert j.fields[1..] == Member("d", Some(IdentifyPayload(token))) + [];
    j
  }

  function IdentifyPayload(token: string): Json {
    Obj([("token", Str(token)),
         ("properties", Obj([("$browser", Str(Browser))])),
         ("large_threshold", Num(LargeThreshold))])
  }

  /** Status update: op 3 with the idle time and the game, each dropped
      when undefined. */
  function StatusFrame(idle: Option<Json>, game: Option<Json>): (j: Json)
    ensures OpOf(j) == Some(OpStatusUpdate)
    ensures Decode(j) == Some(StatusUpdate(idle, game))
  {
    var d := Obj(Member("idle_since", idle) + Member("game", game));
    var j := Obj([("op", Num(OpStatusUpdate)), ("d", d)]);
    ReadMemberWritten("d", Some(d), []);
    assert j.fields[1..] == Member("d", Some(d)) + [];
    ReadMemberWritten("idle_since", idle, Member("game", game));
    ReadMemberWritten("game", game, []);
    assert Member("game", game) == Member("game", game) + [];
    j
  }

  /** `voiceState(guild, channel)`: op 4, never muted or deafened. */
  function VoiceStateFrame(guild: Option<Json>, channel: Option<Json>): (j: Json)
    ensures OpOf(j) == Some(OpVoiceStateUpdate)
    ensures Decode(j) == Some(VoiceStateUpdate(guild, channel))
  {
    var d := Obj(Member("guild_id", guild) + Member("channel_id", channel) + VoiceFlags);
    var j := Obj([("op", Num(OpVoiceStateUpdate)), ("d", d)]);
    ReadMemberWritten("d", Some(d), []);
    assert j.fields[1..] == Member("d", Some(d)) + [];
    assert d.fields == Member("guild_id", guild) + (Member("channel_id", channel) + VoiceFlags);
    ReadMemberWritten("guild_id", guild, Member("channel_id", channel) + VoiceFlags);
    ReadMemberWritten("channel_id", channel, VoiceFlags);
    j
  }

  /** The client never joins voice muted or deafened. */
  const VoiceFlags: seq<(string, Json)> := [("self_mute", Bool(false)), ("self_deaf", Bool(false))]

  function Encode(c: Command): Json {
    match c
    case Beat(s) => HeartbeatFrame(s)
    case Identify(token) => IdentifyFrame(token)
    case StatusUpdate(idle, game) => StatusFrame(idle, game)
    case VoiceStateUpdate(guild, channel) => VoiceStateFrame(guild, channel)
  }

  /** Recognises a frame of exactly the shape one of the builders produces. */
  function Decode(j: Json): Option<Command> {
    if !j.Obj? || |j.fields| == 0 || j.fields[0].0 != "op" then None
    else
      var (d, rest) := ReadMember(j.fields[1..], "d");
      if rest != [] then None
      else if j.fields[0].1 == Num(OpHeartbeat) then Some(Beat(d))
      else if d.None? || !d.value.Obj? then None
      else if j.fields[0].1 == Num(OpIdentify) then DecodeIdentify(d.value.fields)
      else if j.fields[0].1 == Num(OpStatusUpdate) then DecodeStatus(d.value.fields)
      else if j.fields[0].1 == Num(OpVoiceStateUpdate) then DecodeVoiceState(d.value.fields)
      else None
  }

  function DecodeIdentify(fs: seq<(string, Json)>): Option<Command> {
    if |fs| == 3 && fs[0].0 == "token" && fs[0].1.Str? && fs[1..] == [("properties", Obj([("$browser", Str("funcord"))])), ("large_threshold", Num(50))]
    then Some(Identify(fs[0].1.s)) else None
  }

  function DecodeStatus(fs: seq<(string, Json)>): Option<Command> {
    var (idle, rest) := ReadMember(fs, "idle_since");
    var (game, rest') := ReadMember(rest, "game");
    if rest' == [] then Some(StatusUpdate(idle, game)) else None
  }

  function DecodeVoiceState(fs: seq<(string, Json)>): Option<Command> {
    var (guild, rest) := ReadMember(fs, "guild_id");
    var (channel, rest') := ReadMember(rest, "channel_id");
    if rest' == [("self_mute", Bool(false)), ("self_deaf", Bool(false))]
    then Some(VoiceStateUpdate(guild, channel)) else None
  }

  /** The reader and the builders are inverse: a frame is recognised as a
      command exactly when it is that command's frame. */
  lemma DecodeIsInverse(j: Json, c: Command)
    ensures Decode(j) == Some(c) <==> j == Encode(c)
  {
    if Decode(j) == Some(c) {
      var (d, rest) := ReadMember(j.fields[1..], "d");
      assert j.fields == [j.fields[0]] + j.fields[1..];
      match c
      case Beat(s) => {}
      case Identify(token) => {
        var fs := d.value.fields;
        assert fs == [fs[0]] + fs[1..];
        assert d.value == IdentifyPayload(token);
      }
      case StatusUpdate(idle, game) => {}
      case VoiceStateUpdate(guild, channel) => {}
    }
  }
}
