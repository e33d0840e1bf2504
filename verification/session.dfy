/** A socket's frames handled one after another, each to completion
    (lib/funcord.js:88 registers the handler; lines 108-159 handle one
    frame), and the heartbeat timers those frames start and stop. */
module Session {
  import opened Wrappers
  import opened Json
  import opened Frames
  import opened Discord
  import Outbound

  /** Handles `frames` in order from `c`: the final client and every effect
      in order. A frame whose handling throws keeps what it did before the
      throw, and the next frame is handled as usual. */
  function Run(c: Client, frames: seq<Frame>): (r: (Client, seq<Effect>))
    ensures |frames| == 0 ==> r == (c, [])
    ensures |frames| > 0 ==> r.0.lastS == frames[|frames| - 1].s
    ensures r.0.token == c.token
    decreases |frames|
  {
    if |frames| == 0 then (c, [])
    else
      var step := OnMessage(c, frames[0]);
      var rest := Run(step.client, frames[1..]);
      (rest.0, step.effects + rest.1)
  }

  /** The heartbeat sent after a run of frames carries the `s` of the last
      frame, whatever earlier frames carried: `lastS` is not a maximum. */
  lemma HeartbeatAfterRun(c: Client, frames: seq<Frame>)
    requires |frames| > 0
    ensures Outbound.Decode(Heartbeat(Run(c, frames).0)) == Some(Outbound.Beat(frames[|frames| - 1].s))
  {
  }

  /** The set of running timers, handle to delay, after some effects. */
  function Timers(active: map<nat, Option<int>>, effects: seq<Effect>): map<nat, Option<int>>
    decreases |effects|
  {
    if |effects| == 0 then active
    else
      var next := match effects[0]
                  case ClearInterval(h) => active - {h}
                  case SetInterval(h, delay) => active[h := delay]
                  case _ => active;
      Timers(next, effects[1..])
  }

  lemma {:induction false} TimersAppend(active: map<nat, Option<int>>, a: seq<Effect>, b: seq<Effect>)
    ensures Timers(active, a + b) == Timers(Timers(active, a), b)
    decreases |a|
  {
    if |a| == 0 {
      assert a + b == b;
    } else {
      assert (a + b)[1..] == a[1..] + b;
      var next := match a[0]
                  case ClearInterval(h) => active - {h}
                  case SetInterval(h, delay) => active[h := delay]
                  case _ => active;
      TimersAppend(next, a[1..], b);
    }
  }

  lemma {:induction false} TimersIgnoreEmits(active: map<nat, Option<int>>, effects: seq<Effect>)
    requires forall e :: e in effects ==> e.Emit?
    ensures Timers(active, effects) == active
    decreases |effects|
  {
    if |effects| > 0 {
      assert effects[0] in effects;
      assert forall e :: e in effects[1..] ==> e in effects;
      TimersIgnoreEmits(active, effects[1..]);
    }
  }

  /** The timers the client's `beatInterval` field says are running. */
  function Recorded(c: Client): map<nat, Option<int>> {
    match c.beatInterval
    case None => map[]
    case Some(t) => map[t.handle := t.delay]
  }

  /** If the running timers are the recorded one, they still are after any
      frame: hello stops the recorded timer before it starts and records a
      new one, and no other frame touches timers. */
  lemma OnMessageKeepsTimers(c: Client, f: Frame)
    ensures Timers(Recorded(c), OnMessage(c, f).effects) == Recorded(OnMessage(c, f).client)
  {
    var r := OnMessage(c, f);
    if f.op == OpHello {
      var stop := match c.beatInterval
                  case Some(t) => [ClearInterval(t.handle)]
                  case None => [];
      var tail := [Send(Outbound.IdentifyFrame(c.token)), SetInterval(c.nextHandle, HeartbeatIntervalOf(f.d))];
      assert r.effects == stop + tail;
      TimersAppend(Recorded(c), stop, tail);
      assert Timers(Recorded(c), stop) == map[] by {
        if c.beatInterval.Some? {
          assert stop[1..] == [];
          assert Recorded(c) - {c.beatInterval.value.handle} == map[];
        }
      }
      var start := [SetInterval(c.nextHandle, HeartbeatIntervalOf(f.d))];
      assert tail[1..] == start && start[1..] == [];
      assert Timers(map[], tail) == Timers(map[], start);
      assert Timers(map[], start) == map[c.nextHandle := HeartbeatIntervalOf(f.d)];
      assert r.client.beatInterval == Some(Timer(c.nextHandle, HeartbeatIntervalOf(f.d)));
    } else {
      TimersIgnoreEmits(Recorded(c), r.effects);
    }
  }

  lemma {:induction false} RunKeepsTimers(c: Client, frames: seq<Frame>)
    ensures Timers(Recorded(c), Run(c, frames).1) == Recorded(Run(c, frames).0)
    decreases |frames|
  {
    if |frames| > 0 {
      var step := OnMessage(c, frames[0]);
      OnMessageKeepsTimers(c, frames[0]);
      RunKeepsTimers(step.client, frames[1..]);
      TimersAppend(Recorded(c), step.effects, Run(step.client, frames[1..]).1);
    }
  }

  /** From a new client, whatever frames arrive, at most one heartbeat
      timer is ever running, and it is the one `beatInterval` names. */
  lemma AtMostOneHeartbeatTimer(token: string, frames: seq<Frame>)
    ensures var r := Run(New(token), frames);
      var running := Timers(map[], r.1);
      && |running| <= 1
      && (r.0.beatInterval.None? <==> running == map[])
      && (r.0.beatInterval.Some? ==> running == map[r.0.beatInterval.value.handle := r.0.beatInterval.value.delay])
  {
    RunKeepsTimers(New(token), frames);
  }
}
