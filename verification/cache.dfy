/** The entity cache: the three id-keyed maps the handler fills with
    `Map.prototype.set` inside `forEach` loops (lib/funcord.js:128-143). */
module Cache {
  import opened Wrappers
  import opened Frames

  /** The index of the last element of `xs` whose key is `k`, or -1 if
      there is none. */
  function LastIndex<V>(xs: seq<V>, key: V -> Id, k: Id): (i: int)
    ensures -1 <= i < |xs|
    ensures i >= 0 ==> key(xs[i]) == k
  {
    if |xs| == 0 then -1
    else if key(xs[|xs| - 1]) == k then |xs| - 1
    else LastIndex(xs[..|xs| - 1], key, k)
  }

  /** No element after the last index with key `k` has that key. */
  lemma {:induction false} LastIndexIsLast<V>(xs: seq<V>, key: V -> Id, k: Id)
    ensures forall j :: LastIndex(xs, key, k) < j < |xs| ==> key(xs[j]) != k
    decreases |xs|
  {
    if |xs| > 0 && key(xs[|xs| - 1]) != k {
      var init := xs[..|xs| - 1];
      LastIndexIsLast(init, key, k);
      assert forall j :: 0 <= j < |init| ==> init[j] == xs[j];
    }
  }

  /** An element no later element shares a key with is the last one with
      its key. */
  lemma LastIndexAt<V>(xs: seq<V>, key: V -> Id, i: int)
    requires 0 <= i < |xs|
    requires forall j :: i < j < |xs| ==> key(xs[j]) != key(xs[i])
    ensures LastIndex(xs, key, key(xs[i])) == i
  {
    LastIndexIsLast(xs, key, key(xs[i]));
  }

  /** The last index with key `k` in `x :: xs` is one past its last index in
      `xs`, or the head when `xs` has none. */
  lemma LastIndexCons<V>(xs: seq<V>, key: V -> Id, k: Id)
    requires |xs| > 0
    ensures var i := LastIndex(xs[1..], key, k);
            LastIndex(xs, key, k) == if i >= 0 then i + 1 else if key(xs[0]) == k then 0 else -1
  {
    var i := LastIndex(xs[1..], key, k);
    var l := LastIndex(xs, key, k);
    LastIndexIsLast(xs, key, k);
    LastIndexIsLast(xs[1..], key, k);
    if i >= 0 {
      assert key(xs[i + 1]) == k;
    }
  }

  /** `xs.forEach(x => m.set(key(x), x))`: under every key the map holds
      the last element with that key, and entries no element names are
      kept. */
  function PutAll<V>(m: map<Id, V>, xs: seq<V>, key: V -> Id): (r: map<Id, V>)
    ensures forall k :: k in r <==> k in m || LastIndex(xs, key, k) >= 0
    ensures forall k :: k in r ==> r[k] == (var i := LastIndex(xs, key, k); if i >= 0 then xs[i] else m[k])
    decreases |xs|
  {
    if |xs| == 0 then m
    else
      var r := PutAll(m[key(xs[0]) := xs[0]], xs[1..], key);
      forall k ensures LastIndex(xs, key, k) ==
        (var i := LastIndex(xs[1..], key, k); if i >= 0 then i + 1 else if key(xs[0]) == k then 0 else -1)
      {
        LastIndexCons(xs, key, k);
      }
      r
  }

  /** Setting the same elements again changes nothing. */
  lemma PutAllIdempotent<V>(m: map<Id, V>, xs: seq<V>, key: V -> Id)
    ensures PutAll(PutAll(m, xs, key), xs, key) == PutAll(m, xs, key)
  {
    var once := PutAll(m, xs, key);
    var twice := PutAll(once, xs, key);
    assert twice.Keys == once.Keys;
    forall k | k in twice ensures twice[k] == once[k] {
    }
  }

  /** Every element's key is present after putting the elements. */
  lemma PutAllHasKey<V>(m: map<Id, V>, xs: seq<V>, key: V -> Id, i: int)
    requires 0 <= i < |xs|
    ensures key(xs[i]) in PutAll(m, xs, key)
  {
    LastIndexIsLast(xs, key, key(xs[i]));
  }

  /** The same, for every element of the list at once. */
  lemma PutAllHasAllKeys<V>(m: map<Id, V>, xs: seq<V>, key: V -> Id)
    ensures forall x :: x in xs ==> key(x) in PutAll(m, xs, key)
  {
    forall x | x in xs ensures key(x) in PutAll(m, xs, key) {
      var i :| 0 <= i < |xs| && xs[i] == x;
      PutAllHasKey(m, xs, key, i);
    }
  }

  /** An element no later element shares a key with is what is stored
      under its key. */
  lemma PutAllStores<V>(m: map<Id, V>, xs: seq<V>, key: V -> Id, i: int)
    requires 0 <= i < |xs|
    requires forall j :: i < j < |xs| ==> key(xs[j]) != key(xs[i])
    ensures key(xs[i]) in PutAll(m, xs, key) && PutAll(m, xs, key)[key(xs[i])] == xs[i]
  {
    LastIndexAt(xs, key, i);
  }

  /** A key no element has keeps its old entry, or its absence. */
  lemma PutAllKeeps<V>(m: map<Id, V>, xs: seq<V>, key: V -> Id, k: Id)
    requires forall j :: 0 <= j < |xs| ==> key(xs[j]) != k
    ensures k in PutAll(m, xs, key) <==> k in m
    ensures k in m ==> PutAll(m, xs, key)[k] == m[k]
  {
  }

  /** The index of the first member without a `user`, or the length of
      the list when every member has one. */
  function UserlessIndex(ms: seq<GuildMember>): (n: nat)
    ensures n <= |ms|
    ensures forall i :: 0 <= i < n ==> ms[i].user.Some?
    ensures n < |ms| ==> ms[n].user.None?
  {
    if |ms| == 0 || ms[0].user.None? then 0 else 1 + UserlessIndex(ms[1..])
  }

  /** The users `members.forEach(m => users.set(m.user.id, m.user))` gets
      to store: those of the members before the first one without a user,
      where the loop throws. */
  function MemberUsers(ms: seq<GuildMember>): (us: seq<User>)
    ensures |us| <= |ms|
    ensures forall i :: 0 <= i < |us| ==> ms[i].user == Some(us[i])
    ensures |us| < |ms| ==> ms[|us|].user.None?
  {
    var n := UserlessIndex(ms);
    seq(n, i requires 0 <= i < n => ms[i].user.value)
  }

  /** The users stored before the loop throws are exactly those of the
      members before the first member without a user, all of which have
      one. */
  lemma MemberUsersOfPrefix(ms: seq<GuildMember>)
    ensures var n := UserlessIndex(ms);
      && (forall m :: m in ms[..n] ==> m.user.Some?)
      && MemberUsers(ms[..n]) == MemberUsers(ms)
  {
    var n := UserlessIndex(ms);
    var p := ms[..n];
    forall m | m in p ensures m.user.Some? {
      var i :| 0 <= i < |p| && p[i] == m;
    }
    assert UserlessIndex(p) == n;
  }

  /** `channel.guild_id = guildId` on every channel. */
  function Stamp(chs: seq<Channel>, guildId: Id): seq<Channel> {
    seq(|chs|, i requires 0 <= i < |chs| => chs[i].(guildId := Some(guildId)))
  }

  /** Caching the members' users: every member's user is under its id (the
      last member with an id wins it), and the users of other ids stay. */
  lemma PutMemberUsers(users: map<Id, User>, ms: seq<GuildMember>)
    requires forall m :: m in ms ==> m.user.Some?
    ensures var r := PutAll(users, MemberUsers(ms), UserId);
      && (forall m :: m in ms ==> m.user.value.id in r)
      && (forall i :: 0 <= i < |ms| && (forall j :: i < j < |ms| ==> ms[j].user.value.id != ms[i].user.value.id)
            ==> ms[i].user.value.id in r && r[ms[i].user.value.id] == ms[i].user.value)
      && (forall id :: (forall m :: m in ms ==> m.user.value.id != id) ==>
            (id in r <==> id in users) && (id in users ==> r[id] == users[id]))
  {
    var us := MemberUsers(ms);
    assert |us| == |ms|;
    forall m | m in ms ensures m.user.value.id in PutAll(users, us, UserId) {
      var i :| 0 <= i < |ms| && ms[i] == m;
      PutAllHasKey(users, us, UserId, i);
    }
    forall i | 0 <= i < |ms| && (forall j :: i < j < |ms| ==> ms[j].user.value.id != ms[i].user.value.id)
      ensures ms[i].user.value.id in PutAll(users, us, UserId)
           && PutAll(users, us, UserId)[ms[i].user.value.id] == ms[i].user.value
    {
      PutAllStores(users, us, UserId, i);
    }
    forall id | (forall m :: m in ms ==> m.user.value.id != id)
      ensures (id in PutAll(users, us, UserId) <==> id in users)
           && (id in users ==> PutAll(users, us, UserId)[id] == users[id])
    {
      forall j | 0 <= j < |us| ensures us[j].id != id {
        assert ms[j] in ms;
      }
      PutAllKeeps(users, us, UserId, id);
    }
  }

  /** Caching stamped channels: every channel is under its id carrying the
      guild id (the last channel with an id wins it), and the channels of
      other ids stay. */
  lemma PutStampedChannels(channels: map<Id, Channel>, chs: seq<Channel>, guildId: Id)
    ensures var r := PutAll(channels, Stamp(chs, guildId), ChannelId);
      && (forall ch :: ch in chs ==> ch.id in r)
      && (forall i :: 0 <= i < |chs| && (forall j :: i < j < |chs| ==> chs[j].id != chs[i].id)
            ==> chs[i].id in r && r[chs[i].id] == chs[i].(guildId := Some(guildId)))
      && (forall id :: (forall ch :: ch in chs ==> ch.id != id) ==>
            (id in r <==> id in channels) && (id in channels ==> r[id] == channels[id]))
  {
    var st := Stamp(chs, guildId);
    forall ch | ch in chs ensures ch.id in PutAll(channels, st, ChannelId) {
      var i :| 0 <= i < |chs| && chs[i] == ch;
      PutAllHasKey(channels, st, ChannelId, i);
    }
    forall i | 0 <= i < |chs| && (forall j :: i < j < |chs| ==> chs[j].id != chs[i].id)
      ensures chs[i].id in PutAll(channels, st, ChannelId)
           && PutAll(channels, st, ChannelId)[chs[i].id] == chs[i].(guildId := Some(guildId))
    {
      PutAllStores(channels, st, ChannelId, i);
    }
    forall id | (forall ch :: ch in chs ==> ch.id != id)
      ensures (id in PutAll(channels, st, ChannelId) <==> id in channels)
           && (id in channels ==> PutAll(channels, st, ChannelId)[id] == channels[id])
    {
      forall j | 0 <= j < |st| ensures st[j].id != id {
        assert chs[j] in chs;
      }
      PutAllKeeps(channels, st, ChannelId, id);
    }
  }

  /** Every channel entry that stamping adds points back at the guild. */
  lemma StampedChannelsPointBack(channels: map<Id, Channel>, chs: seq<Channel>, guildId: Id)
    ensures var r := PutAll(channels, Stamp(chs, guildId), ChannelId);
      forall id :: id in r && id !in channels ==> r[id].guildId == Some(guildId)
  {
    var st := Stamp(chs, guildId);
    var r := PutAll(channels, st, ChannelId);
    forall id | id in r && id !in channels ensures r[id].guildId == Some(guildId) {
      var l := LastIndex(st, ChannelId, id);
      assert r[id] == st[l];
    }
  }
}
