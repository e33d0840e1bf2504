/** JSON values as the client writes them to the gateway socket
    (`JSON.stringify`) and reads them from it (`JSON.parse`). */
module Json {
  import opened Wrappers

  /** A JSON value. Numbers are integers: every number the gateway core
      handles (op codes, sequence numbers, intervals, thresholds) is one. */
  datatype Json =
    | Null
    | Bool(b: bool)
    | Num(n: int)
    | Str(s: string)
    | Arr(items: seq<Json>)
    | Obj(fields: seq<(string, Json)>)

  /** The serialization of one object-literal member `key: v`:
      `JSON.stringify` drops a member whose value is `undefined` (None). */
  function Member(key: string, v: Option<Json>): seq<(string, Json)> {
    match v
    case None => []
    case Some(x) => [(key, x)]
  }

  /** Reads an optional leading member named `key` off a member list: its
      value (None when the list does not start with `key`) and the rest. */
  function ReadMember(fs: seq<(string, Json)>, key: string): (r: (Option<Json>, seq<(string, Json)>))
    ensures fs == Member(key, r.0) + r.1
    ensures |r.1| <= |fs|
  {
    if |fs| > 0 && fs[0].0 == key then (Some(fs[0].1), fs[1..]) else (None, fs)
  }

  /** Reading back the member a literal wrote gives its value and leaves
      the members after it. */
  lemma {:induction false} ReadMemberWritten(key: string, v: Option<Json>, rest: seq<(string, Json)>)
    requires |rest| == 0 || rest[0].0 != key
    ensures ReadMember(Member(key, v) + rest, key) == (v, rest)
  {
    match v
    case None =>
      assert Member(key, v) + rest == rest;
    case Some(x) =>
      assert (Member(key, v) + rest)[1..] == rest;
  }
}
