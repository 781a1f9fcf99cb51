/**
 What travels over HTTP between the browser and the server: JSON bodies,
 replies with a status code, and the stored city record.
 */
module Http {
  import opened Wrappers

  datatype Json =
    | JNull
    | JBool(b: bool)
    | JNum(n: real)
    | JStr(s: string)
    | JArr(items: seq<Json>)
    | JObj(members: seq<(string, Json)>)

  /** A reply: `res.status(status).json(body)`; `res.json(body)` alone is status 200. */
  datatype Reply = Reply(status: nat, body: Json)

  /** A city as the store keeps it, with the identity the store assigned. */
  datatype CityRecord = CityRecord(id: string, name: string, country: string, latitude: real, longitude: real)

  /** The value of `key` in an object's members; as with JSON.parse, the last duplicate wins. */
  function Lookup(members: seq<(string, Json)>, key: string): (r: Option<Json>)
    ensures r.None? <==> forall i :: 0 <= i < |members| ==> members[i].0 != key
    ensures r.Some? ==> exists i :: 0 <= i < |members| && members[i] == (key, r.value)
                                    && forall j :: i < j < |members| ==> members[j].0 != key
    decreases |members|
  {
    if members == [] then None
    else if members[|members| - 1].0 == key then Some(members[|members| - 1].1)
    else Lookup(members[..|members| - 1], key)
  }

  /** The body `{ message: m }` that every error reply of the server carries. */
  function MessageBody(m: string): Json {
    JObj([("message", JStr(m))])
  }

  function MessageReply(status: nat, m: string): Reply {
    Reply(status, MessageBody(m))
  }

  /** `body.message` when it is a string. */
  function MessageOf(body: Json): Option<string> {
    match body
    case JObj(members) =>
      (match Lookup(members, "message")
       case Some(JStr(s)) => Some(s)
       case _ => None)
    case _ => None
  }

  /** The record as the create route sends it back. */
  function RecordJson(r: CityRecord): Json {
    JObj([("_id", JStr(r.id)), ("name", JStr(r.name)), ("country", JStr(r.country)),
          ("latitude", JNum(r.latitude)), ("longitude", JNum(r.longitude))])
  }

  /** A message body reads back as its message. */
  lemma MessageOfMessageBody(m: string)
    ensures MessageOf(MessageBody(m)) == Some(m)
  {
  }
}
