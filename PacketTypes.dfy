/**
 * The built-in packets every connection starts and ends with
 * (`packet_types.py` of omu): `ConnectPacket`, `DisconnectPacket` and the
 * four `PACKET_TYPES`.
 *
 * A packet's JSON form is a `Json` value; a JSON object is a map from field
 * names to values. Python does not check the types of the fields `from_json`
 * reads, so a packet's fields keep whatever JSON value they were given. `App`
 * is not part of this model: its `to_json`/`from_json` are functions given
 * to the codec.
 */
module PacketTypes {
  import opened Wrappers

  datatype Json =
    | JNull
    | JBool(b: bool)
    | JNum(n: int)
    | JStr(s: string)
    | JArray(elements: seq<Json>)
    | JObject(fields: map<string, Json>)

  datatype PacketError =
    | KeyError(key: string)     // `json[key]` on a missing key
    | AppError(reason: string)  // whatever `App.from_json` raises

  /** `ConnectPacket(app, token)`; a `str | None` token is a `JStr` or `JNull`. */
  datatype ConnectPacket<A> = ConnectPacket(app: A, token: Json)

  /** `DisconnectPacket(reason)` */
  datatype DisconnectPacket = DisconnectPacket(reason: Json)

  /** `App.to_json` and `App.from_json`. */
  datatype AppCodec<!A> = AppCodec(toJson: A -> Json, fromJson: Json -> Result<A, PacketError>)

  /** `App` round-trips through its JSON form. */
  ghost predicate RoundTrips<A(!new)>(codec: AppCodec<A>) {
    forall a :: codec.fromJson(codec.toJson(a)) == Ok(a)
  }

  /** `ConnectPacket.to_json()` */
  function ConnectToJson<A>(codec: AppCodec<A>, p: ConnectPacket<A>): (r: map<string, Json>)
    ensures r.Keys == {"app", "token"}
  {
    map["app" := codec.toJson(p.app), "token" := p.token]
  }

  /** `ConnectPacket.from_json(json)`: `json["app"]`, then `App.from_json`, then `json["token"]`, in that order. */
  function ConnectFromJson<A>(codec: AppCodec<A>, json: map<string, Json>): (r: Result<ConnectPacket<A>, PacketError>)
    ensures "app" !in json ==> r == Err(KeyError("app"))
    ensures "app" in json && codec.fromJson(json["app"]).Ok? && "token" !in json ==> r == Err(KeyError("token"))
    ensures r.Ok? ==> "app" in json && "token" in json && r.value.token == json["token"]
  {
    if "app" !in json then Err(KeyError("app"))
    else
      match codec.fromJson(json["app"])
      case Err(e) => Err(e)
      case Ok(app) =>
        if "token" !in json then Err(KeyError("token"))
        else Ok(ConnectPacket(app, json["token"]))
  }

  /** `DisconnectPacket.to_json()` */
  function DisconnectToJson(p: DisconnectPacket): (r: map<string, Json>)
    ensures r.Keys == {"reason"}
  {
    map["reason" := p.reason]
  }

  /** `DisconnectPacket.from_json(json)` */
  function DisconnectFromJson(json: map<string, Json>): (r: Result<DisconnectPacket, PacketError>)
    ensures "reason" !in json <==> r == Err(KeyError("reason"))
  {
    if "reason" !in json then Err(KeyError("reason")) else Ok(DisconnectPacket(json["reason"]))
  }

  /** A connect packet comes back from its JSON form, token included (`None` too), given that `App` round-trips. */
  lemma ConnectRoundTrip<A(!new)>(codec: AppCodec<A>, p: ConnectPacket<A>)
    requires RoundTrips(codec)
    ensures ConnectFromJson(codec, ConnectToJson(codec, p)) == Ok(p)
  {
    assert codec.fromJson(codec.toJson(p.app)) == Ok(p.app);
  }

  /** A disconnect packet comes back from its JSON form with the same reason. */
  lemma DisconnectRoundTrip(p: DisconnectPacket)
    ensures DisconnectFromJson(DisconnectToJson(p)) == Ok(p)
  {
  }

  /** A packet type: `JsonPacketType(namespace, name, serializer)`, without the serializer. */
  datatype PacketType = PacketType(namespace: string, name: string)

  /** `PACKET_TYPES` */
  const Connect := PacketType("", "connect")
  const Disconnect := PacketType("", "disconnect")
  const Token := PacketType("", "token")
  const Ready := PacketType("", "ready")

  function BuiltIn(): (r: seq<PacketType>)
    ensures |r| == 4
    ensures forall i | 0 <= i < |r| :: r[i].namespace == ""
    ensures forall i, j | 0 <= i < j < |r| :: r[i].name != r[j].name
  {
    [Connect, Disconnect, Token, Ready]
  }
}
