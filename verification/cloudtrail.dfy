/** The audit-log side: events, the exact-one lookup, and the two ways an
    identity is read out of an event. The CloudTrail service itself is an
    oracle from lookup attributes to the events it returns. */
module CloudTrail {
  import opened Outcomes

  /** A JSON value as decoded into an untyped Go value. Numbers are kept as
      integers: only whether a member is a string matters here. */
  datatype Json =
    | JNull
    | JBool(b: bool)
    | JNumber(n: int)
    | JString(s: string)
    | JArray(items: seq<Json>)
    | JObject(members: map<string, Json>)

  /** The raw `CloudTrailEvent` text of an event, after parsing. A nil or
      malformed text is `Unparseable`. */
  datatype Payload = Unparseable | Parsed(doc: Json)

  /** An audit event: its top-level `Username` field and its JSON body. */
  datatype Event = Event(username: Option<string>, payload: Payload)

  /** One lookup attribute; every lookup also asks for at most one result. */
  datatype Query = Query(key: string, value: string)

  /** What the service answers to a lookup. */
  datatype Response = ServiceError | Events(events: seq<Event>)

  /** The audit-log service, as a function of the lookup it is asked. */
  type Trail = Query -> Response

  /** The role ARN and username read from an event body. */
  datatype RoleAndUser = RoleAndUser(arn: string, username: string)

  /** Why an identity could not be read. */
  datatype TrailError =
    | LookupFailed(query: Query)
    | NotExactlyOne(count: nat)
    | UnmarshalFailed
    | NoUserIdentity
    | NoArn

  const AccessKeyIdKey := "AccessKeyId"
  const ResourceNameKey := "ResourceName"

  /** Looks up the events matching `q` and accepts the answer only when it
      holds exactly one event. */
  function LookupEvent(trail: Trail, q: Query): (r: Result<Event, TrailError>)
    ensures r.Ok? <==> trail(q).Events? && |trail(q).events| == 1
    ensures r.Ok? ==> trail(q) == Events([r.value])
    ensures trail(q).ServiceError? ==> r == Err(LookupFailed(q))
    ensures trail(q).Events? && |trail(q).events| != 1 ==> r == Err(NotExactlyOne(|trail(q).events|))
  {
    match trail(q)
    case ServiceError => Err(LookupFailed(q))
    case Events(events) =>
      if |events| != 1 then Err(NotExactlyOne(|events|)) else Ok(events[0])
  }

  /** The top-level map obtained by decoding a payload into a
      `map[string]interface{}`: a JSON null leaves the map nil, which reads as
      empty, and any other non-object is a decoding error. */
  function DecodeObject(p: Payload): (r: Result<map<string, Json>, TrailError>)
    ensures r.Ok? <==> p.Parsed? && (p.doc.JObject? || p.doc.JNull?)
    ensures r.Ok? && p.doc.JObject? ==> r.value == p.doc.members
    ensures r.Ok? && p.doc.JNull? ==> r.value == map[]
    ensures r.Err? ==> r.error == UnmarshalFailed
  {
    match p
    case Unparseable => Err(UnmarshalFailed)
    case Parsed(JObject(m)) => Ok(m)
    case Parsed(JNull) => Ok(map[])
    case Parsed(_) => Err(UnmarshalFailed)
  }

  /** The member `k` of `m` when it is a JSON string, as a checked type
      assertion on an untyped value. */
  function StringMember(m: map<string, Json>, k: string): Option<string>
  {
    if k in m && m[k].JString? then Some(m[k].s) else None
  }

  /** Declarative reading of an event body: the role ARN is the string at
      `userIdentity.arn` and the username the string at `userIdentity.userName`,
      or "" when that is missing or not a string. */
  function IdentityOf(e: Event): Option<RoleAndUser>
  {
    match e.payload
    case Parsed(JObject(m)) =>
      if "userIdentity" in m && m["userIdentity"].JObject?
         && "arn" in m["userIdentity"].members && m["userIdentity"].members["arn"].JString?
      then
        var ui := m["userIdentity"].members;
        Some(RoleAndUser(ui["arn"].s, if "userName" in ui && ui["userName"].JString? then ui["userName"].s else ""))
      else None
    case _ => None
  }

  /** Looks up the single event for `q` and reads the role ARN and username
      from its body. */
  function GetRoleAndUser(trail: Trail, q: Query): (r: Result<RoleAndUser, TrailError>)
    ensures r.Ok? <==> trail(q).Events? && |trail(q).events| == 1 && IdentityOf(trail(q).events[0]).Some?
    ensures r.Ok? ==> Some(r.value) == IdentityOf(trail(q).events[0])
    ensures (r.Err? && trail(q).Events? && |trail(q).events| == 1)
      ==> r.error in {UnmarshalFailed, NoUserIdentity, NoArn}
  {
    match LookupEvent(trail, q)
    case Err(e) => Err(e)
    case Ok(event) =>
      match DecodeObject(event.payload)
      case Err(e) => Err(e)
      case Ok(data) =>
        if "userIdentity" !in data || !data["userIdentity"].JObject? then Err(NoUserIdentity)
        else
          var userIdentity := data["userIdentity"].members;
          match StringMember(userIdentity, "arn")
          case None => Err(NoArn)
          case Some(roleArn) =>
            Ok(RoleAndUser(roleArn, StringValue(StringMember(userIdentity, "userName"))))
  }

  /** The lookup that recovers a username from a role ARN. */
  function UserQuery(roleArn: string): Query
  {
    Query(ResourceNameKey, roleArn)
  }

  /** Looks up the single event whose resource name is the role ARN and takes
      the username from its top-level field, nil reading as "". */
  function GetUser(trail: Trail, roleArn: string): (r: Result<string, TrailError>)
    ensures r.Ok? <==> trail(UserQuery(roleArn)).Events? && |trail(UserQuery(roleArn)).events| == 1
    ensures r.Ok? ==> r.value == StringValue(trail(UserQuery(roleArn)).events[0].username)
  {
    match LookupEvent(trail, UserQuery(roleArn))
    case Err(e) => Err(e)
    case Ok(event) => Ok(StringValue(event.username))
  }

  /** Each way an event body can fail to name a role, with the error it
      reports: an undecodable body, a `userIdentity` that is not an object, or
      an `arn` that is not a string. */
  lemma GetRoleAndUserFailures(trail: Trail, q: Query, e: Event)
    requires trail(q) == Events([e])
    ensures e.payload.Unparseable? ==> GetRoleAndUser(trail, q) == Err(UnmarshalFailed)
    ensures (e.payload.Parsed? && !e.payload.doc.JObject? && !e.payload.doc.JNull?)
      ==> GetRoleAndUser(trail, q) == Err(UnmarshalFailed)
    ensures e.payload == Parsed(JNull) ==> GetRoleAndUser(trail, q) == Err(NoUserIdentity)
    ensures (e.payload.Parsed? && e.payload.doc.JObject?
             && ("userIdentity" !in e.payload.doc.members || !e.payload.doc.members["userIdentity"].JObject?))
      ==> GetRoleAndUser(trail, q) == Err(NoUserIdentity)
    ensures (e.payload.Parsed? && e.payload.doc.JObject?
             && "userIdentity" in e.payload.doc.members && e.payload.doc.members["userIdentity"].JObject?
             && StringMember(e.payload.doc.members["userIdentity"].members, "arn").None?)
      ==> GetRoleAndUser(trail, q) == Err(NoArn)
  {
  }

  /** A missing or non-string `userName` is not an error: the username is "",
      whatever else the event body holds. */
  lemma MissingUserNameReadsEmpty(trail: Trail, q: Query, arn: string, m: map<string, Json>, ui: map<string, Json>)
    requires "userIdentity" in m && m["userIdentity"] == JObject(ui)
    requires "arn" in ui && ui["arn"] == JString(arn)
    requires "userName" !in ui || !ui["userName"].JString?
    requires trail(q).Events? && |trail(q).events| == 1
    requires trail(q).events[0].payload == Parsed(JObject(m))
    ensures GetRoleAndUser(trail, q) == Ok(RoleAndUser(arn, ""))
  {
  }

  /** The username lookup never reads the event body: two services whose
      answers differ only in their bodies give the same result. */
  lemma GetUserIgnoresBody(t1: Trail, t2: Trail, roleArn: string)
    requires t1(UserQuery(roleArn)).Events? && t2(UserQuery(roleArn)).Events?
    requires |t1(UserQuery(roleArn)).events| == |t2(UserQuery(roleArn)).events|
    requires forall i :: 0 <= i < |t1(UserQuery(roleArn)).events| ==>
                           t1(UserQuery(roleArn)).events[i].username == t2(UserQuery(roleArn)).events[i].username
    ensures GetUser(t1, roleArn) == GetUser(t2, roleArn)
  {
  }
}
