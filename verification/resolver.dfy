/** Resolution of one GuardDuty finding to the identity behind it. Every
    lookup the resolution makes is returned with its result, so that which
    lookups happened can be stated. */
module Resolver {
  import opened Outcomes
  import opened CloudTrail

  /** Placeholder values carried by the sample findings GuardDuty generates. */
  const GeneratedAccessKeyId := "GeneratedFindingAccessKeyId"
  const GeneratedPrincipalId := "GeneratedFindingPrincipalId"

  /** The credential a finding names; either part may be nil. */
  datatype AccessKeyDetails = AccessKeyDetails(accessKeyId: Option<string>, principalId: Option<string>)

  /** Where the API call behind a finding came from. */
  datatype ApiCallContext = ApiCallContext(
    ipAddress: Option<string>,
    serviceName: Option<string>,
    api: Option<string>,
    city: Option<string>,
    country: Option<string>)

  /** A GuardDuty finding, reduced to the fields the resolution reads. */
  datatype Finding = Finding(
    id: Option<string>,
    createdAt: Option<string>,
    accessKeyDetails: Option<AccessKeyDetails>,
    service: Option<ApiCallContext>)

  /** The record printed for a resolved finding. */
  datatype FindingDetail = FindingDetail(
    id: Option<string>,
    createdAt: Option<string>,
    accessKeyId: Option<string>,
    principalId: Option<string>,
    assumedRoleArn: string,
    username: string,
    ipAddress: Option<string>,
    serviceName: Option<string>,
    api: Option<string>,
    city: Option<string>,
    country: Option<string>)

  /** The credential reference chosen to search the audit log with. */
  datatype CredentialRef = AccessKey(id: string) | PrincipalId(id: string) | NoCredential

  /** Why a finding produced no output. */
  datatype SkipReason =
    | NotAUserFinding
    | NoUsableCredential
    | AccessKeyLookupFailed(cause: TrailError)
    | PrincipalLookupFailed(cause: TrailError)
    | EmptyRoleArn
    | UsernameLookupFailed(cause: TrailError)

  /** The result of resolving one finding, with the lookups issued, in order. */
  datatype Resolution = Resolution(outcome: Result<FindingDetail, SkipReason>, queries: seq<Query>)

  /** A reference is usable when it is present, non-empty and not the placeholder. */
  predicate Usable(v: Option<string>, placeholder: string)
  {
    v.Some? && v.value != "" && v.value != placeholder
  }

  /** Chooses the access key when it is usable, else the principal ID when
      that is usable, else nothing. */
  function SelectCredential(d: AccessKeyDetails): (c: CredentialRef)
    ensures c.AccessKey? <==> Usable(d.accessKeyId, GeneratedAccessKeyId)
    ensures c.PrincipalId? <==> !Usable(d.accessKeyId, GeneratedAccessKeyId) && Usable(d.principalId, GeneratedPrincipalId)
    ensures c.AccessKey? ==> d.accessKeyId == Some(c.id)
    ensures c.PrincipalId? ==> d.principalId == Some(c.id)
  {
    var ak := d.accessKeyId;
    var pid := d.principalId;
    if ak != None && ak.value != "" && ak.value != GeneratedAccessKeyId then AccessKey(ak.value)
    else if pid != None && pid.value != "" && pid.value != GeneratedPrincipalId then PrincipalId(pid.value)
    else NoCredential
  }

  /** The lookup attribute for a credential reference: an access key is
      searched as `AccessKeyId`, a principal ID as `ResourceName`. */
  function CredentialQuery(c: CredentialRef): (q: Query)
    requires !c.NoCredential?
    ensures q.value == c.id
    ensures q.key == (if c.AccessKey? then AccessKeyIdKey else ResourceNameKey)
  {
    match c
    case AccessKey(id) => Query(AccessKeyIdKey, id)
    case PrincipalId(id) => Query(ResourceNameKey, id)
  }

  /** The printed record: the finding's own fields with the resolved role
      ARN and username. */
  function DetailOf(f: Finding, roleArn: string, username: string): FindingDetail
  {
    var d := f.accessKeyDetails;
    var s := f.service;
    FindingDetail(
      f.id, f.createdAt,
      if d.Some? then d.value.accessKeyId else None,
      if d.Some? then d.value.principalId else None,
      roleArn, username,
      if s.Some? then s.value.ipAddress else None,
      if s.Some? then s.value.serviceName else None,
      if s.Some? then s.value.api else None,
      if s.Some? then s.value.city else None,
      if s.Some? then s.value.country else None)
  }

  /** The first lookup a finding calls for, if any. */
  function FirstQuery(f: Finding): Option<Query>
  {
    match f.accessKeyDetails
    case None => None
    case Some(d) =>
      var c := SelectCredential(d);
      if c.NoCredential? then None else Some(CredentialQuery(c))
  }

  /** The identity the audit log ties to `q`: the body of its single event,
      read declaratively. */
  function IdentityFor(trail: Trail, q: Query): Option<RoleAndUser>
  {
    if trail(q).Events? && |trail(q).events| == 1 then IdentityOf(trail(q).events[0]) else None
  }

  /** The top-level username of the single event recorded for a role ARN. */
  function TopLevelUsername(trail: Trail, roleArn: string): Option<string>
  {
    var r := trail(UserQuery(roleArn));
    if r.Events? && |r.events| == 1 then Some(StringValue(r.events[0].username)) else None
  }

  /** The identity a finding's first lookup yields, if it makes one. */
  function FirstIdentity(trail: Trail, f: Finding): Option<RoleAndUser>
  {
    if FirstQuery(f).Some? then IdentityFor(trail, FirstQuery(f).value) else None
  }

  /** Resolves one finding: skip findings without credential details or
      without a usable reference; otherwise read the role ARN and username
      from the one event for the reference, skip an empty ARN, and when the
      username is empty ask once more by `ResourceName` = ARN and use that
      event's top-level username. */
  function ResolveFinding(trail: Trail, f: Finding): (res: Resolution)
    ensures |res.queries| <= 2
    ensures res.queries == [] <==> FirstQuery(f).None?
    ensures FirstQuery(f).Some? ==> |res.queries| > 0 && res.queries[0] == FirstQuery(f).value
    ensures |res.queries| == 2 <==>
              FirstIdentity(trail, f).Some? && FirstIdentity(trail, f).value.arn != ""
              && FirstIdentity(trail, f).value.username == ""
    ensures |res.queries| == 2 ==> res.queries[1] == UserQuery(FirstIdentity(trail, f).value.arn)
    ensures res.outcome.Ok? <==>
              FirstIdentity(trail, f).Some? && FirstIdentity(trail, f).value.arn != ""
              && (FirstIdentity(trail, f).value.username != ""
                  || TopLevelUsername(trail, FirstIdentity(trail, f).value.arn).Some?)
    ensures res.outcome.Ok? ==>
              var id := FirstIdentity(trail, f).value;
              res.outcome.value == DetailOf(f, id.arn,
                if id.username != "" then id.username else TopLevelUsername(trail, id.arn).value)
  {
    match f.accessKeyDetails
    case None => Resolution(Err(NotAUserFinding), [])
    case Some(d) =>
      var c := SelectCredential(d);
      if c.NoCredential? then Resolution(Err(NoUsableCredential), [])
      else
        var q := CredentialQuery(c);
        match GetRoleAndUser(trail, q)
        case Err(e) =>
          Resolution(Err(if c.AccessKey? then AccessKeyLookupFailed(e) else PrincipalLookupFailed(e)), [q])
        case Ok(ru) =>
          if ru.arn == "" then Resolution(Err(EmptyRoleArn), [q])
          else if ru.username != "" then Resolution(Ok(DetailOf(f, ru.arn, ru.username)), [q])
          else
            match GetUser(trail, ru.arn)
            case Err(e) => Resolution(Err(UsernameLookupFailed(e)), [q, UserQuery(ru.arn)])
            case Ok(user) => Resolution(Ok(DetailOf(f, ru.arn, user)), [q, UserQuery(ru.arn)])
  }

  /** A finding without credential details, or whose access key and principal
      ID are both missing, empty or placeholders, is skipped with no lookup. */
  lemma SkippedWithoutLookup(trail: Trail, f: Finding)
    requires f.accessKeyDetails.None?
          || (!Usable(f.accessKeyDetails.value.accessKeyId, GeneratedAccessKeyId)
              && !Usable(f.accessKeyDetails.value.principalId, GeneratedPrincipalId))
    ensures ResolveFinding(trail, f).queries == []
    ensures ResolveFinding(trail, f).outcome.Err?
  {
  }

  /** A usable access key is always what the first lookup searches for. */
  lemma AccessKeyTriedFirst(trail: Trail, f: Finding)
    requires f.accessKeyDetails.Some? && Usable(f.accessKeyDetails.value.accessKeyId, GeneratedAccessKeyId)
    ensures ResolveFinding(trail, f).queries[0] == Query(AccessKeyIdKey, f.accessKeyDetails.value.accessKeyId.value)
  {
  }

  /** The principal ID is searched, as a resource name, only when the access
      key is unusable. */
  lemma PrincipalIdAsSecondChoice(trail: Trail, f: Finding)
    requires f.accessKeyDetails.Some?
    requires !Usable(f.accessKeyDetails.value.accessKeyId, GeneratedAccessKeyId)
    requires Usable(f.accessKeyDetails.value.principalId, GeneratedPrincipalId)
    ensures ResolveFinding(trail, f).queries[0] == Query(ResourceNameKey, f.accessKeyDetails.value.principalId.value)
  {
  }

  /** When the access-key lookup fails the finding is skipped: the principal
      ID is never tried and no other lookup follows. */
  lemma NoFallThroughToPrincipal(trail: Trail, f: Finding)
    requires f.accessKeyDetails.Some? && Usable(f.accessKeyDetails.value.accessKeyId, GeneratedAccessKeyId)
    requires GetRoleAndUser(trail, Query(AccessKeyIdKey, f.accessKeyDetails.value.accessKeyId.value)).Err?
    ensures ResolveFinding(trail, f).queries == [Query(AccessKeyIdKey, f.accessKeyDetails.value.accessKeyId.value)]
    ensures ResolveFinding(trail, f).outcome.Err?
    ensures ResolveFinding(trail, f).outcome.error.AccessKeyLookupFailed?
  {
  }

  /** On either path, an identity with an ARN but no username is completed by
      one more lookup by `ResourceName` = ARN, whose top-level username (nil
      reading as "") is the answer; a failed second lookup skips the finding. */
  lemma UsernameFromSecondLookup(trail: Trail, f: Finding, q: Query, arn: string)
    requires FirstQuery(f) == Some(q)
    requires GetRoleAndUser(trail, q) == Ok(RoleAndUser(arn, ""))
    requires arn != ""
    ensures ResolveFinding(trail, f).queries == [q, Query(ResourceNameKey, arn)]
    ensures ResolveFinding(trail, f).outcome.Ok? <==> GetUser(trail, arn).Ok?
    ensures ResolveFinding(trail, f).outcome.Ok? ==>
              ResolveFinding(trail, f).outcome.value.username == StringValue(trail(Query(ResourceNameKey, arn)).events[0].username)
  {
  }

  /** A resolved identity always has a non-empty role ARN and came from a
      usable credential reference. */
  lemma ResolvedIdentityWellFormed(trail: Trail, f: Finding)
    requires ResolveFinding(trail, f).outcome.Ok?
    ensures ResolveFinding(trail, f).outcome.value.assumedRoleArn != ""
    ensures f.accessKeyDetails.Some?
    ensures Usable(f.accessKeyDetails.value.accessKeyId, GeneratedAccessKeyId)
         || Usable(f.accessKeyDetails.value.principalId, GeneratedPrincipalId)
  {
  }

  /** A sample finding whose access key is the placeholder and which has no
      principal ID yields nothing and issues no lookup. */
  lemma SampleFindingScenario(trail: Trail)
    ensures var f := Finding(Some("sample"), None, Some(AccessKeyDetails(Some(GeneratedAccessKeyId), None)), None);
            ResolveFinding(trail, f) == Resolution(Err(NoUsableCredential), [])
  {
  }

  /** An access key whose event names a role but no user is resolved through
      the role's own event, which names the user. */
  lemma AccessKeyScenario(trail: Trail)
    requires trail(Query(AccessKeyIdKey, "AKIA123")) ==
      Events([Event(None, Parsed(JObject(map["userIdentity" := JObject(map["arn" := JString("arn:aws:iam::111:role/X")])])))])
    requires trail(Query(ResourceNameKey, "arn:aws:iam::111:role/X")) == Events([Event(Some("alice"), Unparseable)])
    ensures var f := Finding(Some("f1"), None, Some(AccessKeyDetails(Some("AKIA123"), None)), None);
            var res := ResolveFinding(trail, f);
            && res.outcome.Ok?
            && res.outcome.value.assumedRoleArn == "arn:aws:iam::111:role/X"
            && res.outcome.value.username == "alice"
            && res.queries == [Query(AccessKeyIdKey, "AKIA123"), Query(ResourceNameKey, "arn:aws:iam::111:role/X")]
  {
  }

  /** A response carrying two or more events for the reference makes the
      finding a skip after that one lookup, not a failure of the run. */
  lemma AmbiguousLookupSkips(trail: Trail, f: Finding, q: Query)
    requires FirstQuery(f) == Some(q)
    requires trail(q).Events? && |trail(q).events| >= 2
    ensures ResolveFinding(trail, f).outcome.Err?
    ensures ResolveFinding(trail, f).queries == [q]
  {
  }
}
