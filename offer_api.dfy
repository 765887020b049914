/** The v1 offers controller (esi_leap/api/controllers/v1/offer.py): the
    policy checks, the validation and construction of the query filters of
    `get_all`, and the owner defaulting and resource-permission decision of
    `post`. The policy engine is represented by the set of rules it grants
    the caller, and the resource object by the set of projects it reports as
    its admins. */
module OfferApi {
  import opened Wrappers
  import Formatting
  import opened Exceptions

  const GetRule := "esi_leap:offer:get"
  const CreateRule := "esi_leap:offer:create"
  const AdminRule := "esi_leap:offer:offer_admin"

  /** `policy.authorize(rule, cdict, cdict)` for a caller to whom the policy
      engine grants exactly the rules in `granted`. */
  function Authorize(rule: string, granted: set<string>): Outcome<Fault>
  {
    if rule in granted then Pass else Fail(PolicyDenied(rule))
  }

  // ----- get_all -----

  /** A filter value: the text parameters, or a time. */
  datatype FilterValue = Text(text: string) | Time(time: int)

  /** The query parameters of `get_all`; `None` is a parameter not given. */
  datatype Query = Query(
    projectId: Option<string>,
    resourceType: Option<string>,
    resourceUuid: Option<string>,
    startTime: Option<int>,
    endTime: Option<int>,
    status: Option<string>)

  /** Exactly one of the two times is given. A `datetime` is always true, so
      `start_time and end_time is None` holds exactly when only the start is
      given, and symmetrically for the end. */
  predicate HalfSupplied(q: Query)
  {
    (q.startTime.Some? && q.endTime.None?) || (q.endTime.Some? && q.startTime.None?)
  }

  /** `str` of an optional time. */
  function TimeText(t: Option<int>): string
  {
    match t
    case None => "None"
    case Some(n) => Formatting.Render(Formatting.Int(n))
  }

  /** The time check as written: the raise looks up
      `exception.InvalidTimeCommand`, which esi_leap/common/exception.py
      does not define, so the lookup itself raises AttributeError. */
  function TimeCheckAsWritten(q: Query): (r: Outcome<Fault>)
    ensures r.Pass? <==> (q.startTime.Some? <==> q.endTime.Some?)
    ensures r.Fail? ==> r.error == AttributeMissing("InvalidTimeCommand")
  {
    if HalfSupplied(q) then Fail(AttributeMissing("InvalidTimeCommand")) else Pass
  }

  /** The time check as intended: `InvalidTimeAPICommand` about "an offer",
      carrying both times as `str` renders them. Both times or neither pass. */
  function TimeCheck(q: Query): (r: Outcome<Fault>)
    ensures r.Pass? <==> (q.startTime.Some? <==> q.endTime.Some?)
    ensures r.Fail? ==>
      r.error == Leap(InvalidTimeApiCommand("an offer", TimeText(q.startTime), TimeText(q.endTime)))
  {
    if HalfSupplied(q) then
      Fail(Leap(InvalidTimeApiCommand("an offer", TimeText(q.startTime), TimeText(q.endTime))))
    else Pass
  }

  /** The two checks reject the same queries, but the check as written never
      reports one of the service's own errors. */
  lemma TimeCheckAsWrittenMisreports(q: Query)
    ensures TimeCheckAsWritten(q).Fail? <==> TimeCheck(q).Fail?
    ensures TimeCheckAsWritten(q).Fail? ==>
      TimeCheckAsWritten(q).error == AttributeMissing("InvalidTimeCommand") &&
      TimeCheck(q).error.Leap?
  {
  }

  /** A query giving only a start time: the intended check answers with
      `InvalidTimeAPICommand`, the check as written with an AttributeError. */
  lemma StartOnlyMisreported()
    ensures var q := Query(None, None, None, Some(5), None, None);
      TimeCheckAsWritten(q) == Fail(AttributeMissing("InvalidTimeCommand")) &&
      TimeCheck(q) == Fail(Leap(InvalidTimeApiCommand("an offer", "5", "None")))
  {
    assert Formatting.Render(Formatting.Int(5)) == "5";
  }

  function TextOf(v: Option<string>): Option<FilterValue>
  {
    if v.Some? then Some(Text(v.value)) else None
  }

  function TimeOf(v: Option<int>): Option<FilterValue>
  {
    if v.Some? then Some(Time(v.value)) else None
  }

  /** The value of the parameter named `key`; `None` for a name that is not
      one of the six. */
  function Param(q: Query, key: string): Option<FilterValue>
  {
    if key == "project_id" then TextOf(q.projectId)
    else if key == "resource_type" then TextOf(q.resourceType)
    else if key == "resource_uuid" then TextOf(q.resourceUuid)
    else if key == "status" then TextOf(q.status)
    else if key == "start_time" then TimeOf(q.startTime)
    else if key == "end_time" then TimeOf(q.endTime)
    else None
  }

  /** The `possible_filters` dict, in its order: every parameter under its
      name, and every named parameter present. */
  function PossibleFilters(q: Query): (r: seq<(string, Option<FilterValue>)>)
    ensures forall j :: 0 <= j < |r| ==> r[j].1 == Param(q, r[j].0)
    ensures forall k :: Param(q, k).Some? ==> exists j :: 0 <= j < |r| && r[j].0 == k
  {
    var r := [("project_id", TextOf(q.projectId)),
              ("resource_type", TextOf(q.resourceType)),
              ("resource_uuid", TextOf(q.resourceUuid)),
              ("status", TextOf(q.status)),
              ("start_time", TimeOf(q.startTime)),
              ("end_time", TimeOf(q.endTime))];
    assert r[0].0 == "project_id" && r[1].0 == "resource_type" && r[2].0 == "resource_uuid";
    assert r[3].0 == "status" && r[4].0 == "start_time" && r[5].0 == "end_time";
    r
  }

  /** The loop building `filters`: exactly the parameters that are not
      `None`, each under its name with its value. */
  method BuildFilters(q: Query) returns (filters: map<string, FilterValue>)
    ensures forall k :: k in filters <==> Param(q, k).Some?
    ensures forall k :: k in filters ==> Param(q, k) == Some(filters[k])
  {
    var possible := PossibleFilters(q);
    filters := map[];
    var i := 0;
    while i < |possible|
      invariant 0 <= i <= |possible|
      invariant forall k :: k in filters ==> Param(q, k) == Some(filters[k])
      invariant forall j :: 0 <= j < i && possible[j].1.Some? ==> possible[j].0 in filters
    {
      var (k, v) := possible[i];
      if v.Some? {
        filters := filters[k := v.value];
      }
      i := i + 1;
    }
  }

  /** `get_all` up to the database query: the `get` rule is checked first,
      then the times, and the filters handed to `Offer.get_all` are the
      parameters given. The times go through the corrected `TimeCheck`;
      as written, a half-supplied query ends in the AttributeError of
      `TimeCheckAsWritten` instead. */
  method GetAll(q: Query, granted: set<string>) returns (r: Result<map<string, FilterValue>, Fault>)
    ensures GetRule !in granted ==> r == Failure(PolicyDenied(GetRule))
    ensures GetRule in granted && HalfSupplied(q) ==>
      r == Failure(Leap(InvalidTimeApiCommand("an offer", TimeText(q.startTime), TimeText(q.endTime))))
    ensures GetRule in granted && !HalfSupplied(q) ==> r.Success?
    ensures r.Success? ==>
      (forall k :: k in r.value <==> Param(q, k).Some?) &&
      (forall k :: k in r.value ==> Param(q, k) == Some(r.value[k]))
  {
    var auth := Authorize(GetRule, granted);
    if auth.Fail? {
      return Failure(auth.error);
    }
    var times := TimeCheck(q);
    if times.Fail? {
      return Failure(times.error);
    }
    var filters := BuildFilters(q);
    r := Success(filters);
  }

  // ----- post -----

  /** The offer dict after `post`'s defaulting: the requester's project
      when the body names none; every other field as the body gives it. */
  function Owned(body: map<string, string>, requestProject: string): (r: map<string, string>)
    ensures "project_id" in r
    ensures r["project_id"] == if "project_id" in body then body["project_id"] else requestProject
    ensures forall k :: k != "project_id" ==> (k in r <==> k in body)
    ensures forall k :: k in body && k != "project_id" ==> r[k] == body[k]
  {
    if "project_id" in body then body else body["project_id" := requestProject]
  }

  /** `_verify_resource_permission`: passes when the resource reports the
      offer's project as its admin, and otherwise only for a caller granted
      `offer_admin`; a dict without `project_id` raises KeyError. */
  function VerifyResourcePermission(offerDict: map<string, string>, granted: set<string>, admins: set<string>): (r: Outcome<Fault>)
    ensures r.Pass? <==> "project_id" in offerDict && (offerDict["project_id"] in admins || AdminRule in granted)
    ensures r.Fail? ==>
      r.error == if "project_id" in offerDict then PolicyDenied(AdminRule) else KeyMissing("project_id")
  {
    if "project_id" !in offerDict then Fail(KeyMissing("project_id"))
    else if offerDict["project_id"] in admins then Pass
    else Authorize(AdminRule, granted)
  }

  /** `post` up to `Offer.create`: the `create` rule is checked first; a
      body naming another project than the requester's needs `offer_admin`;
      a body naming none is given the requester's; then the resource
      permission is verified. A caller without `offer_admin` can thus only
      offer, for their own project, a resource that project administers. */
  method Post(body: map<string, string>, requestProject: string, granted: set<string>, admins: set<string>)
    returns (r: Result<map<string, string>, Fault>)
    ensures CreateRule !in granted ==> r == Failure(PolicyDenied(CreateRule))
    ensures CreateRule in granted && r.Failure? ==> r == Failure(PolicyDenied(AdminRule))
    ensures r.Success? <==>
      CreateRule in granted &&
      (AdminRule in granted ||
       (Owned(body, requestProject)["project_id"] == requestProject && requestProject in admins))
    ensures r.Success? ==> r.value == Owned(body, requestProject)
  {
    var auth := Authorize(CreateRule, granted);
    if auth.Fail? {
      return Failure(auth.error);
    }
    var offerDict := body;
    if "project_id" in offerDict {
      if offerDict["project_id"] != requestProject {
        auth := Authorize(AdminRule, granted);
        if auth.Fail? {
          return Failure(auth.error);
        }
      }
    } else {
      offerDict := offerDict["project_id" := requestProject];
    }
    var permission := VerifyResourcePermission(offerDict, granted, admins);
    if permission.Fail? {
      return Failure(permission.error);
    }
    r := Success(offerDict);
  }
}
