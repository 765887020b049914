/** The error vocabulary of esi_leap/common/exception.py, in three parts:
    `%`-formatting of message templates (Formatting), the exception classes
    with the base constructor's `code` and `message` defaulting
    (ExceptionClasses), and the raised exceptions as tagged values with
    structured fields (Exceptions). */

/** `msg_fmt % kwargs` over templates made of text and `%(key)s` fields. */
module Formatting {
  import opened Wrappers

  /** A keyword-argument value: the raise sites pass texts; `code` is a number. */
  datatype Value = Str(s: string) | Int(n: int)

  /** A `%`-format string, piece by piece: literal text and `%(key)s`
      placeholders, ending in `End`. */
  datatype Template =
    | End
    | Text(text: string, rest: Template)
    | Hole(key: string, rest: Template)

  /** The keys a template refers to. */
  function FieldsOf(t: Template): set<string>
  {
    match t
    case End => {}
    case Text(_, rest) => FieldsOf(rest)
    case Hole(key, rest) => {key} + FieldsOf(rest)
  }

  /** The decimal text of a natural number. */
  function Digits(n: nat): (r: string)
    ensures |r| > 0 && forall i :: 0 <= i < |r| ==> '0' <= r[i] <= '9'
  {
    var d := ['0' + (n % 10) as char];
    if n < 10 then d else Digits(n / 10) + d
  }

  /** `%s` applied to a value. */
  function Render(v: Value): string
  {
    match v
    case Str(s) => s
    case Int(n) => if n < 0 then "-" + Digits(-n) else Digits(n)
  }

  /** `msg_fmt % kwargs`: fails (Python raises KeyError) exactly when the
      template names a key that `kwargs` lacks; extra keys are ignored. */
  function Format(t: Template, kwargs: map<string, Value>): (r: Option<string>)
    ensures r.Some? <==> FieldsOf(t) <= kwargs.Keys
  {
    match t
    case End => Some("")
    case Text(text, rest) =>
      var tail := Format(rest, kwargs);
      if tail.Some? then Some(text + tail.value) else None
    case Hole(key, rest) =>
      var tail := Format(rest, kwargs);
      if key in kwargs && tail.Some? then Some(Render(kwargs[key]) + tail.value) else None
  }

  /** The unformatted `msg_fmt` text, placeholders included. */
  function Raw(t: Template): string
  {
    match t
    case End => ""
    case Text(text, rest) => text + Raw(rest)
    case Hole(key, rest) => "%(" + key + ")s" + Raw(rest)
  }

  /** Formatting looks only at the keys the template names, so inserting
      `code` (or any other key it does not name) changes nothing. */
  lemma {:induction false} FormatIgnoresOtherKeys(t: Template, kw1: map<string, Value>, kw2: map<string, Value>)
    requires forall k :: k in FieldsOf(t) ==> (k in kw1 <==> k in kw2)
    requires forall k :: k in FieldsOf(t) && k in kw1 ==> kw1[k] == kw2[k]
    ensures Format(t, kw1) == Format(t, kw2)
  {
    match t
    case End =>
    case Text(_, rest) => FormatIgnoresOtherKeys(rest, kw1, kw2);
    case Hole(_, rest) => FormatIgnoresOtherKeys(rest, kw1, kw2);
  }

  /** A template without placeholders formats to its raw text. */
  lemma {:induction false} FormatWithoutFields(t: Template, kwargs: map<string, Value>)
    requires FieldsOf(t) == {}
    ensures Format(t, kwargs) == Some(Raw(t))
  {
    match t
    case End =>
    case Text(_, rest) => FormatWithoutFields(rest, kwargs);
    case Hole(_, _) => assert false;
  }
}

/** The exception classes: ESILeapException and its subclasses, each with
    its `msg_fmt` and `code` class attributes. */
module ExceptionClasses {
  import opened Wrappers
  import opened Formatting

  datatype ExceptionClass =
    | ESILeapException
    | ContractNoPermission
    | ContractDuplicateName
    | ContractNotFound
    | ContractNoOfferUUID
    | OfferNoPermission
    | OfferDuplicateName
    | OfferNotFound
    | OfferNoTimeAvailabilities
    | OfferResourceTimeConflict
    | OfferNotAvailable
    | ProjectNoPermission
    | ResourceNoPermission
    | ResourceTypeUnknown
    | InvalidTimeAPICommand
    | InvalidAvailabilityAPICommand
    | InvalidTimeRange

  // The longest literal parts of the templates, named so that the solver
  // treats them as single values.
  const ConflictText: string :=
    " cannot be created with a start_time and end_time which conflicts with the time range of an existing offer on "
  const TimeCommandText: string :=
    " resource without providing both a valid Start Time and End Time. Start Time must be strictly less than End Time. Got "
  const AvailabilityCommandText: string :=
    "Attempted to get an offer resource without providing both a valid Availability Start Time and Availability End Time. Availability Start Time must be strictly less than Availability End Time. Got "

  /** The `msg_fmt` of each class: its placeholders are exactly the ones
      listed for the class, and `code` is never one of them. */
  function MsgFmt(c: ExceptionClass): (r: Template)
    ensures FieldsOf(r) == Placeholders(c)
    ensures "code" !in FieldsOf(r)
  {
    if c == ESILeapException || c == ContractNoPermission || c == ContractDuplicateName || c == ContractNotFound || c == ContractNoOfferUUID then ContractMsgFmt(c)
    else if c == OfferNoPermission || c == OfferDuplicateName || c == OfferNotFound || c == OfferNoTimeAvailabilities || c == OfferResourceTimeConflict || c == OfferNotAvailable then OfferMsgFmt(c)
    else RequestMsgFmt(c)
  }

  /** The generic and contract messages. */
  function ContractMsgFmt(c: ExceptionClass): (r: Template)
    requires c == ESILeapException || c == ContractNoPermission || c == ContractDuplicateName || c == ContractNotFound || c == ContractNoOfferUUID
    ensures FieldsOf(r) == Placeholders(c)
    ensures "code" !in FieldsOf(r)
  {
    match c
    case ESILeapException =>
      Text("An unknown exception occurred.", End)
    case ContractNoPermission =>
      Text("You do not have permissions on contract ", Hole("contract_uuid", Text(".", End)))
    case ContractDuplicateName =>
      Text("Duplicate contracts with name ", Hole("name", Text(".", End)))
    case ContractNotFound =>
      Text("Contract with name or uuid ", Hole("contract_id", Text(" not found.", End)))
    case _ =>
      Text("Cannot create contract without parameter offer_uuid.", End)
  }

  /** The offer messages. */
  function OfferMsgFmt(c: ExceptionClass): (r: Template)
    requires c == OfferNoPermission || c == OfferDuplicateName || c == OfferNotFound || c == OfferNoTimeAvailabilities || c == OfferResourceTimeConflict || c == OfferNotAvailable
    ensures FieldsOf(r) == Placeholders(c)
    ensures "code" !in FieldsOf(r)
  {
    match c
    case OfferNoPermission =>
      Text("You do not have permissions on offer ", Hole("offer_uuid", Text(".", End)))
    case OfferDuplicateName =>
      Text("Duplicate offers with name ", Hole("name", Text(".", End)))
    case OfferNotFound =>
      Text("Offer with name or uuid ", Hole("offer_uuid", Text(" not found.", End)))
    case OfferNoTimeAvailabilities =>
      Text("Offer ", Hole("offer_uuid", Text(" has no availabilities at given time range ", Hole("start_time", Text(", ", Hole("end_time", Text(".", End)))))))
    case OfferResourceTimeConflict =>
      Text("Offer on ", Hole("resource_type", Text(" ", Hole("resource_uuid", Text(ConflictText, Hole("resource_type", Text(" ", Hole("resource_uuid", Text(".", End)))))))))
    case _ =>
      Text("Offer ", Hole("offer_uuid", Text(" does not have status 'available'. Got offer status '", Hole("status", Text("'.", End)))))
  }

  /** The project, resource and request messages. */
  function RequestMsgFmt(c: ExceptionClass): (r: Template)
    requires c == ProjectNoPermission || c == ResourceNoPermission || c == ResourceTypeUnknown || c == InvalidTimeAPICommand || c == InvalidAvailabilityAPICommand || c == InvalidTimeRange
    ensures FieldsOf(r) == Placeholders(c)
    ensures "code" !in FieldsOf(r)
  {
    match c
    case ProjectNoPermission =>
      Text("You do not have permissions on project ", Hole("project_id", Text(".", End)))
    case ResourceNoPermission =>
      Text("You do not have permissions on ", Hole("resource_type", Text(" ", Hole("resource_uuid", Text(".", End)))))
    case ResourceTypeUnknown =>
      Hole("resource_type", Text(" resource type unknown.", End))
    case InvalidTimeAPICommand =>
      Text("Attempted to get ", Hole("resource", Text(TimeCommandText, Hole("start_time", Text(", ", Hole("end_time", End))))))
    case InvalidAvailabilityAPICommand =>
      Text(AvailabilityCommandText, Hole("a_start", Text(", ", Hole("a_end", End))))
    case _ =>
      Text("Attempted to create ", Hole("resource", Text(" resource with an invalid Start Time ", Hole("start_time", Text(" and End Time ", Hole("end_time", Text(".", End)))))))
  }

  /** The keyword arguments each class's message refers to. */
  function Placeholders(c: ExceptionClass): set<string>
  {
    match c
    case ESILeapException => {}
    case ContractNoPermission => {"contract_uuid"}
    case ContractDuplicateName => {"name"}
    case ContractNotFound => {"contract_id"}
    case ContractNoOfferUUID => {}
    case OfferNoPermission => {"offer_uuid"}
    case OfferDuplicateName => {"name"}
    case OfferNotFound => {"offer_uuid"}
    case OfferNoTimeAvailabilities => {"end_time", "offer_uuid", "start_time"}
    case OfferResourceTimeConflict => {"resource_type", "resource_uuid"}
    case OfferNotAvailable => {"offer_uuid", "status"}
    case ProjectNoPermission => {"project_id"}
    case ResourceNoPermission => {"resource_type", "resource_uuid"}
    case ResourceTypeUnknown => {"resource_type"}
    case InvalidTimeAPICommand => {"end_time", "resource", "start_time"}
    case InvalidAvailabilityAPICommand => {"a_end", "a_start"}
    case InvalidTimeRange => {"end_time", "resource", "start_time"}
  }

  /** `ESILeapException.code` is 500 and no subclass overrides it, so
      every class inherits the base class's code. */
  function Code(c: ExceptionClass): (r: int)
    ensures r == 500
  {
    500
  }

  /** `kwargs` after the constructor's defaulting: a caller-supplied `code`
      is kept, otherwise the class's code is inserted. */
  function WithDefaultCode(kwargs: map<string, Value>, code: int): (r: map<string, Value>)
    ensures "code" in r && r.Keys == kwargs.Keys + {"code"}
    ensures "code" in kwargs ==> r == kwargs
    ensures "code" !in kwargs ==> r["code"] == Int(code)
    ensures forall k :: k in kwargs && k != "code" ==> r[k] == kwargs[k]
  {
    if "code" in kwargs then kwargs else kwargs["code" := Int(code)]
  }

  /** The constructor's message: a non-empty `message` verbatim, otherwise
      `msg_fmt % kwargs`, or the raw `msg_fmt` when formatting fails. */
  function InitMessage(msgFmt: Template, message: Option<string>, kwargs: map<string, Value>): (r: string)
    ensures message.Some? && message.value != "" ==> r == message.value
    ensures !(message.Some? && message.value != "") && FieldsOf(msgFmt) <= kwargs.Keys ==>
      Some(r) == Format(msgFmt, kwargs)
    ensures !(message.Some? && message.value != "") && !(FieldsOf(msgFmt) <= kwargs.Keys) ==>
      r == Raw(msgFmt)
  {
    if message.Some? && message.value != "" then message.value
    else
      var formatted := Format(msgFmt, kwargs);
      if formatted.Some? then formatted.value else Raw(msgFmt)
  }

  /** `ESILeapException.__init__(message, **kwargs)`: the state it assigns,
      for an exception class whose `msg_fmt` and `code` class attributes are
      `msgFmt` and `code` (`MsgFmt(c)` and `Code(c)` for class `c`). The
      `except AttributeError` around reading `code` never fires, since every
      class has a `code`. */
  class LeapException {
    const msgFmt: Template
    const code: int
    var kwargs: map<string, Value>
    var message: string

    constructor (msgFmt: Template, code: int, message: Option<string>, kwargs: map<string, Value>)
      ensures this.msgFmt == msgFmt && this.code == code
      ensures this.kwargs == WithDefaultCode(kwargs, code)
      // the template is formatted with the kwargs that already hold `code`
      ensures this.message == InitMessage(msgFmt, message, this.kwargs)
    {
      this.msgFmt := msgFmt;
      this.code := code;
      var kw := kwargs;
      if "code" !in kw {
        kw := kw["code" := Int(code)];
      }
      this.kwargs := kw;
      var msg := message;
      if msg.None? || msg.value == "" {
        var formatted := Format(msgFmt, kw);
        msg := Some(if formatted.Some? then formatted.value else Raw(msgFmt));
      }
      this.message := msg.value;
    }
  }
}

/** The exceptions the core raises, as tagged values whose fields are the
    keyword arguments of the raise. */
module Exceptions {
  import opened Wrappers
  import opened Formatting
  import ExceptionClasses

  datatype LeapError =
    | UnknownError
    | ContractNoPermission(contractUuid: string)
    | ContractDuplicateName(name: string)
    | ContractNotFound(contractId: string)
    | ContractNoOfferUuid
    | OfferNoPermission(offerUuid: string)
    | OfferDuplicateName(name: string)
    | OfferNotFound(offerUuid: string)
    | OfferNoTimeAvailabilities(offerUuid: string, startTime: string, endTime: string)
    | OfferResourceTimeConflict(resourceType: string, resourceUuid: string)
    | OfferNotAvailable(offerUuid: string, status: string)
    | ProjectNoPermission(projectId: string)
    | ResourceNoPermission(resourceType: string, resourceUuid: string)
    | ResourceTypeUnknown(resourceType: string)
    | InvalidTimeApiCommand(resource: string, startTime: string, endTime: string)
    | InvalidAvailabilityApiCommand(aStart: string, aEnd: string)
    | InvalidTimeRange(resource: string, startTime: string, endTime: string)

  /** What can abort an operation of the core: one of the exceptions above,
      a refusal by the policy engine, a Python AttributeError (a missing
      attribute, or an attribute looked up on `None`), or a Python KeyError. */
  datatype Fault =
    | Leap(error: LeapError)
    | PolicyDenied(rule: string)
    | AttributeMissing(attribute: string)
    | KeyMissing(key: string)

  /** The class each tagged error is raised as. */
  function ClassOf(e: LeapError): ExceptionClasses.ExceptionClass
  {
    match e
    case UnknownError => ExceptionClasses.ESILeapException
    case ContractNoPermission(_) => ExceptionClasses.ContractNoPermission
    case ContractDuplicateName(_) => ExceptionClasses.ContractDuplicateName
    case ContractNotFound(_) => ExceptionClasses.ContractNotFound
    case ContractNoOfferUuid => ExceptionClasses.ContractNoOfferUUID
    case OfferNoPermission(_) => ExceptionClasses.OfferNoPermission
    case OfferDuplicateName(_) => ExceptionClasses.OfferDuplicateName
    case OfferNotFound(_) => ExceptionClasses.OfferNotFound
    case OfferNoTimeAvailabilities(_, _, _) => ExceptionClasses.OfferNoTimeAvailabilities
    case OfferResourceTimeConflict(_, _) => ExceptionClasses.OfferResourceTimeConflict
    case OfferNotAvailable(_, _) => ExceptionClasses.OfferNotAvailable
    case ProjectNoPermission(_) => ExceptionClasses.ProjectNoPermission
    case ResourceNoPermission(_, _) => ExceptionClasses.ResourceNoPermission
    case ResourceTypeUnknown(_) => ExceptionClasses.ResourceTypeUnknown
    case InvalidTimeApiCommand(_, _, _) => ExceptionClasses.InvalidTimeAPICommand
    case InvalidAvailabilityApiCommand(_, _) => ExceptionClasses.InvalidAvailabilityAPICommand
    case InvalidTimeRange(_, _, _) => ExceptionClasses.InvalidTimeRange
  }

  /** The keyword arguments a raise of `e` passes. */
  function Kwargs(e: LeapError): map<string, Value>
  {
    match e
    case UnknownError => map[]
    case ContractNoPermission(u) => map["contract_uuid" := Str(u)]
    case ContractDuplicateName(n) => map["name" := Str(n)]
    case ContractNotFound(id) => map["contract_id" := Str(id)]
    case ContractNoOfferUuid => map[]
    case OfferNoPermission(u) => map["offer_uuid" := Str(u)]
    case OfferDuplicateName(n) => map["name" := Str(n)]
    case OfferNotFound(u) => map["offer_uuid" := Str(u)]
    case OfferNoTimeAvailabilities(u, s, t) =>
      map["offer_uuid" := Str(u), "start_time" := Str(s), "end_time" := Str(t)]
    case OfferResourceTimeConflict(rt, ru) => map["resource_type" := Str(rt), "resource_uuid" := Str(ru)]
    case OfferNotAvailable(u, st) => map["offer_uuid" := Str(u), "status" := Str(st)]
    case ProjectNoPermission(p) => map["project_id" := Str(p)]
    case ResourceNoPermission(rt, ru) => map["resource_type" := Str(rt), "resource_uuid" := Str(ru)]
    case ResourceTypeUnknown(rt) => map["resource_type" := Str(rt)]
    case InvalidTimeApiCommand(r, s, t) => map["resource" := Str(r), "start_time" := Str(s), "end_time" := Str(t)]
    case InvalidAvailabilityApiCommand(s, t) => map["a_start" := Str(s), "a_end" := Str(t)]
    case InvalidTimeRange(r, s, t) => map["resource" := Str(r), "start_time" := Str(s), "end_time" := Str(t)]
  }

  /** Every tagged error passes exactly the placeholders of its class's
      message, and no message names `code`. */
  lemma KwargsMatchTemplate(e: LeapError)
    ensures FieldsOf(ExceptionClasses.MsgFmt(ClassOf(e))) == Kwargs(e).Keys
    ensures "code" !in Kwargs(e).Keys
  {
    KwargsKeys(e);
  }

  /** The keys each raise passes are the placeholders of its class. */
  lemma KwargsKeys(e: LeapError)
    ensures Kwargs(e).Keys == ExceptionClasses.Placeholders(ClassOf(e))
  {
  }

  /** The message an exception raised as `e` carries: the constructor never
      falls back to the raw template, and the `code` it inserts does not
      change the formatted text. */
  function Message(e: LeapError): (r: string)
    ensures var kw := ExceptionClasses.WithDefaultCode(Kwargs(e), ExceptionClasses.Code(ClassOf(e)));
      r == ExceptionClasses.InitMessage(ExceptionClasses.MsgFmt(ClassOf(e)), None, kw)
      && Format(ExceptionClasses.MsgFmt(ClassOf(e)), Kwargs(e)) == Some(r)
  {
    var fmt := ExceptionClasses.MsgFmt(ClassOf(e));
    var kw := ExceptionClasses.WithDefaultCode(Kwargs(e), ExceptionClasses.Code(ClassOf(e)));
    KwargsMatchTemplate(e);
    FormatIgnoresOtherKeys(fmt, Kwargs(e), kw);
    Format(fmt, Kwargs(e)).value
  }
}
