/**
  backend/src/middleware/validation.ts: the four request schemas and the
  `validateRequest` middleware that checks body, query and route parameters
  in that order and either forwards the request untouched or fails it with
  status 400.

  Each schema is checked the way Joi checks an object with its default
  options: fields in schema order, each field's rules in the order they were
  declared, stopping at the first failure, whose default English message is
  the only detail reported. Whether a string is a UUID is a parameter.
 */
module Validation {
  import opened Outcomes
  import opened Text

  /**
    A request value after decoding: a string, an integer, a number with a
    fractional part, or anything else (null, boolean, object, a string that
    is not a number where a number is expected).
   */
  datatype Value = Str(s: string) | Int(i: int) | Fraction | Other

  /** One part of a request (body, query or route parameters); an absent key is an undefined field. */
  type Part = map<string, Value>

  datatype Rule =
    | StringRule(minLength: nat, maxLength: Option<nat>, uuid: bool)
    | IntegerRule(min: nat, max: Option<nat>)

  datatype Field = Field(name: string, required: bool, rule: Rule)

  type Schema = seq<Field>

  /** `schemas.message`. */
  function MessageSchema(): Schema
  {
    [ Field("text", true, StringRule(1, Some(2000), false)),
      Field("sessionId", false, StringRule(0, None, true)),
      Field("userName", false, StringRule(1, Some(100), false)) ]
  }

  /** `schemas.session`. */
  function SessionSchema(): Schema
  {
    [Field("sessionId", true, StringRule(0, None, true))]
  }

  /** `schemas.sessionCreate`. */
  function SessionCreateSchema(): Schema
  {
    [Field("userName", false, StringRule(1, Some(100), false))]
  }

  /**
    `schemas.pagination`. Its defaults (page 1, limit 20) never reach the
    handlers, because the validated value is discarded.
   */
  function PaginationSchema(): Schema
  {
    [ Field("page", false, IntegerRule(1, None)),
      Field("limit", false, IntegerRule(1, Some(100))) ]
  }

  function Quoted(name: string): string
  {
    "\"" + name + "\""
  }

  /**
    `Number.MAX_SAFE_INTEGER`, 2^53 - 1. Joi refuses a number outside
    -MaxSafeInteger..MaxSafeInteger before it applies any rule.
   */
  const MaxSafeInteger: int := 0x1F_FFFF_FFFF_FFFF

  /** The error for a present value under a rule, if the value breaks it. */
  function RuleError(name: string, rule: Rule, v: Value, isUuid: string -> bool): (e: Option<string>)
    ensures e.None? <==> match rule
      case StringRule(lo, hi, uuid) =>
        v.Str? && v.s != "" && lo <= |v.s| && (hi.Some? ==> |v.s| <= hi.value) && (uuid ==> isUuid(v.s))
      case IntegerRule(lo, hi) =>
        v.Int? && -MaxSafeInteger <= v.i <= MaxSafeInteger && lo <= v.i && (hi.Some? ==> v.i <= hi.value)
  {
    match rule
    case StringRule(lo, hi, uuid) =>
      if !v.Str? then Some(Quoted(name) + " must be a string")
      else if v.s == "" then Some(Quoted(name) + " is not allowed to be empty")
      else if |v.s| < lo then Some(Quoted(name) + " length must be at least " + DecimalString(lo) + " characters long")
      else if hi.Some? && |v.s| > hi.value then
        Some(Quoted(name) + " length must be less than or equal to " + DecimalString(hi.value) + " characters long")
      else if uuid && !isUuid(v.s) then Some(Quoted(name) + " must be a valid GUID")
      else None
    case IntegerRule(lo, hi) =>
      if !v.Int? && !v.Fraction? then Some(Quoted(name) + " must be a number")
      else if v.Int? && (v.i < -MaxSafeInteger || v.i > MaxSafeInteger) then Some(Quoted(name) + " must be a safe number")
      else if v.Fraction? then Some(Quoted(name) + " must be an integer")
      else if v.i < lo then Some(Quoted(name) + " must be greater than or equal to " + DecimalString(lo))
      else if hi.Some? && v.i > hi.value then Some(Quoted(name) + " must be less than or equal to " + DecimalString(hi.value))
      else None
  }

  /** The error for one field of a part: a missing required field, or the first broken rule. */
  function FieldError(f: Field, part: Part, isUuid: string -> bool): Option<string>
  {
    if f.name !in part then
      if f.required then Some(Quoted(f.name) + " is required") else None
    else
      RuleError(f.name, f.rule, part[f.name], isUuid)
  }

  /** Whether a field is acceptable: absent and optional, or present and within its rule. */
  predicate FieldOk(f: Field, part: Part, isUuid: string -> bool)
  {
    FieldError(f, part, isUuid).None?
  }

  /** The first error in schema order, as a detail list of at most one message. */
  function SchemaDetails(schema: Schema, part: Part, isUuid: string -> bool): (details: seq<string>)
    ensures |details| <= 1
    ensures details == [] <==> forall k :: 0 <= k < |schema| ==> FieldOk(schema[k], part, isUuid)
    ensures details != [] ==> exists k :: (0 <= k < |schema| && FieldError(schema[k], part, isUuid) == Some(details[0])
      && forall j :: 0 <= j < k ==> FieldOk(schema[j], part, isUuid))
  {
    if |schema| == 0 then []
    else
      match FieldError(schema[0], part, isUuid)
      case Some(message) => [message]
      case None =>
        var rest := SchemaDetails(schema[1..], part, isUuid);
        assert forall k :: 0 <= k < |schema| - 1 ==> schema[1..][k] == schema[k + 1];
        assert rest != [] ==> exists k :: (0 <= k < |schema| && FieldError(schema[k], part, isUuid) == Some(rest[0])
          && forall j :: 0 <= j < k ==> FieldOk(schema[j], part, isUuid)) by {
          if rest != [] {
            var k :| 0 <= k < |schema| - 1 && FieldError(schema[1..][k], part, isUuid) == Some(rest[0])
              && forall j :: 0 <= j < k ==> FieldOk(schema[1..][j], part, isUuid);
            assert FieldError(schema[k + 1], part, isUuid) == Some(rest[0]);
          }
        }
        rest
  }

  /** Whether a string value of `part[name]`, if present, has length `lo..hi`. */
  predicate OptionalText(part: Part, name: string, lo: nat, hi: nat)
  {
    name in part ==> part[name].Str? && lo <= |part[name].s| <= hi
  }

  /** Whether `part[name]`, if present, is a non-empty string that is a UUID. */
  predicate OptionalUuid(part: Part, name: string, isUuid: string -> bool)
  {
    name in part ==> part[name].Str? && part[name].s != "" && isUuid(part[name].s)
  }

  /** A message body is valid iff `text` has 1..2000 characters and the optional `sessionId` and `userName` are well formed. */
  predicate MessageBodyValid(body: Part, isUuid: string -> bool)
  {
    && "text" in body && body["text"].Str? && 1 <= |body["text"].s| <= 2000
    && OptionalUuid(body, "sessionId", isUuid)
    && OptionalText(body, "userName", 1, 100)
  }

  lemma MessageSchemaAcceptsExactly(body: Part, isUuid: string -> bool)
    ensures SchemaDetails(MessageSchema(), body, isUuid) == [] <==> MessageBodyValid(body, isUuid)
  {
    var schema := MessageSchema();
    assert schema[0].name == "text" && schema[1].name == "sessionId" && schema[2].name == "userName";
    if MessageBodyValid(body, isUuid) {
      assert FieldOk(schema[0], body, isUuid);
      assert FieldOk(schema[1], body, isUuid);
      assert FieldOk(schema[2], body, isUuid);
    } else {
      assert !FieldOk(schema[0], body, isUuid) || !FieldOk(schema[1], body, isUuid) || !FieldOk(schema[2], body, isUuid);
    }
  }

  /** Route parameters are valid iff `sessionId` is present and a UUID. */
  lemma SessionSchemaAcceptsExactly(params: Part, isUuid: string -> bool)
    ensures SchemaDetails(SessionSchema(), params, isUuid) == [] <==>
      "sessionId" in params && params["sessionId"].Str? && params["sessionId"].s != "" && isUuid(params["sessionId"].s)
  {
    assert SessionSchema()[0].name == "sessionId";
  }

  /** A create-session body is valid iff the optional `userName` has 1..100 characters. */
  lemma SessionCreateSchemaAcceptsExactly(body: Part, isUuid: string -> bool)
    ensures SchemaDetails(SessionCreateSchema(), body, isUuid) == [] <==> OptionalText(body, "userName", 1, 100)
  {
    assert SessionCreateSchema()[0].name == "userName";
  }

  /**
    Pagination is valid iff `page`, if given, is a safe integer of at least 1
    and `limit`, if given, an integer in 1..100.
   */
  predicate PaginationValid(query: Part)
  {
    && ("page" in query ==> query["page"].Int? && 1 <= query["page"].i <= MaxSafeInteger)
    && ("limit" in query ==> query["limit"].Int? && 1 <= query["limit"].i <= 100)
  }

  lemma PaginationSchemaAcceptsExactly(query: Part, isUuid: string -> bool)
    ensures SchemaDetails(PaginationSchema(), query, isUuid) == [] <==> PaginationValid(query)
  {
    var schema := PaginationSchema();
    assert schema[0].name == "page" && schema[1].name == "limit";
    if PaginationValid(query) {
      assert FieldOk(schema[0], query, isUuid);
      assert FieldOk(schema[1], query, isUuid);
    } else {
      assert !FieldOk(schema[0], query, isUuid) || !FieldOk(schema[1], query, isUuid);
    }
  }

  /** The parts of a request, in the order they are checked. */
  datatype PartName = BodyPart | QueryPart | ParamsPart

  function Rank(p: PartName): nat
  {
    match p
    case BodyPart => 0
    case QueryPart => 1
    case ParamsPart => 2
  }

  function PartLabel(p: PartName): string
  {
    match p
    case BodyPart => "Body"
    case QueryPart => "Query"
    case ParamsPart => "Params"
  }

  /** The schemas a route passes to `validateRequest`; an absent schema leaves its part unchecked. */
  datatype Schemas = Schemas(body: Option<Schema>, query: Option<Schema>, params: Option<Schema>)

  datatype Request = Request(body: Part, query: Part, params: Part)

  function SchemaFor(schemas: Schemas, p: PartName): Option<Schema>
  {
    match p
    case BodyPart => schemas.body
    case QueryPart => schemas.query
    case ParamsPart => schemas.params
  }

  function PartOf(req: Request, p: PartName): Part
  {
    match p
    case BodyPart => req.body
    case QueryPart => req.query
    case ParamsPart => req.params
  }

  /** Whether part `p` has a schema that rejects it. */
  predicate Rejects(schemas: Schemas, req: Request, p: PartName, isUuid: string -> bool)
  {
    SchemaFor(schemas, p).Some? && SchemaDetails(SchemaFor(schemas, p).value, PartOf(req, p), isUuid) != []
  }

  /** A failed part with its details. */
  datatype PartError = PartError(part: PartName, details: seq<string>)

  function CheckPart(schemas: Schemas, req: Request, p: PartName, isUuid: string -> bool): (r: seq<PartError>)
    ensures |r| <= 1
    ensures r != [] <==> Rejects(schemas, req, p, isUuid)
    ensures r != [] ==> (r[0].part == p
      && r[0].details == SchemaDetails(SchemaFor(schemas, p).value, PartOf(req, p), isUuid))
  {
    match SchemaFor(schemas, p)
    case None => []
    case Some(schema) =>
      var details := SchemaDetails(schema, PartOf(req, p), isUuid);
      if details == [] then [] else [PartError(p, details)]
  }

  /** The failed parts, in the order body, query, params, each reported at most once. */
  function PartErrors(schemas: Schemas, req: Request, isUuid: string -> bool): (errs: seq<PartError>)
    ensures |errs| <= 3
    ensures forall i, j :: 0 <= i < j < |errs| ==> Rank(errs[i].part) < Rank(errs[j].part)
    ensures forall p: PartName :: Rejects(schemas, req, p, isUuid) <==> exists i :: 0 <= i < |errs| && errs[i].part == p
    ensures forall i :: 0 <= i < |errs| ==> (Rejects(schemas, req, errs[i].part, isUuid)
      && errs[i].details == SchemaDetails(SchemaFor(schemas, errs[i].part).value, PartOf(req, errs[i].part), isUuid))
  {
    var b := CheckPart(schemas, req, BodyPart, isUuid);
    var q := CheckPart(schemas, req, QueryPart, isUuid);
    var p := CheckPart(schemas, req, ParamsPart, isUuid);
    var errs := b + q + p;
    PartErrorsPointwise(b, q, p);
    RejectedPartsListed(schemas, req, isUuid, b, q, p);
    errs
  }

  /** Each entry of a concatenation of three at-most-singletons is the head of one of them. */
  lemma PartErrorsPointwise(b: seq<PartError>, q: seq<PartError>, p: seq<PartError>)
    requires |b| <= 1 && |q| <= 1 && |p| <= 1
    ensures forall i :: 0 <= i < |b + q + p| ==>
      (b + q + p)[i] == if i < |b| then b[0] else if i < |b| + |q| then q[0] else p[0]
  {
  }

  lemma RejectedPartsListed(schemas: Schemas, req: Request, isUuid: string -> bool, b: seq<PartError>, q: seq<PartError>, p: seq<PartError>)
    requires b == CheckPart(schemas, req, BodyPart, isUuid)
    requires q == CheckPart(schemas, req, QueryPart, isUuid)
    requires p == CheckPart(schemas, req, ParamsPart, isUuid)
    ensures forall part: PartName :: Rejects(schemas, req, part, isUuid) ==>
      exists i :: 0 <= i < |b + q + p| && (b + q + p)[i].part == part
  {
    var errs := b + q + p;
    forall part: PartName | Rejects(schemas, req, part, isUuid)
      ensures exists i :: 0 <= i < |errs| && errs[i].part == part
    {
      match part
      case BodyPart => assert errs[0] == b[0];
      case QueryPart => assert errs[|b|] == q[0];
      case ParamsPart => assert errs[|b| + |q|] == p[0];
    }
  }

  /** ``${Label}: ${details.join(', ')}``. */
  function Render(e: PartError): string
  {
    PartLabel(e.part) + ": " + Join(", ", e.details)
  }

  /** The line part `p` contributes to a failure message: its label and its first error, if it is rejected. */
  function FailureLine(schemas: Schemas, req: Request, p: PartName, isUuid: string -> bool): seq<string>
  {
    if Rejects(schemas, req, p, isUuid) then
      [PartLabel(p) + ": " + SchemaDetails(SchemaFor(schemas, p).value, PartOf(req, p), isUuid)[0]]
    else
      []
  }

  /** The lines of every rejected part, body first, then query, then params. */
  function FailureLines(schemas: Schemas, req: Request, isUuid: string -> bool): seq<string>
  {
    FailureLine(schemas, req, BodyPart, isUuid) + FailureLine(schemas, req, QueryPart, isUuid)
      + FailureLine(schemas, req, ParamsPart, isUuid)
  }

  /** The pushed `errors` strings: each part error rendered, in order. */
  function RenderAll(errs: seq<PartError>): (r: seq<string>)
    ensures |r| == |errs|
  {
    if |errs| == 0 then [] else [Render(errs[0])] + RenderAll(errs[1..])
  }

  lemma {:induction false} RenderAllConcat(a: seq<PartError>, b: seq<PartError>)
    ensures RenderAll(a + b) == RenderAll(a) + RenderAll(b)
  {
    if |a| > 0 {
      RenderAllConcat(a[1..], b);
      assert (a + b)[0] == a[0];
      assert (a + b)[1..] == a[1..] + b;
      calc {
        RenderAll(a + b);
        [Render(a[0])] + RenderAll(a[1..] + b);
        [Render(a[0])] + (RenderAll(a[1..]) + RenderAll(b));
        ([Render(a[0])] + RenderAll(a[1..])) + RenderAll(b);
        RenderAll(a) + RenderAll(b);
      }
    } else {
      assert a + b == b;
    }
  }

  /** A part's rendered entry is its failure line: a rejected part has exactly one detail. */
  lemma RenderedPart(schemas: Schemas, req: Request, p: PartName, isUuid: string -> bool)
    ensures RenderAll(CheckPart(schemas, req, p, isUuid)) == FailureLine(schemas, req, p, isUuid)
  {
    var c := CheckPart(schemas, req, p, isUuid);
    if c != [] {
      assert |c[0].details| == 1;
      assert Join(", ", c[0].details) == c[0].details[0];
      assert RenderAll(c) == [Render(c[0])];
    }
  }

  /** Rendering the part errors gives the failure lines: one per rejected part, in order. */
  lemma RenderedPartErrors(schemas: Schemas, req: Request, isUuid: string -> bool)
    ensures RenderAll(PartErrors(schemas, req, isUuid)) == FailureLines(schemas, req, isUuid)
  {
    var b := CheckPart(schemas, req, BodyPart, isUuid);
    var q := CheckPart(schemas, req, QueryPart, isUuid);
    var p := CheckPart(schemas, req, ParamsPart, isUuid);
    assert PartErrors(schemas, req, isUuid) == b + q + p;
    RenderAllConcat(b + q, p);
    RenderAllConcat(b, q);
    RenderedPart(schemas, req, BodyPart, isUuid);
    RenderedPart(schemas, req, QueryPart, isUuid);
    RenderedPart(schemas, req, ParamsPart, isUuid);
  }

  /** The outcome of the middleware: the request handed on unchanged, or an error with a status. */
  datatype Verdict = Pass(request: Request) | Fail(status: nat, message: string)

  const ValidationFailedPrefix := "Validation failed: "

  /** `validateRequest(schemas)` applied to a request. */
  function ValidateRequest(schemas: Schemas, req: Request, isUuid: string -> bool): (v: Verdict)
    ensures v.Fail? <==> exists p: PartName :: Rejects(schemas, req, p, isUuid)
    ensures v.Pass? ==> v.request == req
    ensures v.Fail? ==> v.status == 400 && StartsWith(v.message, ValidationFailedPrefix)
    ensures v.Fail? ==> v.message == ValidationFailedPrefix + Join("; ", FailureLines(schemas, req, isUuid))
  {
    var errs := PartErrors(schemas, req, isUuid);
    RenderedPartErrors(schemas, req, isUuid);
    if errs == [] then
      Pass(req)
    else
      assert Rejects(schemas, req, errs[0].part, isUuid);
      StartsWithConcat(ValidationFailedPrefix, Join("; ", RenderAll(errs)));
      Fail(400, ValidationFailedPrefix + Join("; ", RenderAll(errs)))
  }

  /** A part without a schema does not influence the verdict. */
  lemma UncheckedBodyIgnored(schemas: Schemas, req: Request, other: Part, isUuid: string -> bool)
    requires schemas.body.None?
    ensures ValidateRequest(schemas, req.(body := other), isUuid).Pass? <==> ValidateRequest(schemas, req, isUuid).Pass?
  {
    assert forall p: PartName :: Rejects(schemas, req.(body := other), p, isUuid) <==> Rejects(schemas, req, p, isUuid);
  }

  /** When only one part fails, the message names that part and its first error. */
  lemma SingleFailureMessage(schemas: Schemas, req: Request, p: PartName, isUuid: string -> bool)
    requires Rejects(schemas, req, p, isUuid)
    requires forall q: PartName :: q != p ==> !Rejects(schemas, req, q, isUuid)
    ensures var details := SchemaDetails(SchemaFor(schemas, p).value, PartOf(req, p), isUuid);
      ValidateRequest(schemas, req, isUuid) == Fail(400, ValidationFailedPrefix + PartLabel(p) + ": " + details[0])
  {
    var v := ValidateRequest(schemas, req, isUuid);
    assert v.Fail?;
    SoleFailureLine(schemas, req, p, isUuid);
    var lines := FailureLines(schemas, req, isUuid);
    assert lines == [PartLabel(p) + ": " + SchemaDetails(SchemaFor(schemas, p).value, PartOf(req, p), isUuid)[0]];
    assert v.message == ValidationFailedPrefix + lines[0];
    assert v.status == 400;
  }

  /** With one rejected part, the failure lines are that part's line alone. */
  lemma SoleFailureLine(schemas: Schemas, req: Request, p: PartName, isUuid: string -> bool)
    requires Rejects(schemas, req, p, isUuid)
    requires forall q: PartName :: q != p ==> !Rejects(schemas, req, q, isUuid)
    ensures FailureLines(schemas, req, isUuid) == FailureLine(schemas, req, p, isUuid)
  {
    match p
    case BodyPart =>
      assert FailureLine(schemas, req, QueryPart, isUuid) == [];
      assert FailureLine(schemas, req, ParamsPart, isUuid) == [];
    case QueryPart =>
      assert FailureLine(schemas, req, BodyPart, isUuid) == [];
      assert FailureLine(schemas, req, ParamsPart, isUuid) == [];
    case ParamsPart =>
      assert FailureLine(schemas, req, BodyPart, isUuid) == [];
      assert FailureLine(schemas, req, QueryPart, isUuid) == [];
  }
}
