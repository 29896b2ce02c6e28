/**
 * Request validation: the schemas of the auth and post routes and the
 * `validate` middleware that turns a schema failure into a 400 response.
 * The email and UUID formats are given as predicates, not written out.
 */
module Validation {
  import opened Wrappers
  import opened Strings
  import opened Http

  /** A JSON value where a string is expected; anything else is named by its type. */
  datatype Value = Str(s: string) | NonString(typeName: string)

  type Object = map<string, Value>

  /** `{ body, query, params }` as handed to `schema.parse`. */
  datatype Request = Request(body: Object, query: Object, params: Object)

  /** A refinement of `z.string()`, with the message it reports. */
  datatype Check =
    | Email(message: string)
    | MinLength(bound: nat, message: string)
    | MaxLength(bound: nat, message: string)
    | Uuid(message: string)

  /** `name: z.string()…` with `.optional()` when `optional`. */
  datatype Field = Field(name: string, optional: bool, checks: seq<Check>)

  /** `part: z.object({ …fields })` where `part` is `body`, `query` or `params`. */
  datatype Part = Part(name: string, fields: seq<Field>)

  datatype Schema = Schema(parts: seq<Part>)

  /** One zod issue: the path to the offending value and its message. */
  datatype Issue = Issue(path: seq<string>, message: string)

  /** zod's email and UUID (text form of section 3 of RFC 4122) format tests. */
  datatype Formats = Formats(isEmail: string -> bool, isUuid: string -> bool)

  /** zod's default messages for `.min(n)` and `.max(n)`. */
  function MinMessage(n: nat): string {
    "String must contain at least " + NatToString(n) + " character(s)"
  }

  function MaxMessage(n: nat): string {
    "String must contain at most " + NatToString(n) + " character(s)"
  }

  const RegisterSchema := Schema([Part("body", [
    Field("email", false, [Email("Invalid email format")]),
    Field("password", false, [MinLength(8, "Password must be at least 8 characters")]),
    Field("name", false, [MinLength(2, "Name must be at least 2 characters")])])])

  const LoginSchema := Schema([Part("body", [
    Field("email", false, [Email("Invalid email format")]),
    Field("password", false, [MinLength(1, "Password is required")])])])

  const CreatePostSchema := Schema([Part("body", [
    Field("title", false, [MinLength(1, "Title is required"), MaxLength(255, MaxMessage(255))]),
    Field("content", true, [])])])

  const UpdatePostSchema := Schema([
    Part("params", [Field("id", false, [Uuid("Invalid post ID")])]),
    Part("body", [
      Field("title", true, [MinLength(1, MinMessage(1)), MaxLength(255, MaxMessage(255))]),
      Field("content", true, [])])])

  const GetPostSchema := Schema([Part("params", [Field("id", false, [Uuid("Invalid post ID")])])])

  function PartOf(req: Request, name: string): Object {
    if name == "body" then req.body else if name == "query" then req.query
    else if name == "params" then req.params else map[]
  }

  predicate CheckPasses(c: Check, s: string, f: Formats) {
    match c
    case Email(_) => f.isEmail(s)
    case MinLength(n, _) => |s| >= n
    case MaxLength(n, _) => |s| <= n
    case Uuid(_) => f.isUuid(s)
  }

  // ------------------------------------------------ what the schema accepts

  /** A field is acceptable: absent only if optional, else a string passing every check. */
  predicate FieldConforms(field: Field, obj: Object, f: Formats) {
    if field.name !in obj then field.optional
    else (obj[field.name].Str? &&
      forall c :: c in field.checks ==> CheckPasses(c, obj[field.name].s, f))
  }

  predicate PartConforms(part: Part, req: Request, f: Formats) {
    forall i :: 0 <= i < |part.fields| ==> FieldConforms(part.fields[i], PartOf(req, part.name), f)
  }

  /** The request satisfies every field of every part of the schema. */
  predicate Conforms(schema: Schema, req: Request, f: Formats) {
    forall i :: 0 <= i < |schema.parts| ==> PartConforms(schema.parts[i], req, f)
  }

  // ------------------------------------------------ the issues zod reports

  function CheckIssues(path: seq<string>, checks: seq<Check>, s: string, f: Formats): seq<Issue>
  {
    if checks == [] then []
    else (if CheckPasses(checks[0], s, f) then [] else [Issue(path, checks[0].message)])
         + CheckIssues(path, checks[1..], s, f)
  }

  function FieldIssues(part: string, field: Field, obj: Object, f: Formats): seq<Issue> {
    var path := [part, field.name];
    if field.name !in obj then (if field.optional then [] else [Issue(path, "Required")])
    else match obj[field.name]
      case NonString(t) => [Issue(path, "Expected string, received " + t)]
      case Str(s) => CheckIssues(path, field.checks, s, f)
  }

  function FieldsIssues(part: string, fields: seq<Field>, obj: Object, f: Formats): seq<Issue> {
    if fields == [] then []
    else FieldIssues(part, fields[0], obj, f) + FieldsIssues(part, fields[1..], obj, f)
  }

  function PartsIssues(parts: seq<Part>, req: Request, f: Formats): seq<Issue> {
    if parts == [] then []
    else FieldsIssues(parts[0].name, parts[0].fields, PartOf(req, parts[0].name), f)
         + PartsIssues(parts[1..], req, f)
  }

  /** Every issue `schema.parse` collects, in schema order. */
  function Issues(schema: Schema, req: Request, f: Formats): seq<Issue> {
    PartsIssues(schema.parts, req, f)
  }

  lemma {:induction false} CheckIssuesEmpty(path: seq<string>, checks: seq<Check>, s: string, f: Formats)
    ensures CheckIssues(path, checks, s, f) == [] <==>
            forall c :: c in checks ==> CheckPasses(c, s, f)
    decreases |checks|
  {
    if checks != [] {
      CheckIssuesEmpty(path, checks[1..], s, f);
      assert checks == [checks[0]] + checks[1..];
    }
  }

  lemma {:induction false} FieldsIssuesEmpty(part: Part, req: Request, f: Formats, k: nat)
    requires k <= |part.fields|
    ensures FieldsIssues(part.name, part.fields[k..], PartOf(req, part.name), f) == [] <==>
            forall i :: k <= i < |part.fields| ==> FieldConforms(part.fields[i], PartOf(req, part.name), f)
    decreases |part.fields| - k
  {
    if k < |part.fields| {
      var field := part.fields[k];
      var obj := PartOf(req, part.name);
      FieldsIssuesEmpty(part, req, f, k + 1);
      assert part.fields[k..][1..] == part.fields[k + 1..];
      if field.name in obj && obj[field.name].Str? {
        CheckIssuesEmpty([part.name, field.name], field.checks, obj[field.name].s, f);
      }
    }
  }

  lemma {:induction false} PartsIssuesEmpty(parts: seq<Part>, req: Request, f: Formats)
    ensures PartsIssues(parts, req, f) == [] <==> forall i :: 0 <= i < |parts| ==> PartConforms(parts[i], req, f)
    decreases |parts|
  {
    if parts != [] {
      PartsIssuesEmpty(parts[1..], req, f);
      FieldsIssuesEmpty(parts[0], req, f, 0);
      assert parts[0].fields[0..] == parts[0].fields;
      assert forall i :: 1 <= i < |parts| ==> parts[i] == parts[1..][i - 1];
    }
  }

  /** `schema.parse` throws exactly when the request does not conform. */
  lemma IssuesEmptyIffConforms(schema: Schema, req: Request, f: Formats)
    ensures Issues(schema, req, f) == [] <==> Conforms(schema, req, f)
  {
    PartsIssuesEmpty(schema.parts, req, f);
  }

  /** Every issue names a part and a field: its path has exactly two segments. */
  lemma {:induction false} IssuePaths(parts: seq<Part>, req: Request, f: Formats)
    ensures forall i :: 0 <= i < |PartsIssues(parts, req, f)| ==> |PartsIssues(parts, req, f)[i].path| == 2
    decreases |parts|
  {
    if parts != [] {
      IssuePaths(parts[1..], req, f);
      FieldPaths(parts[0].name, parts[0].fields, PartOf(req, parts[0].name), f);
    }
  }

  lemma {:induction false} FieldPaths(part: string, fields: seq<Field>, obj: Object, f: Formats)
    ensures forall i :: 0 <= i < |FieldsIssues(part, fields, obj, f)| ==>
      |FieldsIssues(part, fields, obj, f)[i].path| == 2 && FieldsIssues(part, fields, obj, f)[i].path[0] == part
    decreases |fields|
  {
    if fields != [] {
      FieldPaths(part, fields[1..], obj, f);
      var field := fields[0];
      if field.name in obj && obj[field.name].Str? {
        CheckPaths([part, field.name], field.checks, obj[field.name].s, f);
      }
    }
  }

  lemma {:induction false} CheckPaths(path: seq<string>, checks: seq<Check>, s: string, f: Formats)
    ensures forall i :: 0 <= i < |CheckIssues(path, checks, s, f)| ==> CheckIssues(path, checks, s, f)[i].path == path
    decreases |checks|
  {
    if checks != [] {
      CheckPaths(path, checks[1..], s, f);
    }
  }

  // ------------------------------------------------ the middleware

  /** `details: error.errors.map(e => ({ field: e.path.join('.'), message: e.message }))` */
  function Details(issues: seq<Issue>): (details: seq<Detail>)
    ensures |details| == |issues|
    ensures forall i :: 0 <= i < |issues| ==>
      details[i] == Detail(Join(issues[i].path, '.'), issues[i].message)
  {
    seq(|issues|, i requires 0 <= i < |issues| => Detail(Join(issues[i].path, '.'), issues[i].message))
  }

  /**
   * `validate(schema)` applied to a request. `fault` is an exception other
   * than a zod error raised while parsing; it goes to `next(error)`.
   */
  function Validate(schema: Schema, req: Request, f: Formats, fault: Option<string>): (step: Step)
    ensures fault.Some? ==> step == NextError(fault.value)
    ensures fault.None? ==> (step == Next <==> Conforms(schema, req, f))
    ensures fault.None? && !Conforms(schema, req, f) ==>
      step == Respond(ErrorReply(400, "Validation failed", Details(Issues(schema, req, f))))
      && Issues(schema, req, f) != []
  {
    IssuesEmptyIffConforms(schema, req, f);
    if fault.Some? then NextError(fault.value)
    else
      var issues := Issues(schema, req, f);
      if issues == [] then Next
      else Respond(ErrorReply(400, "Validation failed", Details(issues)))
  }

  /** A detail's `field` splits back into the issue's path when no path segment holds a dot. */
  lemma DetailFieldRoundTrip(issue: Issue)
    requires |issue.path| >= 1
    requires forall i :: 0 <= i < |issue.path| ==> '.' !in issue.path[i]
    ensures Split(Details([issue])[0].field, '.') == issue.path
  {
    SplitJoin(issue.path, '.');
  }

  // ------------------------------------------------ the schemas' meaning

  lemma OneCheck(field: Field, obj: Object, f: Formats)
    requires |field.checks| == 1
    ensures FieldConforms(field, obj, f) <==>
      if field.name !in obj then field.optional
      else obj[field.name].Str? && CheckPasses(field.checks[0], obj[field.name].s, f)
  {
    assert field.checks == [field.checks[0]];
  }

  lemma TwoChecks(field: Field, obj: Object, f: Formats)
    requires |field.checks| == 2
    ensures FieldConforms(field, obj, f) <==>
      if field.name !in obj then field.optional
      else (obj[field.name].Str? && CheckPasses(field.checks[0], obj[field.name].s, f)
        && CheckPasses(field.checks[1], obj[field.name].s, f))
  {
    assert field.checks == [field.checks[0], field.checks[1]];
  }

  predicate StrAtLeast(obj: Object, name: string, n: nat) {
    name in obj && obj[name].Str? && |obj[name].s| >= n
  }

  /** Registration needs an email-format email, a password of 8 or more characters and a name of 2 or more. */
  lemma RegisterRule(req: Request, f: Formats)
    ensures Conforms(RegisterSchema, req, f) <==>
      "email" in req.body && req.body["email"].Str? && f.isEmail(req.body["email"].s)
      && StrAtLeast(req.body, "password", 8) && StrAtLeast(req.body, "name", 2)
  {
    var part := RegisterSchema.parts[0];
    assert PartOf(req, part.name) == req.body;
    assert Conforms(RegisterSchema, req, f) <==> PartConforms(part, req, f);
    assert PartConforms(part, req, f) <==>
      FieldConforms(part.fields[0], req.body, f) && FieldConforms(part.fields[1], req.body, f)
      && FieldConforms(part.fields[2], req.body, f);
    OneCheck(part.fields[0], req.body, f);
    OneCheck(part.fields[1], req.body, f);
    OneCheck(part.fields[2], req.body, f);
  }

  /** Login needs an email-format email and a non-empty password. */
  lemma LoginRule(req: Request, f: Formats)
    ensures Conforms(LoginSchema, req, f) <==>
      "email" in req.body && req.body["email"].Str? && f.isEmail(req.body["email"].s)
      && StrAtLeast(req.body, "password", 1)
  {
    var part := LoginSchema.parts[0];
    assert Conforms(LoginSchema, req, f) <==> PartConforms(part, req, f);
    assert PartConforms(part, req, f) <==>
      FieldConforms(part.fields[0], req.body, f) && FieldConforms(part.fields[1], req.body, f);
    OneCheck(part.fields[0], req.body, f);
    OneCheck(part.fields[1], req.body, f);
  }

  predicate OptionalString(obj: Object, name: string) {
    name !in obj || obj[name].Str?
  }

  predicate TitleOk(s: string) {
    1 <= |s| <= 255
  }

  /** Creating a post needs a title of 1 to 255 characters; content is optional. */
  lemma CreatePostRule(req: Request, f: Formats)
    ensures Conforms(CreatePostSchema, req, f) <==>
      "title" in req.body && req.body["title"].Str? && TitleOk(req.body["title"].s)
      && OptionalString(req.body, "content")
  {
    var part := CreatePostSchema.parts[0];
    assert Conforms(CreatePostSchema, req, f) <==> PartConforms(part, req, f);
    assert PartConforms(part, req, f) <==>
      FieldConforms(part.fields[0], req.body, f) && FieldConforms(part.fields[1], req.body, f);
    TwoChecks(part.fields[0], req.body, f);
  }

  /** Updating a post needs a UUID id; a title, if given, has 1 to 255 characters. */
  lemma UpdatePostRule(req: Request, f: Formats)
    ensures Conforms(UpdatePostSchema, req, f) <==>
      "id" in req.params && req.params["id"].Str? && f.isUuid(req.params["id"].s)
      && ("title" in req.body ==> req.body["title"].Str? && TitleOk(req.body["title"].s))
      && OptionalString(req.body, "content")
  {
    var params := UpdatePostSchema.parts[0];
    var body := UpdatePostSchema.parts[1];
    assert Conforms(UpdatePostSchema, req, f) <==> PartConforms(params, req, f) && PartConforms(body, req, f);
    assert PartConforms(params, req, f) <==> FieldConforms(params.fields[0], req.params, f);
    assert PartConforms(body, req, f) <==>
      FieldConforms(body.fields[0], req.body, f) && FieldConforms(body.fields[1], req.body, f);
    OneCheck(params.fields[0], req.params, f);
    TwoChecks(body.fields[0], req.body, f);
  }

  /** Fetching a post needs a UUID id. */
  lemma GetPostRule(req: Request, f: Formats)
    ensures Conforms(GetPostSchema, req, f) <==>
      "id" in req.params && req.params["id"].Str? && f.isUuid(req.params["id"].s)
  {
    var part := GetPostSchema.parts[0];
    assert Conforms(GetPostSchema, req, f) <==> PartConforms(part, req, f);
    assert PartConforms(part, req, f) <==> FieldConforms(part.fields[0], req.params, f);
    OneCheck(part.fields[0], req.params, f);
  }

  /** A registration body holding only an invalid email is answered 400, whatever the email test says. */
  lemma RegisterOnlyEmailRejected(req: Request, f: Formats)
    requires req.body == map["email" := Str("invalid-email")]
    ensures Validate(RegisterSchema, req, f, None).Respond?
    ensures Validate(RegisterSchema, req, f, None).reply.status == 400
  {
    RegisterRule(req, f);
  }
}
