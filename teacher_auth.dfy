/** The teacher-auth edge function (supabase/functions/teacher-auth/index.ts):
    a request is answered by early-return branching on its method and its
    `action`. Login looks the teacher up by email and checks the password
    hash; sign-up is switched off. */
module TeacherAuth {
  import opened Types
  import opened Seqs

  /** A row of the teachers table as the server reads it, hash included. */
  datatype TeacherRow = TeacherRow(
    id: string,
    username: string,
    full_name: string,
    email: Option<string>,
    password_hash: string,
    access_level: AccessLevel,
    created_at: Time,
    updated_at: Time)

  /** `const { password_hash, ...teacherData } = teacher`. */
  function Strip(row: TeacherRow): (t: Teacher)
    ensures t.id == row.id && t.username == row.username && t.full_name == row.full_name
    ensures t.email == row.email && t.access_level == row.access_level
    ensures t.created_at == row.created_at && t.updated_at == row.updated_at
  {
    Teacher(row.id, row.username, row.full_name, row.email, row.access_level, row.created_at, row.updated_at)
  }

  /** The reply carries everything but the hash: two rows give the same reply
      exactly when they differ at most in password_hash. */
  lemma StripForgetsOnlyHash(a: TeacherRow, b: TeacherRow)
    ensures Strip(a) == Strip(b) <==> a.(password_hash := b.password_hash) == b
  {
  }

  /** The salt appended to every password before hashing. */
  const Salt := "salt"

  /** `hashPassword`: the digest of password + 'salt'. SHA-256 and its hex
      encoding are the parameter `hash`. */
  function HashPassword(hash: string -> string, password: string): string
  {
    hash(password + Salt)
  }

  /** `verifyPassword`: hash the candidate the same way and compare. */
  function VerifyPassword(hash: string -> string, password: string, stored: string): (ok: bool)
    ensures ok <==> hash(password + "salt") == stored
  {
    HashPassword(hash, password) == stored
  }

  /** A password checks against its own hash, whatever the hash function. */
  lemma VerifyHashRoundTrip(hash: string -> string, password: string)
    ensures VerifyPassword(hash, password, HashPassword(hash, password))
  {
  }

  /** The request body. `Malformed` is a body that `req.json()` or the
      destructuring rejects, with the message of the error thrown; a field
      missing from the object is None. */
  datatype Body =
    | Malformed(message: string)
    | Json(action: Option<string>, email: Option<string>, password: Option<string>, fullName: Option<string>)

  datatype Request = Request(httpMethod: string, body: Body)

  datatype ResponseBody = NoBody | ErrorBody(error: string) | TeacherBody(teacher: Teacher)

  datatype Response = Response(status: int, headers: map<string, string>, body: ResponseBody)

  const CorsHeaders: map<string, string> := map[
    "Access-Control-Allow-Origin" := "*",
    "Access-Control-Allow-Headers" := "authorization, x-client-info, apikey, content-type"]

  const JsonHeaders: map<string, string> := CorsHeaders["Content-Type" := "application/json"]

  const AccessDenied := "Access denied. Only authorized teachers can login. Please contact an existing teacher or administrator for access."
  const InvalidCredentials := "Invalid email or password"
  const SignupDisabled := "Account creation is disabled. Please contact an existing teacher or administrator to add you to the system."
  const InvalidAction := "Invalid action"
  const InternalErrorPrefix := "Internal server error: "

  /** `.eq('email', email).single()`: a row only when exactly one row has that
      email; no match, several matches or a store error give none. */
  function SingleByEmail(rows: seq<TeacherRow>, email: Option<string>, storeFails: bool): (r: Option<TeacherRow>)
    ensures r.Some? <==> !storeFails && email.Some? && |Filter(rows, (t: TeacherRow) => t.email == email)| == 1
    ensures r.Some? ==> r.value in rows && r.value.email == email
  {
    if storeFails || email.None? then None
    else
      var matches := Filter(rows, (t: TeacherRow) => t.email == email);
      if |matches| == 1 then Some(matches[0]) else None
  }

  /** A missing password field is concatenated as the text "undefined". */
  function PasswordText(password: Option<string>): string
  {
    if password.Some? then password.value else "undefined"
  }

  /** The login branch; every outcome is status 200 with the JSON headers, and
      only a unique row whose hash matches yields a teacher. */
  function Login(rows: seq<TeacherRow>, email: Option<string>, password: Option<string>,
                 storeFails: bool, hash: string -> string): (r: Response)
    ensures r.status == 200 && r.headers == JsonHeaders && !r.body.NoBody?
    ensures r.body.TeacherBody? <==> (SingleByEmail(rows, email, storeFails).Some? &&
      VerifyPassword(hash, PasswordText(password), SingleByEmail(rows, email, storeFails).value.password_hash))
  {
    match SingleByEmail(rows, email, storeFails)
    case None => Response(200, JsonHeaders, ErrorBody(AccessDenied))
    case Some(row) =>
      if !VerifyPassword(hash, PasswordText(password), row.password_hash) then
        Response(200, JsonHeaders, ErrorBody(InvalidCredentials))
      else
        Response(200, JsonHeaders, TeacherBody(Strip(row)))
  }

  /** The two login refusals are told apart: for any two login requests to the
      same table, one whose lookup misses and one whose row is found but whose
      password does not verify get different replies. */
  lemma LoginFailuresAreDistinguishable(rows: seq<TeacherRow>, storeFails: bool, hash: string -> string,
                                        missedEmail: Option<string>, missedPassword: Option<string>,
                                        foundEmail: Option<string>, wrongPassword: Option<string>)
    requires SingleByEmail(rows, missedEmail, storeFails).None?
    requires SingleByEmail(rows, foundEmail, storeFails).Some?
    requires !VerifyPassword(hash, PasswordText(wrongPassword), SingleByEmail(rows, foundEmail, storeFails).value.password_hash)
    ensures Login(rows, missedEmail, missedPassword, storeFails, hash).body == ErrorBody(AccessDenied)
    ensures Login(rows, foundEmail, wrongPassword, storeFails, hash).body == ErrorBody(InvalidCredentials)
    ensures Login(rows, missedEmail, missedPassword, storeFails, hash) != Login(rows, foundEmail, wrongPassword, storeFails, hash)
  {
    assert |AccessDenied| == 114 && |InvalidCredentials| == 25;
  }

  /** The `serve` handler. The teachers table, whether the lookup fails and
      the hash are inputs. */
  function Serve(req: Request, rows: seq<TeacherRow>, storeFails: bool, hash: string -> string): (r: Response)
    ensures forall k :: k in CorsHeaders ==> k in r.headers && r.headers[k] == CorsHeaders[k]
    ensures r.status in {200, 400, 403, 500}
    ensures r.body.TeacherBody? ==> (r.status == 200 && req.httpMethod != "OPTIONS" &&
      req.body.Json? && req.body.action == Some("login"))
    ensures r.body.NoBody? <==> req.httpMethod == "OPTIONS"
  {
    if req.httpMethod == "OPTIONS" then Response(200, CorsHeaders, NoBody)
    else match req.body
      case Malformed(message) => Response(500, JsonHeaders, ErrorBody(InternalErrorPrefix + message))
      case Json(action, email, password, _) =>
        if action == Some("login") then Login(rows, email, password, storeFails, hash)
        else if action == Some("signup") then Response(403, JsonHeaders, ErrorBody(SignupDisabled))
        else Response(400, JsonHeaders, ErrorBody(InvalidAction))
  }

  /** A preflight is answered with the CORS headers and no body before the
      body is read: the same reply whatever the body, even an unparsable one. */
  lemma PreflightIgnoresBody(body: Body, rows: seq<TeacherRow>, storeFails: bool, hash: string -> string)
    ensures Serve(Request("OPTIONS", body), rows, storeFails, hash) == Response(200, CorsHeaders, NoBody)
  {
  }

  /** An unreadable body is a 500 whose error ends with the thrown message. */
  lemma MalformedBodyIsServerError(httpMethod: string, message: string, rows: seq<TeacherRow>,
                                   storeFails: bool, hash: string -> string)
    requires httpMethod != "OPTIONS"
    ensures var resp := Serve(Request(httpMethod, Malformed(message)), rows, storeFails, hash);
      resp.status == 500 && resp.body.ErrorBody? &&
      resp.body.error[..|InternalErrorPrefix|] == InternalErrorPrefix &&
      resp.body.error[|InternalErrorPrefix|..] == message
  {
  }

  /** Sign-up is refused with 403 whatever the other fields and the table hold. */
  lemma SignupAlwaysForbidden(httpMethod: string, email: Option<string>, password: Option<string>,
                              fullName: Option<string>, rows: seq<TeacherRow>, storeFails: bool, hash: string -> string)
    requires httpMethod != "OPTIONS"
    ensures Serve(Request(httpMethod, Json(Some("signup"), email, password, fullName)), rows, storeFails, hash)
         == Response(403, JsonHeaders, ErrorBody(SignupDisabled))
  {
  }

  /** Any action other than login and sign-up, a missing one included, is a 400. */
  lemma UnknownActionIsBadRequest(httpMethod: string, action: Option<string>, email: Option<string>,
                                  password: Option<string>, fullName: Option<string>,
                                  rows: seq<TeacherRow>, storeFails: bool, hash: string -> string)
    requires httpMethod != "OPTIONS" && action != Some("login") && action != Some("signup")
    ensures Serve(Request(httpMethod, Json(action, email, password, fullName)), rows, storeFails, hash)
         == Response(400, JsonHeaders, ErrorBody(InvalidAction))
  {
  }

  /** No teacher with that email (or a failed lookup) is "Access denied". */
  lemma UnknownEmailIsDenied(rows: seq<TeacherRow>, email: string, password: Option<string>,
                             storeFails: bool, hash: string -> string)
    requires storeFails || forall i :: 0 <= i < |rows| ==> rows[i].email != Some(email)
    ensures Login(rows, Some(email), password, storeFails, hash) == Response(200, JsonHeaders, ErrorBody(AccessDenied))
  {
    if !storeFails {
      FilterDropsAll(rows, (t: TeacherRow) => t.email == Some(email));
    }
  }

  /** A unique teacher with that email but a password whose hash differs gets
      "Invalid email or password". */
  lemma WrongPasswordIsRejected(rows: seq<TeacherRow>, i: nat, password: string, storeFails: bool, hash: string -> string)
    requires i < |rows| && rows[i].email.Some? && !storeFails
    requires forall j :: 0 <= j < |rows| && j != i ==> rows[j].email != rows[i].email
    requires hash(password + "salt") != rows[i].password_hash
    ensures Login(rows, rows[i].email, Some(password), storeFails, hash)
         == Response(200, JsonHeaders, ErrorBody(InvalidCredentials))
  {
    OnlyMatch(rows, i);
  }

  /** The unique teacher with that email and the right password is returned
      without its hash. */
  lemma RightPasswordReturnsTeacher(rows: seq<TeacherRow>, i: nat, password: string, storeFails: bool, hash: string -> string)
    requires i < |rows| && rows[i].email.Some? && !storeFails
    requires forall j :: 0 <= j < |rows| && j != i ==> rows[j].email != rows[i].email
    requires hash(password + "salt") == rows[i].password_hash
    ensures Login(rows, rows[i].email, Some(password), storeFails, hash)
         == Response(200, JsonHeaders, TeacherBody(Strip(rows[i])))
  {
    OnlyMatch(rows, i);
  }

  /** With one row per email, the lookup finds exactly that row. */
  lemma {:induction false} OnlyMatch(rows: seq<TeacherRow>, i: nat)
    requires i < |rows| && rows[i].email.Some?
    requires forall j :: 0 <= j < |rows| && j != i ==> rows[j].email != rows[i].email
    ensures Filter(rows, (t: TeacherRow) => t.email == rows[i].email) == [rows[i]]
  {
    var e := rows[i].email;
    var rest := rows[1..];
    if i == 0 {
      assert forall t :: t in rest ==> !(t.email == e) by {
        forall t | t in rest ensures t.email != e {
          var j :| 0 <= j < |rest| && rest[j] == t;
          assert rows[j + 1] == t;
        }
      }
      FilterDropsAll(rest, (t: TeacherRow) => t.email == e);
    } else {
      assert forall j :: 0 <= j < |rest| && j != i - 1 ==> rest[j] == rows[j + 1];
      OnlyMatch(rest, i - 1);
    }
  }

  /** A reply carries a teacher exactly when the request is a login for an
      email held by exactly one row, the lookup succeeded and the password
      verifies; the teacher is that row without its hash. */
  lemma TeacherOnlyOnVerifiedLogin(req: Request, rows: seq<TeacherRow>, storeFails: bool, hash: string -> string)
    ensures Serve(req, rows, storeFails, hash).body.TeacherBody? <==>
      req.httpMethod != "OPTIONS" && req.body.Json? && req.body.action == Some("login") &&
      SingleByEmail(rows, req.body.email, storeFails).Some? &&
      VerifyPassword(hash, PasswordText(req.body.password), SingleByEmail(rows, req.body.email, storeFails).value.password_hash)
    ensures Serve(req, rows, storeFails, hash).body.TeacherBody? ==>
      exists r :: r in rows && r.email == req.body.email && Serve(req, rows, storeFails, hash).body.teacher == Strip(r)
  {
    var resp := Serve(req, rows, storeFails, hash);
    if resp.body.TeacherBody? {
      var r := SingleByEmail(rows, req.body.email, storeFails).value;
      assert resp.body.teacher == Strip(r);
    }
  }
}
