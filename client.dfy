/** The `sisAPI` object (sisAPI.py:15-237) as far as it carries logic: the
    access-token field, the token gate and request construction of
    `_getData`, `sign_in`, and `register_for_course`. The resource
    accessors that only forward to `_getData` are not modelled. */
module Client {
  import opened Wrappers
  import opened Http
  import opened PyStr
  import opened Auth

  const ApiBase := "https://ru.osiris-student.nl/student/osiris/student/"

  /** The exceptions the client raises: AssertionError from the method
      check of `_getData`, NoTokenError, and KeyError for a missing key. */
  datatype ApiError = AssertionFailed | NoToken | MissingKey(key: string)

  /** The request method named by `_getData`'s argument, if it is one of
      the three the assertion at sisAPI.py:109 admits. */
  function VerbOf(name: string): (v: Option<Verb>)
    ensures v.Some? <==> name in {"GET", "POST", "PUT"}
    ensures v == Some(GET) <==> name == "GET"
    ensures v == Some(POST) <==> name == "POST"
    ensures v == Some(PUT) <==> name == "PUT"
  {
    if name == "GET" then Some(GET)
    else if name == "POST" then Some(POST)
    else if name == "PUT" then Some(PUT)
    else None
  }

  /** The headers of every authenticated call (sisAPI.py:116). */
  function AuthHeaders(token: string): (h: map<string, string>)
    ensures h.Keys == {"Authorization", "taal"}
    ensures |h["Authorization"]| >= 7
    ensures h["Authorization"][..7] == "Bearer " && h["Authorization"][7..] == token
    ensures h["taal"] == "EN"
  {
    map["Authorization" := "Bearer " + token, "taal" := "EN"]
  }

  /** Python's `str()` of a JSON scalar. */
  function IdText(id: Json): string
  {
    match id
    case JInt(n) => IntToString(n)
    case JStr(s) => s
    case JBool(b) => if b then "True" else "False"
    case JNull => "None"
    case _ => ""
  }

  /** The URL suffix a course registration is PUT to (sisAPI.py:237). */
  function EnrolmentPath(id: Json): string
  {
    "inschrijvingen/cursussen/" + IdText(id)
  }

  /** Different numeric course ids are registered at different URLs. */
  lemma EnrolmentPathInjective(a: int, b: int)
    requires EnrolmentPath(JInt(a)) == EnrolmentPath(JInt(b))
    ensures a == b
  {
    var prefix := "inschrijvingen/cursussen/";
    assert IntToString(a) == EnrolmentPath(JInt(a))[|prefix|..];
    assert IntToString(b) == EnrolmentPath(JInt(b))[|prefix|..];
    IntToStringInjective(a, b);
  }

  /** The keys `register_for_course` overwrites, with the values it
      writes (sisAPI.py:223-235). */
  const EnrolmentFields: map<string, Json> := map[
    "toets_voorzieningen" := JArr([]),
    "toetsen" := JArr([]),
    "werkvorm_groepen" := JArr([]),
    "werkvormen" := JArr([]),
    "werkvorm_voorzieningen" := JArr([]),
    "blokken" := JArr([]),
    "kosten" := JArr([]),
    "inschrijfperiodes" := JArr([]),
    "enrollment_type" := JStr("regular"),
    "onderdeel_van" := JStr(""),
    "is_in_enrolment_period" := JBool(false),
    "groepen" := JArr([])]

  /** A course record after the rewrite: the listed keys hold their fixed
      values, every other key is as it was. */
  function Enrolled(fields: map<string, Json>): (r: map<string, Json>)
    ensures r.Keys == fields.Keys + EnrolmentFields.Keys
    ensures forall k :: k in EnrolmentFields ==> r[k] == EnrolmentFields[k]
    ensures forall k :: k in fields && k !in EnrolmentFields ==> r[k] == fields[k]
  {
    fields + EnrolmentFields
  }

  /** The rewrite never touches the course id, so the id read after it is
      the caller's. */
  lemma EnrolmentKeepsId(fields: map<string, Json>)
    ensures ("id_cursus_blok" in Enrolled(fields)) == ("id_cursus_blok" in fields)
    ensures "id_cursus_blok" in fields ==> Enrolled(fields)["id_cursus_blok"] == fields["id_cursus_blok"]
  {
  }

  /** The twelve assignments of sisAPI.py:223-235, one after the other,
      amount to `Enrolled`. */
  lemma EnrolmentUpdates(f: map<string, Json>)
    ensures f["toets_voorzieningen" := JArr([])]["toetsen" := JArr([])]["werkvorm_groepen" := JArr([])]
             ["werkvormen" := JArr([])]["werkvorm_voorzieningen" := JArr([])]["blokken" := JArr([])]
             ["kosten" := JArr([])]["inschrijfperiodes" := JArr([])]["enrollment_type" := JStr("regular")]
             ["onderdeel_van" := JStr("")]["is_in_enrolment_period" := JBool(false)]["groepen" := JArr([])]
            == Enrolled(f)
  {
  }

  /** The course dictionary `register_for_course` receives and mutates. */
  class CourseInfo {
    var fields: map<string, Json>

    constructor(fields: map<string, Json>)
      ensures this.fields == fields
    {
      this.fields := fields;
    }
  }

  /** `sign_in` as written (sisAPI.py:138-144): line 139 passes `self`
      explicitly besides the bound receiver, so `_getToken` receives four
      positional arguments for its three parameters and raises TypeError
      before any request is sent; the bare `except` turns that into False.
      Returns the result and the access token afterwards. */
  function SignInAsWritten(username: string, password: string, serve: Network, unquote: string -> string,
                           written: bool, token: Option<string>): (bool, Option<string>)
  {
    (false, token)
  }

  /** Wherever the intended `sign_in` would return true (the handshake
      yields a token and the write succeeds), the code as written returns
      false and the token field does not take the new token. */
  lemma SignInAsWrittenMissesEverySuccess(username: string, password: string, serve: Network,
                                          unquote: string -> string, written: bool, token: Option<string>)
    requires Handshake(username, password, serve, unquote).outcome.Success? && written
    ensures !SignInAsWritten(username, password, serve, unquote, written, token).0
    ensures token.None? ==>
              SignInAsWritten(username, password, serve, unquote, written, token).1
              != Some(Handshake(username, password, serve, unquote).outcome.value)
  {
  }

  /** On a network that accepts every hop, the intended handshake yields a
      token, so `SisApi.SignIn` with a successful write returns true, while
      the code as written returns false. */
  lemma SignInAsWrittenLosesSuccess(username: string, password: string, unquote: string -> string)
    ensures Handshake(username, password, AcceptingNetwork(), unquote).outcome == Success("abc")
    ensures SignInAsWritten(username, password, AcceptingNetwork(), unquote, true, None) == (false, None)
  {
    AsWrittenLosesToken(username, password, unquote);
  }

  class SisApi {
    /** The bearer token, or None (Python's `self.access_token`). */
    var accessToken: Option<string>

    /** `__init__` followed by `_readToken`: `stored` is the content of the
        token file, or None when it could not be read. */
    constructor(stored: Option<string>)
      ensures accessToken == stored
    {
      accessToken := stored;
    }

    /** `_getData` up to the send: the method must be GET, POST or PUT; with
        no token it raises NoTokenError before any request exists; otherwise
        it prepares the request against the API base with the bearer header.
        It returns the prepared request. */
    method GetData(suffix: string, verb: string, payload: Payload) returns (r: Result<Request, ApiError>)
      ensures VerbOf(verb).None? ==> r == Failure(AssertionFailed)
      ensures VerbOf(verb).Some? && accessToken.None? ==> r == Failure(NoToken)
      ensures r.Success? <==> VerbOf(verb).Some? && accessToken.Some?
      ensures r.Success? ==>
        && r.value.verb == VerbOf(verb).value
        && r.value.url == ApiBase + suffix
        && r.value.headers == AuthHeaders(accessToken.value)
        && r.value.data == payload
        && r.value.params == map[] && r.value.cookies == map[]
    {
      var v := VerbOf(verb);
      if v.None? {
        return Failure(AssertionFailed);
      }
      if accessToken.None? {
        return Failure(NoToken);
      }
      r := Success(Request(v.value, ApiBase + suffix, map[], payload, AuthHeaders(accessToken.value), map[]));
    }

    /** `sign_in` as intended: run the handshake; on a token, store it in
        the field and then write the token file (`written` says whether
        that succeeded); any exception on the way yields False. */
    method SignIn(username: string, password: string, serve: Network, unquote: string -> string, written: bool)
      returns (ok: bool)
      modifies this
      ensures var run := Handshake(username, password, serve, unquote);
        ok == (run.outcome.Success? && written)
      ensures var run := Handshake(username, password, serve, unquote);
        accessToken == if run.outcome.Success? then Some(run.outcome.value) else old(accessToken)
    {
      var token, sent := GetToken(username, password, serve, unquote);
      if token.Failure? {
        return false;
      }
      accessToken := Some(token.value);
      ok := written;
    }

    /** `register_for_course`: rewrite the record in place, read its id
        (KeyError if absent, after the rewrite), and prepare the PUT of the
        whole record to the course's enrolment URL. */
    method RegisterForCourse(course: CourseInfo) returns (r: Result<Request, ApiError>)
      modifies course
      ensures course.fields == Enrolled(old(course.fields))
      ensures "id_cursus_blok" !in old(course.fields) ==> r == Failure(MissingKey("id_cursus_blok"))
      ensures "id_cursus_blok" in old(course.fields) && accessToken.None? ==> r == Failure(NoToken)
      ensures "id_cursus_blok" in old(course.fields) && accessToken.Some? ==>
        r == Success(Request(PUT, ApiBase + EnrolmentPath(old(course.fields)["id_cursus_blok"]), map[],
                             JsonText(JObj(course.fields)), AuthHeaders(accessToken.value), map[]))
    {
      course.fields := course.fields["toets_voorzieningen" := JArr([])];
      course.fields := course.fields["toetsen" := JArr([])];
      course.fields := course.fields["werkvorm_groepen" := JArr([])];
      course.fields := course.fields["werkvormen" := JArr([])];
      course.fields := course.fields["werkvorm_voorzieningen" := JArr([])];
      course.fields := course.fields["blokken" := JArr([])];
      course.fields := course.fields["kosten" := JArr([])];
      course.fields := course.fields["inschrijfperiodes" := JArr([])];
      course.fields := course.fields["enrollment_type" := JStr("regular")];
      course.fields := course.fields["onderdeel_van" := JStr("")];
      course.fields := course.fields["is_in_enrolment_period" := JBool(false)];
      course.fields := course.fields["groepen" := JArr([])];
      EnrolmentUpdates(old(course.fields));
      if "id_cursus_blok" !in course.fields {
        return Failure(MissingKey("id_cursus_blok"));
      }
      r := GetData(EnrolmentPath(course.fields["id_cursus_blok"]), "PUT", JsonText(JObj(course.fields)));
    }
  }
}
