# sis-cli core, modelled in Dafny

`sis-cli` is a command-line client for the Osiris student information
system of Radboud University. This project models the two parts of it
that carry logic:

- **The sign-in handshake and the authenticated client (`sisAPI.py`).**
  `_getToken` makes an OAuth 2.0 implicit-grant authorisation request
  (section 4.2 of RFC 6749). It is bridged through a SAML 2.0 identity
  provider, which uses the HTTP-POST binding (section 3.5 of the OASIS SAML
  2.0 Bindings). The handshake takes four hops. Each hop's status must be
  200, and the values the next hop needs are cut out of URLs and HTML bodies
  with `find` and a fixed offset.
  - The client keeps the bearer token in `access_token`.
  - It gates every API call on that token (`_getData`).
  - It signs in (`sign_in`).
  - It enrols in a course by rewriting the course record and PUTting it
    (`register_for_course`).
- **Schedule rows and cache freshness (`sisutil.py`).**
  - `style_schedule` turns weeks, each with seven days of subjects, into
    table rows. The week label goes on Monday's first subject and the day
    label on each day's first subject.
  - `read_schedule` treats a cached schedule as stale when its ISO week
    number differs from the current one.

Modules:

- `Wrappers`: Option and Result.
- `PyStr`: the parts of Python's `str` the code relies on: `find`'s -1,
  slice-bound normalisation and `str(int)`.
- `Extractors`: the four scrapers of `_getToken`.
- `Http`: the request and response records. The network is a function
  parameter `Request -> Option<Response>`, where None stands for an
  exception from `send`.
- `Auth`: `_assureSuccess` and the handshake. The handshake is written
  twice:
  - as a staged specification function, `Handshake`;
  - as a straight-line method, `GetToken`, proved equal to it.
- `Client`: the `sisAPI` object as a class. Its `accessToken` field is
  updated by `SignIn` and read by `GetData`. A `CourseInfo` class holds
  the dictionary that `RegisterForCourse` rewrites in place.
- `Schedule`: `StyleSchedule`, a method with the source's three nested
  loops.
  - It is proved equal to the function `ScheduleRows`.
  - The row count, the row order, the labels and the failure cases are
    proved about that function.
  - `ReadSchedule` holds the freshness decision.

Behaviour of the code that the model keeps as it is:

- A missing marker is not reported. `find` returns -1 and the slice
  then starts at offset - 1 (`Extractors.MissingMarkers`).
- A token that is the last URL parameter loses its last character. No
  `&` follows it, so `find('&')` returns -1 and `[:-1]` drops that
  character (`Extractors.AccessTokenLastParameter`).
- Only status 200 passes the status check. Every other 2xx status is
  rejected (`Auth.OtherSuccessCodesRejected`).
- The token gate of `_getData` only tests for None, so an empty token
  passes it (`Client.SisApi.GetData`).

## Model

| member | source | states |
|---|---|---|
| Wrappers.Get | sisAPI.py:77 | `dict.get`: some value exactly when the key is present, and then the value the map holds. |
| Auth.AuthorizeRequest | sisAPI.py:57 | The fixed hop-1 GET of the authorisation URL, with no parameters, body or cookies. `Auth.LoginCarriesCredentials` states it. |
| Auth.LoginRequest | sisAPI.py:61-70 | The hop-2 POST to the login endpoint: the login query with the percent-decoded AuthState of hop 1's URL, and hop 1's cookies. Stated by `Auth.LoginCarriesCredentials`. |
| Auth.ConsumeRequest | sisAPI.py:74-78 | The hop-3 POST of hop 2's SAMLResponse value with the session's `main` and `HTTPSERVERID` cookies. Stated by `Auth.ConsumeCookies` and `Auth.ConsumeSendsTwoCookies`. |
| Auth.TokenRequest | sisAPI.py:82-88 | The hop-4 POST of hop 3's SAMLResponse and RelayState values to the authorisation endpoint, with no cookies. Stated by `Auth.TokenRequestSendsNoCookies`. |
| Auth.Handshake | sisAPI.py:45-94 | The intended `_getToken` as a staged function: each hop's response is checked before the next request is built, and the cookie jar absorbs each response's cookies. Its properties are the lemmas below, and `Auth.GetToken` is proved equal to it. |
| Auth.AssureSuccess | sisAPI.py:38-43 | A response passes exactly when its status is 200. A rejection carries that status and changes nothing else. |
| Auth.OtherSuccessCodesRejected | sisAPI.py:42-43 | Every other 2xx status (201 to 299) is rejected like any failure. |
| Auth.Exchange | sisAPI.py:58-59 | A hop passes exactly when the network answered with status 200. A failure names its hop; it is a rejection with the response's status exactly when an answer came. |
| Auth.LoginParams | sisAPI.py:68 | The login query has exactly the keys username, password, submit and AuthState. |
| Auth.GetToken | sisAPI.py:45-94 | The step-by-step handshake returns the same token or failure, and sends the same request sequence, as the staged specification `Handshake`. |
| Auth.HandshakeInOrder | sisAPI.py:56-94 | Requests are sent in hop order. Every request but the last passed. Success means hop 4 was reached and passed. A failure names the hop of the last request. |
| Auth.TraceShape | sisAPI.py:57-88 | The handshake sends one to four requests. Each is built from the responses before it: the fixed GET, then the login from hop 1's response, then the assertion post from hop 2's response and the merged cookies, then the token request from hop 3's response. |
| Auth.TokenIffEveryHopPasses | sisAPI.py:57-94 | A token comes back if and only if all four hops were sent and each was answered with 200. The token is the `access_token` value of hop 4's final URL. |
| Auth.FailureStopsAtFailingHop | sisAPI.py:57-90 | A failure at hop k means exactly k requests were sent, hops 1 to k-1 passed and hop k did not. A rejection reports the non-200 status of the last response. |
| Auth.LoginCarriesCredentials | sisAPI.py:57-70 | Hop 1 is the fixed authorisation GET. Hop 2 POSTs exactly username, password, submit=Login and the percent-decoded AuthState of hop 1's URL, with hop 1's cookies. |
| Auth.ConsumeCookies | sisAPI.py:77 | The assertion post carries exactly the cookies main and HTTPSERVERID, each with the session's value or None. |
| Auth.ConsumeSendsTwoCookies | sisAPI.py:74-79 | Hop 3 posts hop 2's SAMLResponse value and only the cookies main and HTTPSERVERID. Their values are the latest that hops 1 and 2 set. |
| Auth.CookieFromFirstHopReachesThird | sisAPI.py:77 | A `main` cookie set by hop 1 and not replaced by hop 2 is the one hop 3 sends. |
| Auth.TokenRequestSendsNoCookies | sisAPI.py:82-89 | Hop 4 posts hop 3's SAMLResponse and RelayState values to the authorisation endpoint, with no cookies. |
| Auth.WellFormedRedirectYieldsToken | sisAPI.py:89-94 | On every network, when the handshake succeeds and hop 4's final URL is `pre + "access_token=" + t + "&" + rest` (with no earlier marker and no `&` in t), the token returned is exactly t. |
| Auth.GetTokenAsWritten | sisAPI.py:56-59 | `_getToken` as written: hop 1 is sent, then the bare `_assureSuccess` raises NameError. Stated by `Auth.AsWrittenNeverYieldsToken`. |
| Auth.AsWrittenNeverYieldsToken | sisAPI.py:58-59 | The code as written, with `_assureSuccess` called without `self.`, never returns a token and sends nothing after hop 1. |
| Auth.AsWrittenLosesToken | sisAPI.py:59 | On a network that accepts every hop, the intended handshake returns "abc", but the code as written fails with NameError at hop 1. |
| Extractors.OffsetsSkipMarker | sisAPI.py:61-92 | Each offset is the marker's length plus what separates the marker from the value (10, 19+8, 17+8, 12+1). |
| Extractors.After | sisAPI.py:61-63 | `text[text.find(marker)+offset:]` is the text from the first marker plus the offset. With no marker, it starts at offset-1. |
| Extractors.UpTo | sisAPI.py:75 | `text[:text.find(d)]` is a prefix of the text with no d in it. It stops at the first d. With no d, it drops the last character. |
| Extractors.AuthStateValue | sisAPI.py:61-63 | The AuthState value of a URL: everything from 10 characters past the first `AuthState=`. Stated by `Extractors.AuthStateOfUrl` and `Extractors.MissingMarkers`. |
| Extractors.SamlResponseValue | sisAPI.py:74-75 | The SAMLResponse value of a body (also sisAPI.py:82-83): from 27 past the first `name="SAMLResponse"` to the next `"`. Stated by `Extractors.SamlResponseOfForm` and `Extractors.ValuesExcludeDelimiters`. |
| Extractors.RelayStateValue | sisAPI.py:85-86 | The RelayState value of a body: from 25 past the first `name="RelayState"` to the next `"`. Stated by `Extractors.RelayStateOfForm` and `Extractors.ValuesExcludeDelimiters`. |
| Extractors.AccessTokenValue | sisAPI.py:92-93 | The token of a URL: from 13 past the first `access_token` to the next `&`. Stated by `Extractors.AccessTokenOfUrl` and `Extractors.AccessTokenLastParameter`. |
| Extractors.AuthStateOfUrl | sisAPI.py:61-63 | A URL `pre + "AuthState=" + v`, with no earlier marker, yields exactly v. |
| Extractors.SamlResponseOfForm | sisAPI.py:74-75 | A body with `name="SAMLResponse" value="v"` and no earlier marker yields exactly v, when v has no quote. |
| Extractors.RelayStateOfForm | sisAPI.py:85-86 | A body with `name="RelayState" value="v"` and no earlier marker yields exactly v, when v has no quote. |
| Extractors.AccessTokenOfUrl | sisAPI.py:92-93 | A URL `pre + "access_token=" + t + "&" + rest` yields exactly t, when t has no `&`. |
| Extractors.AccessTokenLastParameter | sisAPI.py:92-93 | When the token is the last parameter, the last character of the token is lost. |
| Extractors.MissingMarkers | sisAPI.py:61-93 | With its marker absent, each scraper reads from index offset-1 of the text. |
| Extractors.ValuesExcludeDelimiters | sisAPI.py:74-93 | On every input, the SAMLResponse and RelayState values contain no `"` and the token contains no `&`. |
| PyStr.Find | sisAPI.py:61 | `find` returns the first index where the marker occurs, or -1 exactly when it occurs nowhere. |
| PyStr.SliceFrom | sisAPI.py:63 | `s[i:]` is a suffix of s, for every integer i. |
| PyStr.SliceTo | sisAPI.py:75 | `s[:j]` is a prefix of s, for every integer j. |
| PyStr.SliceSplit | sisAPI.py:74-75 | `s[:i] + s[i:] == s` for every integer i. |
| PyStr.NatToStringValue | sisutil.py:24 | Reading the digits of `str(n)` back gives n. |
| PyStr.IntToString | sisutil.py:24 | `str(n)`: never empty, and it starts with a digit exactly when n is not negative. Also used at sisAPI.py:237. |
| PyStr.IntToStringInjective | sisAPI.py:237 | Different integers print differently. |
| Client.VerbOf | sisAPI.py:109 | Only "GET", "POST" and "PUT" name a request method, each its own. |
| Client.AuthHeaders | sisAPI.py:116 | The headers are exactly `Authorization: Bearer <token>` and `taal: EN`. |
| Client.IdText | sisAPI.py:237 | `str()` of a JSON scalar: the decimal text of an integer (`PyStr.IntToString`), a string as it is, `True`/`False`, `None`. Lists and objects give "" (see Left out). |
| Client.EnrolmentPath | sisAPI.py:237 | The PUT suffix `inschrijvingen/cursussen/` followed by the id's text. Stated by `Client.EnrolmentPathInjective` and `Client.SisApi.RegisterForCourse`. |
| Client.CourseInfo.constructor | sisAPI.py:214-237 | The mutable `course_info` dict, holding exactly the given fields. `Client.SisApi.RegisterForCourse` states how it is rewritten. |
| Client.EnrolmentPathInjective | sisAPI.py:237 | Different numeric course ids are enrolled at different URLs. |
| Client.Enrolled | sisAPI.py:223-235 | The rewritten record has the old keys plus the twelve listed ones. The listed keys hold their fixed values; every other key keeps its value. |
| Client.EnrolmentKeepsId | sisAPI.py:223-236 | The rewrite neither adds nor changes `id_cursus_blok`. |
| Client.EnrolmentUpdates | sisAPI.py:223-235 | The twelve assignments, applied one after the other, give `Enrolled`. |
| Client.SignInAsWritten | sisAPI.py:138-144 | `sign_in` as written: the extra `self` raises TypeError before any request, and the bare `except` returns False on every input with the token unchanged. |
| Client.SignInAsWrittenMissesEverySuccess | sisAPI.py:138-144 | On every input where the intended `sign_in` returns True (the handshake yields a token and the write succeeds), the code as written returns False, and a client without a token does not receive the new one. |
| Client.SignInAsWrittenLosesSuccess | sisAPI.py:139 | On a network that accepts every hop the intended handshake yields a token, yet the code as written returns False. |
| Client.SisApi.constructor | sisAPI.py:119-121 | A new client holds the stored token, or None. |
| Client.SisApi.GetData | sisAPI.py:109-117 | A method other than GET, POST or PUT fails the assertion. With no token, NoTokenError is raised before a request exists. Otherwise the request is base + suffix with the bearer headers and the payload. |
| Client.SisApi.SignIn | sisAPI.py:138-144 | Returns True if and only if the handshake yielded a token and the file write succeeded. The field holds the new token exactly when one came, and is otherwise unchanged. |
| Client.SisApi.RegisterForCourse | sisAPI.py:223-237 | The record becomes `Enrolled` of the old record. A missing id is a KeyError, after the rewrite. With no token the call fails with NoTokenError. Otherwise it PUTs the JSON of the rewritten record to `inschrijvingen/cursussen/<id>`. |
| Schedule.SubjectName | sisutil.py:27 | The name is the suffix of `onderwerp` after its first space, or all of it when there is no space. |
| Schedule.MakeRow | sisutil.py:16-28 | A row exists exactly when the kind has a colour (otherwise KeyError). The week label, "Week <n>", is on subject 0 of day 0 only. The day name is on subject 0 only. The row also holds the subject name, the kind's colour and the times and location. |
| Schedule.UnknownKindFails | sisutil.py:28 | The first subject whose kind has no colour (every row before it laid out) fails the whole schedule with that kind, whatever follows it. |
| Schedule.MissingDayFails | sisutil.py:12-13 | The first missing day of a week (every row before it laid out) fails the whole schedule with IndexError, whatever follows it. |
| Schedule.ScheduleRows | sisutil.py:10-28 | The rows of `style_schedule` as a function: week by week, days 0 to 6, subject by subject, up to the first failure. Its properties are the shape, count and order lemmas below. |
| Schedule.StyleSchedule | sisutil.py:6-29 | The three nested loops produce exactly `ScheduleRows`: every row, or the first failure. |
| Schedule.SubjectRowsShape | sisutil.py:15-28 | A day's rows exist if and only if every kind is known. There is then one row per subject, row s being subject s's row. |
| Schedule.DayRowsShape | sisutil.py:13-28 | A day's rows exist if and only if the week has that day and every kind in it is known. Row s is then subject s's row. |
| Schedule.WeekRowsSucceed | sisutil.py:12-28 | A week lays out if and only if it has seven days and every kind in days 0 to 6 is known. |
| Schedule.WeekRowsCount | sisutil.py:12-28 | A week that lays out gives one row per subject of days 0 to 6. |
| Schedule.WeekRowsOrder | sisutil.py:12-28 | Subject s of day d is at position (subjects of days before d) + s, in day-then-subject order. |
| Schedule.WeekLabelOnce | sisutil.py:18-24 | Only the first row of a week carries the week label, and only when Monday has a subject. |
| Schedule.ScheduleRowsSucceed | sisutil.py:11-28 | A schedule lays out if and only if every week does. |
| Schedule.ScheduleRowsCount | sisutil.py:11-28 | A schedule that lays out gives one row per subject of days 0 to 6 of every week. |
| Schedule.ScheduleRowsOrder | sisutil.py:11-28 | Subject s of day d of week w is at position (subjects of earlier weeks) + (subjects of earlier days) + s. Weeks are laid out in order, then days, then subjects. |
| Schedule.ReadSchedule | sisutil.py:35-47 | A missing file gives None, and so does a cache from another ISO week number, with or without a `schedule` entry. An unreadable cache, or a fresh one without `schedule`, raises. Otherwise the result is the stored schedule with its time. |
| Schedule.StaleCacheIgnoresContent | sisutil.py:40-43 | A stale cache gives None whatever it holds under `schedule`, since that key is read only on the fresh branch. |
| Schedule.CacheYearIgnored | sisutil.py:39-40 | A cache from the same week number of another year counts as fresh. |

## Left out

- Sending HTTP, following redirects and the cookie-jar internals of
  `requests` are not modelled. A response is the record a send hands back
  after redirects. The cookies of intermediate redirects, cookie domains
  and paths are not modelled.
- `requests.compat.unquote` (percent-decoding) is a function parameter and
  is not interpreted.
- File I/O is not modelled:
  - `_readToken` becomes a constructor argument;
  - the token write in `sign_in` becomes a boolean saying whether it
    succeeded;
  - `write_schedule`, and the file open and `json.load` in
    `read_schedule`, become the `CacheFile` datatype. A `Cached` file's
    `schedule` entry is optional.
- `Unreadable` stands for every exception `read_schedule` raises before
  the freshness test: a file that `open` refuses (permissions, a
  directory), text that is not JSON, JSON that is not an object, no
  `time_written`, or a `time_written` that `fromtimestamp` rejects. The
  model does not tell these exceptions apart.
- JSON numbers are integers only (`Json.JInt`). A float in a course
  record, and `str()` of a float course id, cannot be expressed.
- `os.environ` is not modelled.
- `json.dumps` is kept only as the JSON value it serialises.
- `.json()` is not modelled.
- `datetime.now`, `fromtimestamp` and `isocalendar` are not modelled: the
  ISO weeks are parameters, and the written time's text is stored with the
  cache.
- `print` (sisAPI.py:236, sisutil.py:42) is not modelled.
- `click.style` and `tabulate` are not modelled. A row keeps its texts and
  the colour name of its kind, but not the escape codes or the table
  layout.
- A subject missing one of its keys (a KeyError on `onderwerp`,
  `soort_rooster` and so on) is not modelled, because every `Subject` has
  all of its fields. A day beyond index 6 is never read.
- `grades`, `schedule`, `registered_courses`, `search_for_course` and
  `get_course_info` are not modelled: they only forward a fixed suffix to
  `_getData`.
- sis.py is not part of this model. It is command-line glue, and its
  schedule loop repeats `style_schedule`.
- Client.SisApi.GetData: returns the prepared request and stops before
  `ses.send`, because sending is outside the model.
- Client.SisApi.GetData: takes the method and payload explicitly, without
  the defaults `method='GET'` and `payload=""`. Its only modelled caller
  passes both. An empty text payload stays `Text("")`, distinct from
  `NoBody`, though `requests` sends no body for `data=""`.
- Client.IdText: covers `str()` of the JSON scalars only. Lists and
  objects as course ids print as the empty string.
- Client.SisApi.SignIn: assumes a successful handshake always yields a
  string token. A file-write failure after the field was set is a False
  result with the new token kept, as in the code.

## Findings

| source | as written | input that shows it | evidently intended | confidence | as-written member | corrected member |
|---|---|---|---|---|---|---|
| sisAPI.py:59 | `_assureSuccess(r)` is called without `self.` (also at lines 72, 80 and 90), so the name is undefined and NameError is raised as soon as hop 1 has answered | any network that answers hop 1, e.g. one that accepts every request and redirects to `access_token=abc&token_type=bearer` | `self._assureSuccess(r)`: check each hop's status and go on to the next hop | not executed | Auth.AsWrittenLosesToken | Auth.TokenIffEveryHopPasses |
| sisAPI.py:139 | `self._getToken(self, username, password)` passes the receiver twice, so `_getToken` receives four positional arguments for three parameters and raises TypeError, which the bare `except` turns into False | any credentials, e.g. on the same accepting network, where the intended handshake yields "abc" | `self._getToken(username, password)`: True once a token is obtained and written | not executed | Client.SignInAsWrittenLosesSuccess | Client.SisApi.SignIn |
