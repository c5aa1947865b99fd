/** Abstract HTTP records. A response is what `requests` hands back after
    following redirects: its status, its final URL, its body and the
    cookies it set. The network itself is a function parameter: given a
    prepared request it yields a response, or None when sending raises. */
module Http {
  import opened Wrappers

  datatype Verb = GET | POST | PUT

  /** JSON values, as `json.loads` produces them (numbers restricted to integers). */
  datatype Json =
    | JNull
    | JBool(b: bool)
    | JInt(i: int)
    | JStr(s: string)
    | JArr(items: seq<Json>)
    | JObj(members: map<string, Json>)

  /** A request body: form fields (`data=` a dict), a text payload, or the
      `json.dumps` text of a JSON value. */
  datatype Payload = NoBody | Form(fields: map<string, string>) | Text(text: string) | JsonText(value: Json)

  /** A prepared request. `params` are the query parameters; a cookie whose
      value is None is sent by name only, as `requests` does with a None value. */
  datatype Request = Request(
    verb: Verb,
    url: string,
    params: map<string, string>,
    data: Payload,
    headers: map<string, string>,
    cookies: map<string, Option<string>>)

  datatype Response = Response(status: int, url: string, body: string, cookies: map<string, string>)

  /** Sending a request: None stands for an exception raised by `send`. */
  type Network = Request -> Option<Response>

  /** Cookies taken from a response, all with a value. */
  function Present(cookies: map<string, string>): (r: map<string, Option<string>>)
    ensures r.Keys == cookies.Keys
    ensures forall name :: name in r ==> r[name] == Some(cookies[name])
  {
    map name | name in cookies :: Some(cookies[name])
  }
}
