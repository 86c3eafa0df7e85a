// HTTP vocabulary: methods, and header maps whose keys ignore ASCII case.
module Http {
  import opened Common
  import opened Text

  datatype Method = UNKNOWN | GET | POST | PUT | PATCH | DELETE | OPTIONS | HEAD | CONNECT | TRACE | ANY

  function MethodName(m: Method): string {
    match m
    case GET => "GET"
    case POST => "POST"
    case PUT => "PUT"
    case PATCH => "PATCH"
    case DELETE => "DELETE"
    case OPTIONS => "OPTIONS"
    case HEAD => "HEAD"
    case CONNECT => "CONNECT"
    case TRACE => "TRACE"
    case ANY => "ANY"
    case UNKNOWN => "UNKNOWN"
  }

  function MethodFromString(s: string): Method {
    var l := Lower(s);
    if l == "get" then GET
    else if l == "post" then POST
    else if l == "put" then PUT
    else if l == "patch" then PATCH
    else if l == "delete" then DELETE
    else if l == "options" then OPTIONS
    else if l == "head" then HEAD
    else if l == "trace" then TRACE
    else if l == "connect" then CONNECT
    else UNKNOWN
  }

  /** The methods a request line can carry. */
  predicate RealMethod(m: Method) { m != UNKNOWN && m != ANY }

  lemma LowerNames()
    ensures Lower("GET") == "get" && Lower("POST") == "post" && Lower("PUT") == "put"
    ensures Lower("PATCH") == "patch" && Lower("DELETE") == "delete" && Lower("OPTIONS") == "options"
    ensures Lower("HEAD") == "head" && Lower("CONNECT") == "connect" && Lower("TRACE") == "trace"
  {
  }

  lemma MethodRoundTrip(m: Method)
    requires RealMethod(m)
    ensures MethodFromString(MethodName(m)) == m
  {
    hide Lower;
    LowerNames();
  }

  /** A stored header: the spelling of its first occurrence, and its value. */
  datatype Field = Field(name: string, value: string)

  /** Keyed by the lower-cased name, so lookups ignore case. */
  type HeaderMap = map<string, Field>

  function Lookup(h: HeaderMap, name: string): Option<string> {
    var k := Lower(name);
    if k in h then Some(h[k].value) else None
  }

  /** Insert a header line; a repeated name is joined onto the value with ", ". */
  function AddField(h: HeaderMap, name: string, value: string): HeaderMap {
    var k := Lower(name);
    if k in h then h[k := Field(h[k].name, h[k].value + ", " + value)]
    else h[k := Field(name, value)]
  }
}
