/** The reverse proxy placed in front of the vault server: which requests it refuses, how it reads the
    identity that Google IAP asserts, how it reads the request body to compare that identity with the
    one the client claims, and how it injects a script into the web vault's start page. Serving HTTP
    and forwarding upstream are not modelled; the JSON and form decoders are parameters. */
module Proxy {
  import opened Base
  import opened Text

  const STATUS_BAD_REQUEST := 400
  const STATUS_UNAUTHORIZED := 401
  const STATUS_NOT_ACCEPTABLE := 406
  const STATUS_TEMPORARY_REDIRECT := 307

  const IAP_HEADER := "X-Goog-Authenticated-User-Email"
  const CONTENT_TYPE := "Content-Type"
  const CONTENT_LENGTH := "Content-Length"
  const JSON_TYPE := "application/json"
  const FORM_TYPE := "application/x-www-form-urlencoded"

  /** Requests refused outright, keyed by method and path. */
  const FORBID_APIS: set<string> := {
    "DELETE /api/accounts",                     // delete account
    "PUT /api/accounts/profile",                // change name
    "POST /api/organizations/{org_id}/leave"    // leave organization
  }

  /** The body field that must carry the IAP identity, per path. */
  const CHECK_IAP_FIELDS: map<string, string> := map[
    "/prelogin" := "email",
    "/identity/connect/token" := "username"
  ]

  /** `r.Header.Get(key)`: the header's value, or "" when it is absent. */
  function HeaderGet(headers: map<string, string>, key: string): string {
    if key in headers then headers[key] else ""
  }

  /** The result of `getIAPHeader`: the identity it returns and the status it writes, if any. */
  datatype IapHeader = IapHeader(email: string, status: Option<int>)

  /** `getIAPHeader`: the text after the first ':' of the IAP header. */
  function GetIapHeader(header: string): (r: IapHeader)
    ensures r.status == Some(STATUS_UNAUTHORIZED) <==> header == ""
    ensures r.status == Some(STATUS_BAD_REQUEST) <==> header != "" && ':' !in header
    ensures r.status.None? <==> ':' in header
    ensures r.status.Some? ==> r.email == ""
    ensures r.status.None? ==> var p := |header| - |r.email| - 1;
              0 <= p && header[p] == ':' && ':' !in header[..p] && header[p + 1..] == r.email
  {
    var i := IndexOf(header, ':');
    if header == "" then IapHeader("", Some(STATUS_UNAUTHORIZED))
    else if i == |header| then IapHeader("", Some(STATUS_BAD_REQUEST))
    else IapHeader(header[i + 1..], None)
  }

  /** A header built as "<issuer>:<identity>" yields the identity, even when it holds ':' itself. */
  lemma {:induction false} IapHeaderOfIssuer(issuer: string, email: string)
    requires ':' !in issuer
    ensures GetIapHeader(issuer + ":" + email) == IapHeader(email, None)
  {
    IndexOfFirst(issuer, ':', email);
    assert issuer + ":" + email == issuer + [':'] + email;
  }

  /** What the `/login` handler answers. */
  datatype LoginReply = Redirect(location: string, code: int) | Refused(status: Option<int>)

  /** The `/login` handler: redirects to the login form with the IAP identity filled in. */
  function Login(header: string): (r: LoginReply)
    ensures r.Redirect? <==> GetIapHeader(header).email != ""
    ensures r.Redirect? ==> r.code == STATUS_TEMPORARY_REDIRECT
    ensures r.Redirect? ==> r.location == "/#login?email=" + GetIapHeader(header).email
    ensures r.Refused? ==> r.status == GetIapHeader(header).status
  {
    var email := GetIapHeader(header).email;
    if email == "" then Refused(GetIapHeader(header).status)
    else Redirect("/#login?email=" + email, STATUS_TEMPORARY_REDIRECT)
  }

  /** An identity left empty after the ':' is refused with no status written, at `/login` as in the
      body check. */
  lemma {:induction false} EmptyIdentityRefused(issuer: string, parsed: Parsed, field: string)
    requires ':' !in issuer
    ensures Login(issuer + ":") == Refused(None)
    ensures CheckIap(issuer + ":", parsed, field) == Deny(None)
  {
    IapHeaderOfIssuer(issuer, "");
    assert issuer + ":" + "" == issuer + ":";
  }

  /** A value of the decoded body, as `interface{}`: a string, the list of a repeated form field, or
      any other JSON value. */
  datatype BodyValue = BString(s: string) | BList(values: seq<string>) | BOther

  type Body = map<string, BodyValue>

  /** `url.Values`: each form key with its values in order. */
  type FormValues = map<string, seq<string>>

  datatype ParseError = ReadFailed | InvalidJson | InvalidForm | UnsupportedContentType(contentType: string)

  datatype Parsed = Fields(fields: Body) | ParseFailed(error: ParseError)

  /** A form field is stored as its single value, or as the list when it does not have just one. */
  function FormValue(values: seq<string>): (v: BodyValue)
    ensures v.BString? <==> |values| == 1
    ensures v.BString? ==> values == [v.s]
    ensures v.BList? ==> v.values == values
  {
    if |values| == 1 then BString(values[0]) else BList(values)
  }

  function FormBody(values: FormValues): (b: Body)
    ensures b.Keys == values.Keys
  {
    map k | k in values :: FormValue(values[k])
  }

  /** What `parseRequestToMap` makes of a body, given the outcomes of `json.Unmarshal` and
      `url.ParseQuery` on it; the content type is tested by prefix, JSON first. */
  function ParseBody(contentType: string, body: Bytes, decodeJson: Bytes -> Option<Body>,
                     parseQuery: Bytes -> Option<FormValues>): (r: Parsed)
    ensures !HasPrefix(contentType, JSON_TYPE) && !HasPrefix(contentType, FORM_TYPE) ==>
              r == ParseFailed(UnsupportedContentType(contentType))
    ensures HasPrefix(contentType, JSON_TYPE) ==>
              r == if decodeJson(body).Some? then Fields(decodeJson(body).value) else ParseFailed(InvalidJson)
    ensures !HasPrefix(contentType, JSON_TYPE) && HasPrefix(contentType, FORM_TYPE) ==>
              r == if parseQuery(body).Some? then Fields(FormBody(parseQuery(body).value)) else ParseFailed(InvalidForm)
  {
    if HasPrefix(contentType, JSON_TYPE) then
      match decodeJson(body)
      case None => ParseFailed(InvalidJson)
      case Some(m) => Fields(m)
    else if HasPrefix(contentType, FORM_TYPE) then
      match parseQuery(body)
      case None => ParseFailed(InvalidForm)
      case Some(values) => Fields(FormBody(values))
    else ParseFailed(UnsupportedContentType(contentType))
  }

  /** A decoded form holds a key with its one value as a string, and with several values as a list. */
  lemma FormFieldShape(contentType: string, body: Bytes, decodeJson: Bytes -> Option<Body>,
                       parseQuery: Bytes -> Option<FormValues>, key: string)
    requires HasPrefix(contentType, FORM_TYPE) && parseQuery(body).Some?
    ensures ParseBody(contentType, body, decodeJson, parseQuery).Fields?
    ensures var b := ParseBody(contentType, body, decodeJson, parseQuery).fields;
            var vs := parseQuery(body).value;
            (key in b <==> key in vs) &&
            (key in vs && |vs[key]| == 1 ==> b[key] == BString(vs[key][0])) &&
            (key in vs && |vs[key]| != 1 ==> b[key] == BList(vs[key]))
  {
    assert !HasPrefix(contentType, JSON_TYPE) by {
      assert contentType[12] == FORM_TYPE[12] == 'x';
      assert JSON_TYPE[12] == 'j';
    }
  }

  /** The outcome of a check: let the request through, or stop it, writing a status or not. */
  datatype Verdict = Allow | Deny(status: Option<int>)

  /** `checkIAP`: a request passes exactly when IAP names someone, the body decodes, and the field the
      client names is absent or is that identity as a string; otherwise it is stopped with the status
      of its first fault. */
  function CheckIap(header: string, parsed: Parsed, field: string): (r: Verdict)
    ensures var email := GetIapHeader(header).email;
            r == Allow <==> email != "" && parsed.Fields? &&
                            (field in parsed.fields ==> parsed.fields[field] == BString(email))
    ensures GetIapHeader(header).email == "" ==> r == Deny(GetIapHeader(header).status)
    ensures GetIapHeader(header).email != "" && parsed.ParseFailed? ==> r == Deny(Some(STATUS_BAD_REQUEST))
    ensures var email := GetIapHeader(header).email;
            email != "" && parsed.Fields? && field in parsed.fields && parsed.fields[field] != BString(email) ==>
              r == Deny(Some(STATUS_UNAUTHORIZED))
  {
    var email := GetIapHeader(header).email;
    if email == "" then Deny(GetIapHeader(header).status)
    else if parsed.ParseFailed? then Deny(Some(STATUS_BAD_REQUEST))
    else if field in parsed.fields && parsed.fields[field] != BString(email) then Deny(Some(STATUS_UNAUTHORIZED))
    else Allow
  }

  /** A form that repeats the checked field is refused, even when every copy is the IAP identity. */
  lemma {:induction false} RepeatedFormFieldRefused(issuer: string, email: string, contentType: string, body: Bytes,
                                                   decodeJson: Bytes -> Option<Body>,
                                                   parseQuery: Bytes -> Option<FormValues>, field: string)
    requires ':' !in issuer && email != ""
    requires HasPrefix(contentType, FORM_TYPE) && parseQuery(body).Some?
    requires field in parseQuery(body).value && |parseQuery(body).value[field]| > 1
    ensures CheckIap(issuer + ":" + email, ParseBody(contentType, body, decodeJson, parseQuery), field)
              == Deny(Some(STATUS_UNAUTHORIZED))
  {
    IapHeaderOfIssuer(issuer, email);
    FormFieldShape(contentType, body, decodeJson, parseQuery, field);
  }

  /** "METHOD PATH", the key of the forbid list. */
  function RouteKey(verb: string, path: string): string {
    verb + " " + path
  }

  predicate IsGated(verb: string, path: string) {
    path in CHECK_IAP_FIELDS && (verb == "POST" || verb == "PUT")
  }

  /** The handler's decision for a request, given what the body check would see. */
  function Decide(verb: string, path: string, header: string, parsed: Parsed): (r: Verdict)
    ensures RouteKey(verb, path) in FORBID_APIS ==> r == Deny(Some(STATUS_NOT_ACCEPTABLE))
    ensures RouteKey(verb, path) !in FORBID_APIS && !IsGated(verb, path) ==> r == Allow
    ensures RouteKey(verb, path) !in FORBID_APIS && IsGated(verb, path) ==>
              r == CheckIap(header, parsed, CHECK_IAP_FIELDS[path])
  {
    if RouteKey(verb, path) in FORBID_APIS then Deny(Some(STATUS_NOT_ACCEPTABLE))
    else if IsGated(verb, path) then CheckIap(header, parsed, CHECK_IAP_FIELDS[path])
    else Allow
  }

  /** Nothing forbidden is ever gated, so a gated request always reaches the body check. */
  lemma GatedReachCheck(verb: string, path: string, header: string, parsed: Parsed)
    requires IsGated(verb, path)
    ensures Decide(verb, path, header, parsed) == CheckIap(header, parsed, CHECK_IAP_FIELDS[path])
  {
    assert path == "/prelogin" || path == "/identity/connect/token";
    assert RouteKey(verb, path) !in FORBID_APIS by {
      assert |RouteKey(verb, path)| != |"DELETE /api/accounts"|;
      assert |RouteKey(verb, path)| != |"PUT /api/accounts/profile"|;
      assert |RouteKey(verb, path)| != |"POST /api/organizations/{org_id}/leave"|;
    }
  }

  /** The forbid list is an exact match: a real organization id in the path is not refused. */
  lemma ForbidIsExact(header: string, parsed: Parsed)
    ensures Decide("POST", "/api/organizations/1234/leave", header, parsed) == Allow
    ensures Decide("GET", "/api/accounts", header, parsed) == Allow
  {
    assert |RouteKey("POST", "/api/organizations/1234/leave")| == 34;
    assert |RouteKey("GET", "/api/accounts")| == 17;
  }

  /** An incoming request: method, path and headers are fixed, the body is read and put back. */
  class Request {
    const verb: string
    const path: string
    const headers: map<string, string>
    var body: Bytes
    var contentLength: int

    constructor (verb: string, path: string, headers: map<string, string>, body: Bytes, contentLength: int)
      ensures this.verb == verb && this.path == path && this.headers == headers
      ensures this.body == body && this.contentLength == contentLength
    {
      this.verb := verb;
      this.path := path;
      this.headers := headers;
      this.body := body;
      this.contentLength := contentLength;
    }

    /** `parseRequestToMap`: decodes the body and puts the same bytes back for forwarding. */
    method ParseToMap(decodeJson: Bytes -> Option<Body>, parseQuery: Bytes -> Option<FormValues>)
      returns (r: Parsed)
      modifies this
      ensures body == old(body) && contentLength == |old(body)|
      ensures r == ParseBody(HeaderGet(headers, CONTENT_TYPE), old(body), decodeJson, parseQuery)
    {
      var ct := HeaderGet(headers, CONTENT_TYPE);
      var bodyBytes := body;
      body := bodyBytes;
      contentLength := |bodyBytes|;
      if HasPrefix(ct, JSON_TYPE) {
        var decoded := decodeJson(bodyBytes);
        if decoded.None? {
          return ParseFailed(InvalidJson);
        }
        return Fields(decoded.value);
      } else if HasPrefix(ct, FORM_TYPE) {
        var query := parseQuery(bodyBytes);
        if query.None? {
          return ParseFailed(InvalidForm);
        }
        var values := query.value;
        var result: Body := map[];
        var remaining := values.Keys;
        while remaining != {}
          invariant remaining <= values.Keys
          invariant result.Keys == values.Keys - remaining
          invariant forall k :: k in result ==> result[k] == FormValue(values[k])
          decreases |remaining|
        {
          var key :| key in remaining;
          var val := values[key];
          if |val| == 1 {
            result := result[key := BString(val[0])];
          } else {
            result := result[key := BList(val)];
          }
          remaining := remaining - {key};
        }
        assert result == FormBody(values);
        return Fields(result);
      } else {
        return ParseFailed(UnsupportedContentType(ct));
      }
    }

    /** The body is read only when the request is gated and IAP names someone. */
    predicate ReadsBody()
    {
      RouteKey(verb, path) !in FORBID_APIS && IsGated(verb, path) &&
      GetIapHeader(HeaderGet(headers, IAP_HEADER)).email != ""
    }

    /** The request handler: refuses forbidden routes, runs `checkIAP` on gated ones, forwards the rest. */
    method Handle(decodeJson: Bytes -> Option<Body>, parseQuery: Bytes -> Option<FormValues>)
      returns (v: Verdict)
      modifies this
      ensures v == Decide(verb, path, HeaderGet(headers, IAP_HEADER),
                          ParseBody(HeaderGet(headers, CONTENT_TYPE), old(body), decodeJson, parseQuery))
      ensures body == old(body)
      ensures contentLength == if ReadsBody() then |old(body)| else old(contentLength)
    {
      if RouteKey(verb, path) in FORBID_APIS {
        return Deny(Some(STATUS_NOT_ACCEPTABLE));
      }
      if path in CHECK_IAP_FIELDS {
        var field := CHECK_IAP_FIELDS[path];
        if verb == "POST" || verb == "PUT" {
          var iap := GetIapHeader(HeaderGet(headers, IAP_HEADER));
          if iap.email == "" {
            return Deny(iap.status);
          }
          var values := ParseToMap(decodeJson, parseQuery);
          if values.ParseFailed? {
            return Deny(Some(STATUS_BAD_REQUEST));
          }
          if field in values.fields && values.fields[field] != BString(iap.email) {
            return Deny(Some(STATUS_UNAUTHORIZED));
          }
        }
      }
      return Allow;
    }
  }

  const SCRIPT_END: Bytes := AsciiBytes("</script></body>")
  const SCRIPT_INJECTED: Bytes :=
    AsciiBytes("</script><script defer=\"defer\" src=\"vw-mgr-mod.js\"></script></body>")

  /** A response from upstream on its way back to the client. */
  class Response {
    const requestPath: string
    var body: Bytes
    var contentLength: int
    var headers: map<string, string>

    constructor (requestPath: string, body: Bytes, contentLength: int, headers: map<string, string>)
      ensures this.requestPath == requestPath && this.body == body
      ensures this.contentLength == contentLength && this.headers == headers
    {
      this.requestPath := requestPath;
      this.body := body;
      this.contentLength := contentLength;
      this.headers := headers;
    }

    /** `ModifyResponse`: on the start page, loads the helper script before `</body>` and keeps the
        declared length equal to the new body's. */
    method ModifyResponse()
      modifies this
      ensures requestPath != "/" ==>
                body == old(body) && contentLength == old(contentLength) && headers == old(headers)
      ensures requestPath == "/" ==>
                body == ReplaceAll(old(body), SCRIPT_END, SCRIPT_INJECTED) &&
                contentLength == |body| &&
                headers == old(headers)[CONTENT_LENGTH := NatToString(|body|)]
    {
      if requestPath != "/" {
        return;
      }
      var b := ReplaceAll(body, SCRIPT_END, SCRIPT_INJECTED);
      body := b;
      contentLength := |b|;
      headers := headers[CONTENT_LENGTH := NatToString(|b|)];
    }
  }

  /** A page that closes its last script right before `</body>` once gets the helper script there, and
      the declared length reads back as the new body's length. */
  lemma {:induction false} StartPageRewrite(head: Bytes, tail: Bytes)
    requires forall i: nat :: i < |head| ==> !OccursAt(head + SCRIPT_END + tail, SCRIPT_END, i)
    requires forall i: nat :: !OccursAt(tail, SCRIPT_END, i)
    ensures ReplaceAll(head + SCRIPT_END + tail, SCRIPT_END, SCRIPT_INJECTED) == head + SCRIPT_INJECTED + tail
    ensures DigitsValue(NatToString(|head + SCRIPT_INJECTED + tail|)) == |head| + |tail| + 67
  {
    ReplaceOnce(head, SCRIPT_END, SCRIPT_INJECTED, tail);
    DigitsRoundTrip(|head + SCRIPT_INJECTED + tail|);
  }
}
