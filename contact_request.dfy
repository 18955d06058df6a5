/** What the two contact handlers (api/contact.js and the older contact.js) share: the
    request, body collection and content-type dispatch, the submitted fields, the mail
    that is handed to the mail service and the response. */
module ContactRequest {
  import opened Wrappers
  import opened Text

  newtype byte = x: int | 0 <= x < 256

  /** A request as the function sees it: its method, its `Content-Type` header (None when
      absent) and the chunks its body arrives in. */
  datatype Request = Request(verb: string, contentType: Option<string>, chunks: seq<seq<byte>>)

  /** The submitted fields, each a string; a field the body does not carry is absent. */
  type Fields = map<string, string>

  /** A field is truthy when it is present and not the empty string. */
  predicate Truthy(f: Fields, k: string) {
    k in f && f[k] != ""
  }

  /** `f[k] || d`. */
  function OrDefault(f: Fields, k: string, d: string): (r: string)
    ensures Truthy(f, k) ==> r == f[k]
    ensures !Truthy(f, k) ==> r == d
  {
    if Truthy(f, k) then f[k] else d
  }

  /** A required field as the template prints it; only read once the field is known truthy. */
  function Field(f: Fields, k: string): string
    requires Truthy(f, k)
  {
    f[k]
  }

  function Flatten(chunks: seq<seq<byte>>): seq<byte> {
    if |chunks| == 0 then [] else Flatten(chunks[..|chunks| - 1]) + chunks[|chunks| - 1]
  }

  lemma {:induction false} FlattenLength(chunks: seq<seq<byte>>, i: nat)
    requires i < |chunks|
    ensures |Flatten(chunks[..i])| + |chunks[i]| <= |Flatten(chunks)|
    decreases |chunks|
  {
    var n := |chunks| - 1;
    assert chunks[..n][..i] == chunks[..i] by { assert i <= n; }
    if i < n {
      FlattenLength(chunks[..n], i);
    } else {
      assert chunks[..n] == chunks[..i];
    }
  }

  /** The body-reading loop: every chunk, in arrival order, end to end. */
  method ReadBody(chunks: seq<seq<byte>>) returns (raw: seq<byte>)
    ensures raw == Flatten(chunks)
  {
    raw := [];
    for i := 0 to |chunks|
      invariant raw == Flatten(chunks[..i])
    {
      assert chunks[..i + 1][..i] == chunks[..i];
      raw := raw + chunks[i];
    }
    assert chunks[..|chunks|] == chunks;
  }

  /** Every chunk lands in the body whole, after the chunks before it. */
  lemma {:induction false} ChunkInBody(chunks: seq<seq<byte>>, i: nat)
    requires i < |chunks|
    ensures var start := |Flatten(chunks[..i])|;
            start + |chunks[i]| <= |Flatten(chunks)| && Flatten(chunks)[start..start + |chunks[i]|] == chunks[i]
    decreases |chunks|
  {
    var n := |chunks| - 1;
    var start := |Flatten(chunks[..i])|;
    FlattenLength(chunks, i);
    if i < n {
      ChunkInBody(chunks[..n], i);
      assert chunks[..n][..i] == chunks[..i];
      assert chunks[..n][i] == chunks[i];
      var before := Flatten(chunks[..n]);
      assert Flatten(chunks) == before + chunks[n];
      assert Flatten(chunks)[start..start + |chunks[i]|] == before[start..start + |chunks[i]|];
    } else {
      assert chunks[..n] == chunks[..i];
    }
  }

  /** The media type: the header's text before the first ';', trimmed; no header reads as "". */
  function MediaType(contentType: Option<string>): (r: string)
    ensures contentType.None? ==> r == ""
    ensures ';' !in r
    ensures |r| > 0 ==> !IsJsSpace(r[0]) && !IsJsSpace(r[|r| - 1])
  {
    Trim(Before(contentType.GetOr(""), ';'))
  }

  const Json := "application/json"
  const Form := "application/x-www-form-urlencoded"

  /** `parseBody` once the body is read. `json` is what JSON parsing makes of it: the
      object's fields, or None when it is malformed or not an object (null, a number, a
      string, an array), all of which leave no field to read. `form` is what query-string
      parsing makes of it. Every other media type yields no fields. */
  function ParseBody(contentType: Option<string>, json: Option<Fields>, form: Fields): (f: Fields)
    ensures MediaType(contentType) == Json && json.Some? ==> f == json.value
    ensures MediaType(contentType) == Json && json.None? ==> f == map[]
    ensures MediaType(contentType) == Form ==> f == form
    ensures MediaType(contentType) != Json && MediaType(contentType) != Form ==> f == map[]
  {
    var ct := MediaType(contentType);
    if ct == Json then json.GetOr(map[])
    else if ct == Form then form
    else map[]
  }

  lemma {:induction false} BeforeAbsent(s: string, c: char)
    requires c !in s
    ensures Before(s, c) == s
  {
    if |s| > 0 {
      BeforeAbsent(s[1..], c);
    }
  }

  /** Trimming only ever removes white space at the two ends. */
  lemma TrimKeeps(s: string)
    requires |s| > 0 && !IsJsSpace(s[0]) && !IsJsSpace(s[|s| - 1])
    ensures Trim(s) == s
  {
    assert TrimStart(s) == s;
    assert TrimEnd(s) == s;
  }

  /** Media-type parameters such as a charset play no part in the dispatch. */
  lemma ParametersIgnored(t: string, params: string)
    requires ';' !in t
    ensures MediaType(Some(t + ";" + params)) == MediaType(Some(t))
  {
    BeforeFirst(t, ';', params);
    BeforeAbsent(t, ';');
  }

  /** A header without parameters or surrounding white space is its own media type. */
  lemma PlainMediaType(t: string)
    requires ';' !in t && |t| > 0 && !IsJsSpace(t[0]) && !IsJsSpace(t[|t| - 1])
    ensures MediaType(Some(t)) == t
  {
    BeforeAbsent(t, ';');
    TrimKeeps(t);
  }

  /** A JSON body is read whatever parameters (a charset, say) follow the media type. */
  lemma JsonWithParameters(params: string, json: Fields, form: Fields)
    ensures ParseBody(Some(Json + ";" + params), Some(json), form) == json
  {
    PlainWithParameters(Json, params);
  }

  lemma PlainWithParameters(t: string, params: string)
    requires ';' !in t && |t| > 0 && !IsJsSpace(t[0]) && !IsJsSpace(t[|t| - 1])
    ensures MediaType(Some(t + ";" + params)) == t
  {
    ParametersIgnored(t, params);
    PlainMediaType(t);
  }

  /** The comparison is exact: one sent as "Application/JSON" yields no fields. */
  lemma CaseMatters(json: Fields, form: Fields)
    ensures ParseBody(Some("Application/JSON"), Some(json), form) == map[]
  {
    var t := "Application/JSON";
    PlainMediaType(t);
    assert t[0] != Json[0] && t[0] != Form[0];
  }

  /** The message handed to the mail service. */
  datatype Email = Email(from: string, to: seq<string>, replyTo: string, subject: string, text: string)

  const Sender := "Lafayette Homes <inbox@buildwithlafayette.com>"
  const Inbox := ["hello@buildwithlafayette.com"]
  const ThankYou := "https://buildwithlafayette.com/thank-you.html"

  /** Whether the mail service accepted the message or threw. */
  datatype SendOutcome = Sent | Failed

  /** The response: status, headers set, body sent, and the message handed to the mail
      service (None when no send was attempted). */
  datatype Response = Response(status: nat, headers: map<string, string>, body: string, mailed: Option<Email>)

  const MethodNotAllowed := Response(405, map["Allow" := "POST"], "Method Not Allowed", None)
  const MissingFields := Response(400, map[], "Missing required fields: name, email, message", None)

  predicate HasRequired(f: Fields) {
    Truthy(f, "name") && Truthy(f, "email") && Truthy(f, "message")
  }

  /** A header value Node's `setHeader` accepts: every character a tab, a printable ASCII
      character (0x20 to 0x7E) or one from 0x80 to 0xFF. Any other character makes it throw. */
  predicate ValidHeaderValue(v: string) {
    forall c :: c in v ==> HeaderChar(c)
  }

  predicate HeaderChar(c: char) {
    c == '\t' || ' ' <= c <= '~' || '\U{0080}' <= c <= '\U{00FF}'
  }

  /** The redirect target: `_redirect || 'https://buildwithlafayette.com/thank-you.html'`. */
  function RedirectUrl(f: Fields): string {
    OrDefault(f, "_redirect", ThankYou)
  }

  const SendFailed := "Email send failed. Try again later."

  /** The outcome once a message has been handed over. When it was sent, `setHeader` sets
      Location to the redirect target and the answer is a 303; a target `setHeader` rejects
      throws inside the same `try` as the send, so the catch answers 500 although the message
      went out. A send that throws answers 500 too. */
  function Delivered(f: Fields, email: Email, outcome: SendOutcome): (r: Response)
    ensures r.mailed == Some(email)
    ensures outcome == Sent && ValidHeaderValue(RedirectUrl(f)) ==>
              r.status == 303 && r.body == "" && r.headers == map["Location" := RedirectUrl(f)]
    ensures outcome == Failed || !ValidHeaderValue(RedirectUrl(f)) ==>
              r.status == 500 && r.headers == map[] && r.body == SendFailed
    ensures r.status == 303 <==> outcome == Sent && ValidHeaderValue(RedirectUrl(f))
  {
    match outcome
    case Sent =>
      if ValidHeaderValue(RedirectUrl(f)) then Response(303, map["Location" := RedirectUrl(f)], "", Some(email))
      else Response(500, map[], SendFailed, Some(email))
    case Failed => Response(500, map[], SendFailed, Some(email))
  }

  /** Without a `_redirect` a sent message is answered with the 303 to the thank-you page. */
  lemma ThankYouRedirects(f: Fields, email: Email)
    requires !Truthy(f, "_redirect")
    ensures Delivered(f, email, Sent) == Response(303, map["Location" := ThankYou], "", Some(email))
  {
    assert RedirectUrl(f) == ThankYou;
    ThankYouValid();
  }

  /** The thank-you address is a header value `setHeader` accepts. */
  lemma ThankYouValid()
    ensures ValidHeaderValue(ThankYou)
  {
    PiecesValid();
    assert ThankYou == "https://" + "buildwith" + "lafayette" + ".com/" + "thank-you" + ".html";
  }

  lemma PiecesValid()
    ensures ValidHeaderValue("https://" + "buildwith" + "lafayette" + ".com/" + "thank-you" + ".html")
  {
    assert ValidHeaderValue("https://") && ValidHeaderValue("buildwith") && ValidHeaderValue("lafayette");
    assert ValidHeaderValue(".com/") && ValidHeaderValue("thank-you") && ValidHeaderValue(".html");
  }

  /** A `_redirect` holding a line break, sent as "%0A" in a form, turns a delivered message
      into a 500 that asks the visitor to try again. */
  lemma BrokenRedirectFailsAfterSending(f: Fields, email: Email)
    requires Truthy(f, "_redirect") && '\n' in f["_redirect"]
    ensures Delivered(f, email, Sent) == Response(500, map[], SendFailed, Some(email))
  {
    assert !HeaderChar('\n');
  }

  /** The fields a request yields, given what the two parsers make of its body. */
  function Submitted(req: Request, json: seq<byte> -> Option<Fields>, form: seq<byte> -> Fields): (f: Fields)
    ensures MediaType(req.contentType) == Json ==> f == json(Flatten(req.chunks)).GetOr(map[])
    ensures MediaType(req.contentType) == Form ==> f == form(Flatten(req.chunks))
    ensures MediaType(req.contentType) != Json && MediaType(req.contentType) != Form ==> f == map[]
  {
    var raw := Flatten(req.chunks);
    ParseBody(req.contentType, json(raw), form(raw))
  }
}
