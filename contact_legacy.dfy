/** The older contact handler, contact.js: the same gate, field check and redirect as
    api/contact.js, with a fixed seven-line body and a plain subject. */
module ContactLegacy {
  import opened Wrappers
  import opened Text
  import opened ContactRequest
  import ContactApi

  /** The seven lines: name, email, phone and city (the last two empty when not given),
      a blank line, the heading and the message. */
  function Lines(f: Fields): (lines: seq<string>)
    requires HasRequired(f)
    ensures |lines| == 7
  {
    ["Name: " + Field(f, "name"), "Email: " + Field(f, "email"), "Phone: " + OrDefault(f, "phone", ""),
     "City: " + OrDefault(f, "city", ""), "", "Message:", Field(f, "message")]
  }

  /** The older body is the newer one without its Source line and its listing lines. */
  lemma LegacyIsApiCore(f: Fields)
    requires HasRequired(f)
    ensures var lines := ContactApi.Lines(ContactApi.Recorded(f));
            Lines(f) == lines[1..5] + lines[|lines| - 3..]
  {
    var q := ContactApi.Recorded(f);
    var lines := ContactApi.Lines(q);
    var opt := ContactApi.OptLine("Property: ", q.property) + ContactApi.OptLine("Listing ID: ", q.listingId)
               + ContactApi.OptLine("Listing URL: ", q.listingUrl);
    var head := ["Source: " + q.source, "Name: " + q.name, "Email: " + q.email, "Phone: " + q.phone, "City: " + q.city];
    assert lines == head + opt + ["", "Message:", q.message];
    assert lines[1..5] == head[1..5];
    assert lines[|lines| - 3..] == ["", "Message:", q.message];
  }

  function EmailText(f: Fields): string
    requires HasRequired(f)
  {
    Join(Lines(f), '\n')
  }

  /** Without line breaks in the submitted values, the text splits back into the seven lines,
      and the message is its last line. */
  lemma EmailTextRoundTrip(f: Fields)
    requires HasRequired(f) && ContactApi.NoLineBreaks(f)
    ensures Split(EmailText(f), '\n') == Lines(f)
    ensures Split(EmailText(f), '\n')[6] == f["message"]
  {
    var lines := Lines(f);
    assert '\n' !in f["name"] && '\n' !in f["email"] && '\n' !in f["message"];
    assert '\n' !in OrDefault(f, "phone", "") && '\n' !in OrDefault(f, "city", "");
    assert forall i :: 0 <= i < |lines| ==> '\n' !in lines[i];
    SplitJoin(lines, '\n');
  }

  function Compose(f: Fields): (e: Email)
    requires HasRequired(f)
    ensures e.from == Sender && e.to == Inbox && e.replyTo == f["email"]
    ensures e.subject == "New inquiry from " + f["name"]
    ensures e.text == EmailText(f)
  {
    Email(Sender, Inbox, Field(f, "email"), "New inquiry from " + Field(f, "name"), EmailText(f))
  }

  function Handle(req: Request, json: seq<byte> -> Option<Fields>, form: seq<byte> -> Fields,
                        outcome: SendOutcome): (r: Response)
    ensures req.verb != "POST" ==> r == MethodNotAllowed
    ensures req.verb == "POST" && !HasRequired(Submitted(req, json, form)) ==> r == MissingFields
    ensures r.mailed.Some? <==> req.verb == "POST" && HasRequired(Submitted(req, json, form))
    ensures r.status == 303 <==> req.verb == "POST" && HasRequired(Submitted(req, json, form)) && outcome == Sent
                                 && ValidHeaderValue(RedirectUrl(Submitted(req, json, form)))
    ensures r.mailed.Some? ==>
              r == Delivered(Submitted(req, json, form), Compose(Submitted(req, json, form)), outcome)
  {
    if req.verb != "POST" then MethodNotAllowed
    else
      var f := Submitted(req, json, form);
      if !HasRequired(f) then MissingFields
      else Delivered(f, Compose(f), outcome)
  }

  method Serve(req: Request, json: seq<byte> -> Option<Fields>, form: seq<byte> -> Fields,
                     outcome: SendOutcome) returns (r: Response)
    ensures r == Handle(req, json, form, outcome)
  {
    if req.verb != "POST" {
      return MethodNotAllowed;
    }
    var raw := ReadBody(req.chunks);
    var f := ParseBody(req.contentType, json(raw), form(raw));
    if !HasRequired(f) {
      return MissingFields;
    }
    r := Delivered(f, Compose(f), outcome);
  }

  /** Both handlers answer every request with the same status, headers and body, and send
      to the same address with the same reply-to; only the subject and text differ. */
  lemma SameDecisions(req: Request, json: seq<byte> -> Option<Fields>, form: seq<byte> -> Fields,
                      outcome: SendOutcome)
    ensures var a := ContactApi.Handle(req, json, form, outcome);
            var b := Handle(req, json, form, outcome);
            a.status == b.status && a.headers == b.headers && a.body == b.body &&
            a.mailed.Some? == b.mailed.Some? &&
            (a.mailed.Some? ==> a.mailed.value.replyTo == b.mailed.value.replyTo &&
                                a.mailed.value.to == b.mailed.value.to)
  {
  }
}
