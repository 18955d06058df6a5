/** The contact handler of api/contact.js: the method gate, the field check, the email it
    composes (a Source line, optional listing lines, a mojibake dash in the subject) and
    the redirect. */
module ContactApi {
  import opened Wrappers
  import opened Text
  import opened ContactRequest

  /** What one inquiry email conveys, line by line. */
  datatype Inquiry = Inquiry(source: string, name: string, email: string, phone: string, city: string,
                             property: Option<string>, listingId: Option<string>, listingUrl: Option<string>,
                             message: string)

  /** A field that gets a line of its own only when it is truthy. */
  function Optional(f: Fields, k: string): (r: Option<string>)
    ensures r.Some? <==> Truthy(f, k)
    ensures r.Some? ==> r.value == f[k] && r.value != ""
  {
    if Truthy(f, k) then Some(f[k]) else None
  }

  /** The inquiry the submitted fields describe, defaults filled in. */
  function Recorded(f: Fields): (q: Inquiry)
    requires HasRequired(f)
    ensures q.name == f["name"] && q.email == f["email"] && q.message == f["message"]
    ensures q.source != "" && q.name != "" && q.email != "" && q.message != ""
    ensures q.property.Some? <==> Truthy(f, "property")
    ensures q.listingId.Some? <==> Truthy(f, "listing_id")
    ensures q.listingUrl.Some? <==> Truthy(f, "listing_url")
  {
    Inquiry(OrDefault(f, "form_source", "Website Contact"), Field(f, "name"), Field(f, "email"),
            OrDefault(f, "phone", ""), OrDefault(f, "city", ""),
            Optional(f, "property"), Optional(f, "listing_id"), Optional(f, "listing_url"),
            Field(f, "message"))
  }

  function OptLine(tag: string, v: Option<string>): seq<string> {
    if v.Some? then [tag + v.value] else []
  }

  /** The email body's lines. */
  function Lines(q: Inquiry): (lines: seq<string>)
    ensures 8 <= |lines| <= 11
  {
    ["Source: " + q.source, "Name: " + q.name, "Email: " + q.email, "Phone: " + q.phone, "City: " + q.city]
    + OptLine("Property: ", q.property) + OptLine("Listing ID: ", q.listingId)
    + OptLine("Listing URL: ", q.listingUrl)
    + ["", "Message:", q.message]
  }

  /** The lines array as the handler builds it: five fixed lines, a push for each truthy
      listing field, then the blank line, the heading and the message. */
  method AssembleLines(f: Fields) returns (lines: seq<string>)
    requires HasRequired(f)
    ensures lines == Lines(Recorded(f))
  {
    lines := ["Source: " + OrDefault(f, "form_source", "Website Contact"), "Name: " + f["name"],
              "Email: " + f["email"], "Phone: " + OrDefault(f, "phone", ""), "City: " + OrDefault(f, "city", "")];
    if Truthy(f, "property") {
      lines := lines + ["Property: " + f["property"]];
    }
    if Truthy(f, "listing_id") {
      lines := lines + ["Listing ID: " + f["listing_id"]];
    }
    if Truthy(f, "listing_url") {
      lines := lines + ["Listing URL: " + f["listing_url"]];
    }
    lines := lines + ["", "Message:", f["message"]];
  }

  predicate StartsWith(s: string, p: string) {
    |p| <= |s| && s[..|p|] == p
  }

  /** Takes a leading line that carries `tag`, returning its value and the lines after it. */
  function Take(lines: seq<string>, tag: string): (Option<string>, seq<string>) {
    if |lines| > 0 && StartsWith(lines[0], tag) then (Some(lines[0][|tag|..]), lines[1..]) else (None, lines)
  }

  /** Reads the optional listing lines back, in their fixed order. */
  function ReadOptional(opt: seq<string>): Option<(Option<string>, Option<string>, Option<string>)> {
    var (p, r1) := Take(opt, "Property: ");
    var (i, r2) := Take(r1, "Listing ID: ");
    var (u, r3) := Take(r2, "Listing URL: ");
    if |r3| == 0 then Some((p, i, u)) else None
  }

  /** Reads an email body's lines back into the inquiry they convey. */
  function ReadLines(lines: seq<string>): Option<Inquiry> {
    if |lines| < 8 then None
    else
      var n := |lines|;
      if !(StartsWith(lines[0], "Source: ") && StartsWith(lines[1], "Name: ") && StartsWith(lines[2], "Email: ")
           && StartsWith(lines[3], "Phone: ") && StartsWith(lines[4], "City: ")
           && lines[n - 3] == "" && lines[n - 2] == "Message:")
      then None
      else
        match ReadOptional(lines[5..n - 3])
        case None => None
        case Some((p, i, u)) =>
          Some(Inquiry(lines[0][8..], lines[1][6..], lines[2][7..], lines[3][7..], lines[4][6..], p, i, u, lines[n - 1]))
  }

  lemma TakeLine(tag: string, v: Option<string>, rest: seq<string>)
    requires rest == [] || !StartsWith(rest[0], tag)
    ensures Take(OptLine(tag, v) + rest, tag) == (v, rest)
  {
    if v.Some? {
      var line := tag + v.value;
      assert (OptLine(tag, v) + rest)[0] == line;
      assert line[..|tag|] == tag;
      assert line[|tag|..] == v.value;
      assert (OptLine(tag, v) + rest)[1..] == rest;
    } else {
      assert OptLine(tag, v) + rest == rest;
    }
  }

  /** A line whose first `k+1` characters disagree with `tag`'s does not carry it. */
  lemma Differs(line: string, tag: string, k: nat)
    requires k < |tag| && k < |line| && line[k] != tag[k]
    ensures !StartsWith(line, tag)
  {
    if |tag| <= |line| {
      assert line[..|tag|][k] != tag[k];
    }
  }

  lemma {:induction false} ReadOptionalRoundTrip(p: Option<string>, i: Option<string>, u: Option<string>)
    ensures ReadOptional(OptLine("Property: ", p) + OptLine("Listing ID: ", i) + OptLine("Listing URL: ", u))
            == Some((p, i, u))
  {
    var lu := OptLine("Listing URL: ", u);
    var li := OptLine("Listing ID: ", i);
    if u.Some? {
      Differs(lu[0], "Listing ID: ", 8);
      Differs(lu[0], "Property: ", 0);
    }
    if i.Some? {
      assert (li + lu)[0] == li[0];
      Differs(li[0], "Property: ", 0);
    } else {
      assert li + lu == lu;
    }
    assert OptLine("Property: ", p) + li + lu == OptLine("Property: ", p) + (li + lu);
    TakeLine("Property: ", p, li + lu);
    TakeLine("Listing ID: ", i, lu);
    TakeLine("Listing URL: ", u, []);
    assert lu + [] == lu;
  }

  lemma Carries(tag: string, v: string)
    ensures StartsWith(tag + v, tag) && (tag + v)[|tag|..] == v
  {
    assert (tag + v)[..|tag|] == tag;
  }

  /** Reading the lines back yields exactly the inquiry they were written from. */
  lemma {:induction false} LinesRoundTrip(q: Inquiry)
    ensures ReadLines(Lines(q)) == Some(q)
  {
    var lines := Lines(q);
    var n := |lines|;
    var opt := OptLine("Property: ", q.property) + OptLine("Listing ID: ", q.listingId)
               + OptLine("Listing URL: ", q.listingUrl);
    var head := ["Source: " + q.source, "Name: " + q.name, "Email: " + q.email, "Phone: " + q.phone, "City: " + q.city];
    assert lines == head + opt + ["", "Message:", q.message];
    assert lines[5..n - 3] == opt;
    assert lines[n - 3] == "" && lines[n - 2] == "Message:" && lines[n - 1] == q.message;
    Carries("Source: ", q.source);
    Carries("Name: ", q.name);
    Carries("Email: ", q.email);
    Carries("Phone: ", q.phone);
    Carries("City: ", q.city);
    ReadOptionalRoundTrip(q.property, q.listingId, q.listingUrl);
  }

  predicate NoLineBreaks(f: Fields) {
    forall k :: k in f ==> '\n' !in f[k]
  }

  /** The email text: the lines joined by newlines. */
  function EmailText(f: Fields): (r: string)
    requires HasRequired(f)
    ensures var head := "Source: " + Recorded(f).source; |r| >= |head| && r[..|head|] == head
    ensures |r| >= |f["message"]| && r[|r| - |f["message"]|..] == f["message"]
  {
    var lines := Lines(Recorded(f));
    JoinEnds(lines, '\n');
    Join(lines, '\n')
  }

  /** When no submitted value holds a line break, the email text splits back into its lines
      and those read back into the inquiry, defaults included. */
  lemma {:induction false} EmailTextRoundTrip(f: Fields)
    requires HasRequired(f) && NoLineBreaks(f)
    ensures ReadLines(Split(EmailText(f), '\n')) == Some(Recorded(f))
  {
    var q := Recorded(f);
    var lines := Lines(q);
    assert Unbroken(q);
    NoBreaks(q);
    SplitJoin(lines, '\n');
    LinesRoundTrip(q);
  }

  predicate LinesUnbroken(lines: seq<string>) {
    forall i :: 0 <= i < |lines| ==> '\n' !in lines[i]
  }

  lemma UnbrokenConcat(a: seq<string>, b: seq<string>)
    requires LinesUnbroken(a) && LinesUnbroken(b)
    ensures LinesUnbroken(a + b)
  {
    forall i | 0 <= i < |a + b|
      ensures '\n' !in (a + b)[i]
    {
      if i >= |a| {
        assert (a + b)[i] == b[i - |a|];
      }
    }
  }

  /** No value the inquiry carries holds a line break. */
  predicate Unbroken(q: Inquiry) {
    '\n' !in q.source && '\n' !in q.name && '\n' !in q.email && '\n' !in q.phone && '\n' !in q.city
    && (q.property.Some? ==> '\n' !in q.property.value)
    && (q.listingId.Some? ==> '\n' !in q.listingId.value)
    && (q.listingUrl.Some? ==> '\n' !in q.listingUrl.value)
    && '\n' !in q.message
  }

  lemma HeadUnbroken(q: Inquiry)
    requires Unbroken(q)
    ensures LinesUnbroken(["Source: " + q.source, "Name: " + q.name, "Email: " + q.email,
                           "Phone: " + q.phone, "City: " + q.city])
  {
  }

  lemma NoBreaks(q: Inquiry)
    requires Unbroken(q)
    ensures LinesUnbroken(Lines(q))
  {
    var head := ["Source: " + q.source, "Name: " + q.name, "Email: " + q.email, "Phone: " + q.phone, "City: " + q.city];
    var p := OptLine("Property: ", q.property);
    var i := OptLine("Listing ID: ", q.listingId);
    var u := OptLine("Listing URL: ", q.listingUrl);
    var tail := ["", "Message:", q.message];
    HeadUnbroken(q);
    assert LinesUnbroken(p) && LinesUnbroken(i) && LinesUnbroken(u) && LinesUnbroken(tail);
    UnbrokenConcat(head, p);
    UnbrokenConcat(head + p, i);
    UnbrokenConcat(head + p + i, u);
    UnbrokenConcat(head + p + i + u, tail);
  }

  /** Joining is blind to where a line break came from: a line that holds one joins
      like the two lines either side of it. */
  lemma {:induction false} JoinBreak(a: seq<string>, x: string, y: string, b: seq<string>, sep: char)
    ensures Join(a + [x + [sep] + y] + b, sep) == Join(a + [x, y] + b, sep)
    decreases |a|
  {
    if |a| == 0 {
      assert a + [x + [sep] + y] + b == [x + [sep] + y] + b;
      assert a + [x, y] + b == [x, y] + b;
      assert ([x, y] + b)[1..] == [y] + b;
      if |b| > 0 {
        assert ([y] + b)[1..] == b;
        assert ([x + [sep] + y] + b)[1..] == b;
      }
    } else {
      JoinBreak(a[1..], x, y, b, sep);
      assert (a + [x + [sep] + y] + b)[1..] == a[1..] + [x + [sep] + y] + b;
      assert (a + [x, y] + b)[1..] == a[1..] + [x, y] + b;
    }
  }

  /** A line break in the city forges a listing line: with no listing fields submitted, the
      text reads back as an inquiry about whatever listing id follows the break. */
  lemma CityBreakForgesListing(f: Fields, c: string, v: string)
    requires HasRequired(f) && !Truthy(f, "property") && !Truthy(f, "listing_id") && !Truthy(f, "listing_url")
    requires "city" in f && f["city"] == c + "\nListing ID: " + v && '\n' !in c && '\n' !in v
    requires forall k :: k in f && k != "city" ==> '\n' !in f[k]
    ensures ReadLines(Split(EmailText(f), '\n')) == Some(Recorded(f).(city := c, listingId := Some(v)))
  {
    var q := Recorded(f);
    var forged := q.(city := c, listingId := Some(v));
    var head := ["Source: " + q.source, "Name: " + q.name, "Email: " + q.email, "Phone: " + q.phone];
    var tail := ["", "Message:", q.message];
    var x := "City: " + c;
    var y := "Listing ID: " + v;
    assert q.city == c + "\nListing ID: " + v;
    assert "City: " + q.city == x + ['\n'] + y;
    assert Lines(q) == head + [x + ['\n'] + y] + tail;
    assert Lines(forged) == head + [x, y] + tail;
    JoinBreak(head, x, y, tail, '\n');
    assert Unbroken(forged);
    NoBreaks(forged);
    SplitJoin(Lines(forged), '\n');
    LinesRoundTrip(forged);
  }

  /** The subject, with the em dash as its UTF-8 bytes read as Windows-1252 characters. */
  function Subject(f: Fields): (r: string)
    requires HasRequired(f)
    ensures |r| > 13 + |f["name"]| && r[..13] == "New inquiry ("
    ensures r[|r| - |f["name"]|..] == f["name"]
  {
    "New inquiry (" + OrDefault(f, "form_source", "Website") + ") \U{00E2}\U{20AC}\U{201D} " + Field(f, "name")
  }

  function Compose(f: Fields): (e: Email)
    requires HasRequired(f)
    ensures e.from == Sender && e.to == Inbox && e.replyTo == f["email"]
    ensures e.subject == "New inquiry (" + OrDefault(f, "form_source", "Website") + ") \U{00E2}\U{20AC}\U{201D} " + f["name"]
    ensures e.text == EmailText(f)
  {
    Email(Sender, Inbox, Field(f, "email"), Subject(f), EmailText(f))
  }

  /** The handler, given what the two body parsers make of the request's body and whether
      the mail service accepts the message. */
  function Handle(req: Request, json: seq<byte> -> Option<Fields>, form: seq<byte> -> Fields,
                  outcome: SendOutcome): (r: Response)
    ensures req.verb != "POST" ==> r == MethodNotAllowed
    ensures req.verb == "POST" && !HasRequired(Submitted(req, json, form)) ==> r == MissingFields
    ensures r.mailed.Some? <==> req.verb == "POST" && HasRequired(Submitted(req, json, form))
    ensures r.status == 303 <==> req.verb == "POST" && HasRequired(Submitted(req, json, form)) && outcome == Sent
                                 && ValidHeaderValue(RedirectUrl(Submitted(req, json, form)))
    ensures r.mailed.Some? ==> r == Delivered(Submitted(req, json, form), Compose(Submitted(req, json, form)), outcome)
  {
    if req.verb != "POST" then MethodNotAllowed
    else
      var f := Submitted(req, json, form);
      if !HasRequired(f) then MissingFields
      else Delivered(f, Compose(f), outcome)
  }

  /** The handler as it runs: the body is only read once the method is known to be POST. */
  method Serve(req: Request, json: seq<byte> -> Option<Fields>, form: seq<byte> -> Fields,
               outcome: SendOutcome) returns (r: Response)
    ensures r == Handle(req, json, form, outcome)
  {
    if req.verb != "POST" {
      return MethodNotAllowed;
    }
    var raw := ReadBody(req.chunks);
    var f := ParseBody(req.contentType, json(raw), form(raw));
    if !HasRequired(f) {
      return MissingFields;
    }
    var lines := AssembleLines(f);
    var email := Email(Sender, Inbox, f["email"], Subject(f), Join(lines, '\n'));
    r := Delivered(f, email, outcome);
  }
}
