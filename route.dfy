/**
 * The contact endpoint `POST /api/contact`: required-field presence, bot
 * verification, sanitation, e-mail shape, composition of the notification
 * and its hand-over to the mail transport, in that fail-fast order.
 *
 * The two outside services are inputs: `Config` holds what the environment
 * supplies (the verification secret, the mail credentials) and `Replies` what
 * the verification service and the SMTP transport answer for this request.
 */
module ContactRoute {
  import opened Wrappers
  import opened Text
  import opened Sanitize
  import opened EmailShape

  // ---------------------------------------------------------------------
  // The request body

  /** One property of the parsed JSON body, as `body[name]` yields it. */
  datatype Field = Absent | Str(s: string) | NonString(truthy: bool)

  /** JavaScript's `!value`: true of undefined, null, '', 0, NaN and false. */
  predicate IsFalsy(f: Field) {
    match f
    case Absent => true
    case Str(s) => s == ""
    case NonString(truthy) => !truthy
  }

  /** `body.services`: an array of values, or anything else. */
  datatype ServicesField = NotArray | Array(items: seq<Field>)

  datatype ContactFormData = ContactFormData(
    fullName: Field,
    companyName: Field,
    workEmail: Field,
    phoneNumber: Field,
    industry: Field,
    services: ServicesField,
    projectBrief: Field,
    recaptchaToken: Field)

  /** The names the presence check looks up, in the order it reports them. */
  const RequiredFields: seq<string> :=
    ["fullName", "companyName", "workEmail", "projectBrief", "recaptchaToken"]

  /** `body[name]` for the string-valued names of the body; any other name reads as undefined. */
  function FieldNamed(body: ContactFormData, name: string): Field {
    match name
    case "fullName" => body.fullName
    case "companyName" => body.companyName
    case "workEmail" => body.workEmail
    case "phoneNumber" => body.phoneNumber
    case "industry" => body.industry
    case "projectBrief" => body.projectBrief
    case "recaptchaToken" => body.recaptchaToken
    case _ => Absent
  }

  // ---------------------------------------------------------------------
  // Presence

  /** `names.filter(field => !body[field])`. */
  function MissingAmong(body: ContactFormData, names: seq<string>): (missing: seq<string>)
    ensures |missing| <= |names|
    ensures forall n :: n in missing <==> n in names && IsFalsy(FieldNamed(body, n))
    ensures missing == [] <==> forall i :: 0 <= i < |names| ==> !IsFalsy(FieldNamed(body, names[i]))
  {
    if names == [] then []
    else
      (if IsFalsy(FieldNamed(body, names[0])) then [names[0]] else [])
      + MissingAmong(body, names[1..])
  }

  /** `missingFields`: nothing is missing exactly when all five required values are truthy. */
  function MissingFields(body: ContactFormData): (missing: seq<string>)
    ensures forall n :: n in missing ==> n in RequiredFields
    ensures missing == [] <==>
      && !IsFalsy(body.fullName) && !IsFalsy(body.companyName) && !IsFalsy(body.workEmail)
      && !IsFalsy(body.projectBrief) && !IsFalsy(body.recaptchaToken)
  {
    assert FieldNamed(body, RequiredFields[0]) == body.fullName;
    assert FieldNamed(body, RequiredFields[1]) == body.companyName;
    assert FieldNamed(body, RequiredFields[2]) == body.workEmail;
    assert FieldNamed(body, RequiredFields[3]) == body.projectBrief;
    assert FieldNamed(body, RequiredFields[4]) == body.recaptchaToken;
    MissingAmong(body, RequiredFields)
  }

  /**
   * The missing-field list is the falsy required fields, each once, in the
   * order fullName, companyName, workEmail, projectBrief, recaptchaToken.
   */
  lemma MissingFieldsInOrder(body: ContactFormData)
    ensures MissingFields(body) ==
      (if IsFalsy(body.fullName) then ["fullName"] else [])
      + (if IsFalsy(body.companyName) then ["companyName"] else [])
      + (if IsFalsy(body.workEmail) then ["workEmail"] else [])
      + (if IsFalsy(body.projectBrief) then ["projectBrief"] else [])
      + (if IsFalsy(body.recaptchaToken) then ["recaptchaToken"] else [])
  {
    var f1, f2, f3, f4, f5 := "fullName", "companyName", "workEmail", "projectBrief", "recaptchaToken";
    var e1 := if IsFalsy(body.fullName) then [f1] else [];
    var e2 := if IsFalsy(body.companyName) then [f2] else [];
    var e3 := if IsFalsy(body.workEmail) then [f3] else [];
    var e4 := if IsFalsy(body.projectBrief) then [f4] else [];
    var e5 := if IsFalsy(body.recaptchaToken) then [f5] else [];
    assert FieldNamed(body, f1) == body.fullName;
    assert FieldNamed(body, f2) == body.companyName;
    assert FieldNamed(body, f3) == body.workEmail;
    assert FieldNamed(body, f4) == body.projectBrief;
    assert FieldNamed(body, f5) == body.recaptchaToken;
    var n5: seq<string> := [f5];
    var n4 := [f4] + n5;
    var n3 := [f3] + n4;
    var n2 := [f2] + n3;
    var n1 := [f1] + n2;
    assert n1 == RequiredFields;
    MissingAmongCons(body, f5, []);
    assert [f5] + [] == n5;
    assert MissingAmong(body, n5) == e5 + MissingAmong(body, []);
    assert MissingAmong(body, n5) == e5;
    MissingAmongCons(body, f4, n5);
    assert MissingAmong(body, n4) == e4 + e5;
    MissingAmongCons(body, f3, n4);
    assert MissingAmong(body, n3) == e3 + (e4 + e5);
    MissingAmongCons(body, f2, n3);
    assert MissingAmong(body, n2) == e2 + (e3 + (e4 + e5));
    MissingAmongCons(body, f1, n2);
    assert MissingAmong(body, n1) == e1 + (e2 + (e3 + (e4 + e5)));
    ConcatAssoc(e1, e2, e3 + (e4 + e5));
    ConcatAssoc(e1 + e2, e3, e4 + e5);
    ConcatAssoc(e1 + e2 + e3, e4, e5);
  }

  lemma MissingAmongCons(body: ContactFormData, name: string, rest: seq<string>)
    ensures MissingAmong(body, [name] + rest)
         == (if IsFalsy(FieldNamed(body, name)) then [name] else []) + MissingAmong(body, rest)
  {
    assert ([name] + rest)[1..] == rest;
  }

  // ---------------------------------------------------------------------
  // Bot verification

  /** The environment the route reads at call time. An unset variable is the empty string. */
  datatype Config = Config(recaptchaSecretKey: string, emailUser: string, emailPass: string)

  /**
   * What the outside services answer for this request. `siteverify` is
   * `Some(data.success === true)` when the verification call returned JSON and
   * `None` when the fetch or its parse threw; `smtpDelivers` is whether
   * `sendMail` resolved.
   */
  datatype Replies = Replies(siteverify: Option<bool>, smtpDelivers: bool)

  /** `verifyRecaptcha`: fails closed when the secret is unset or the call throws. */
  function VerifyRecaptcha(secretKey: string, siteverify: Option<bool>): (valid: bool)
    ensures valid ==> secretKey != ""
    ensures valid ==> siteverify == Some(true)
    ensures secretKey != "" && siteverify == Some(true) ==> valid
  {
    if secretKey == "" then false
    else
      match siteverify
      case None => false
      case Some(success) => success
  }

  // ---------------------------------------------------------------------
  // Sanitation

  datatype SanitizedData = SanitizedData(
    fullName: string,
    companyName: string,
    workEmail: string,
    phoneNumber: string,
    industry: string,
    services: seq<string>,
    projectBrief: string)

  /** Short and free of angle brackets: what sanitation promises of a field. */
  predicate IsCleanText(s: string) {
    |s| <= MaxLength && NoBrackets(s)
  }

  predicate IsClean(d: SanitizedData) {
    && IsCleanText(d.fullName) && IsCleanText(d.companyName) && IsCleanText(d.workEmail)
    && IsCleanText(d.phoneNumber) && IsCleanText(d.industry) && IsCleanText(d.projectBrief)
    && forall i :: 0 <= i < |d.services| ==> IsCleanText(d.services[i])
  }

  /** `sanitizeInput(value)`: `None` when the value is not a string and `replace` throws. */
  function SanitizeField(f: Field): (r: Option<string>)
    ensures r.Some? <==> f.Str?
    ensures f.Str? ==> r == Some(SanitizeInput(f.s))
    ensures r.Some? ==> IsCleanText(r.value)
  {
    match f
    case Str(s) => Some(SanitizeInput(s))
    case _ => None
  }

  /** `value ? sanitizeInput(value) : ''`. */
  function SanitizeOptional(f: Field): (r: Option<string>)
    ensures r.Some? <==> IsFalsy(f) || f.Str?
    ensures IsFalsy(f) ==> r == Some("")
    ensures !IsFalsy(f) && f.Str? ==> r == Some(SanitizeInput(f.s))
    ensures r.Some? ==> IsCleanText(r.value)
  {
    if IsFalsy(f) then Some("") else SanitizeField(f)
  }

  /** `items.map(f)` where `f` is only defined on strings: `None` as soon as one element is not a string. */
  function MapStrings(items: seq<Field>, f: string -> string): (r: Option<seq<string>>)
    ensures r.Some? <==> forall i :: 0 <= i < |items| ==> items[i].Str?
    ensures r.Some? ==> |r.value| == |items|
    ensures r.Some? ==> forall i :: 0 <= i < |items| ==> r.value[i] == f(items[i].s)
  {
    if items == [] then Some([])
    else if !items[0].Str? then None
    else
      var rest := MapStrings(items[1..], f);
      if rest.None? then
        assert exists i :: 0 <= i < |items[1..]| && !items[1..][i].Str?;
        None
      else
        var r := [f(items[0].s)] + rest.value;
        assert forall i :: 1 <= i < |items| ==> r[i] == rest.value[i - 1] && items[i] == items[1..][i - 1];
        Some(r)
  }

  /** `Array.isArray(services) ? services.map(sanitizeInput) : []`. */
  function SanitizeServices(services: ServicesField): (r: Option<seq<string>>)
    ensures services.NotArray? ==> r == Some([])
    ensures services.Array? ==> (r.Some? <==> forall i :: 0 <= i < |services.items| ==> services.items[i].Str?)
    ensures r.Some? && services.Array? ==> |r.value| == |services.items|
    ensures r.Some? && services.Array? ==>
      forall i :: 0 <= i < |r.value| ==> r.value[i] == SanitizeInput(services.items[i].s)
    ensures r.Some? ==> forall i :: 0 <= i < |r.value| ==> IsCleanText(r.value[i])
  {
    match services
    case NotArray => Some([])
    case Array(items) => MapStrings(items, SanitizeInput)
  }

  /**
   * The `sanitizedData` object. It is `None` exactly when building it throws,
   * that is when a field it passes to `sanitizeInput` is not a string.
   */
  function SanitizeBody(body: ContactFormData): (r: Option<SanitizedData>)
    ensures r.Some? <==>
      && body.fullName.Str? && body.companyName.Str? && body.workEmail.Str?
      && (IsFalsy(body.phoneNumber) || body.phoneNumber.Str?)
      && (IsFalsy(body.industry) || body.industry.Str?)
      && SanitizeServices(body.services).Some?
      && body.projectBrief.Str?
    ensures r.Some? ==> r.value.fullName == SanitizeInput(body.fullName.s)
    ensures r.Some? ==> r.value.companyName == SanitizeInput(body.companyName.s)
    ensures r.Some? ==> r.value.workEmail == SanitizeInput(body.workEmail.s)
    ensures r.Some? ==> r.value.projectBrief == SanitizeInput(body.projectBrief.s)
    ensures r.Some? ==> r.value.phoneNumber == if IsFalsy(body.phoneNumber) then "" else SanitizeInput(body.phoneNumber.s)
    ensures r.Some? ==> r.value.industry == if IsFalsy(body.industry) then "" else SanitizeInput(body.industry.s)
    ensures r.Some? && body.services.NotArray? ==> r.value.services == []
    ensures r.Some? && body.services.Array? ==>
      && |r.value.services| == |body.services.items|
      && forall i :: 0 <= i < |r.value.services| ==> r.value.services[i] == SanitizeInput(body.services.items[i].s)
  {
    var fullName := SanitizeField(body.fullName);
    var companyName := SanitizeField(body.companyName);
    var workEmail := SanitizeField(body.workEmail);
    var phoneNumber := SanitizeOptional(body.phoneNumber);
    var industry := SanitizeOptional(body.industry);
    var services := SanitizeServices(body.services);
    var projectBrief := SanitizeField(body.projectBrief);
    if && fullName.Some? && companyName.Some? && workEmail.Some? && phoneNumber.Some?
       && industry.Some? && services.Some? && projectBrief.Some?
    then
      Some(SanitizedData(fullName.value, companyName.value, workEmail.value, phoneNumber.value,
                         industry.value, services.value, projectBrief.value))
    else
      None
  }

  /**
   * After sanitation no field is longer than 1000 characters and none holds an
   * angle bracket, services included.
   */
  lemma SanitizedBodyIsClean(body: ContactFormData)
    requires SanitizeBody(body).Some?
    ensures IsClean(SanitizeBody(body).value)
  {
    var d := SanitizeBody(body).value;
    assert d.fullName == SanitizeInput(body.fullName.s);
    assert d.companyName == SanitizeInput(body.companyName.s);
    assert d.projectBrief == SanitizeInput(body.projectBrief.s);
    assert IsCleanText(d.phoneNumber) && IsCleanText(d.industry);
    forall i | 0 <= i < |d.services| ensures IsCleanText(d.services[i]) {
      assert body.services.Array?;
      assert d.services[i] == SanitizeInput(body.services.items[i].s);
    }
  }

  // ---------------------------------------------------------------------
  // The notification

  const Inbox: string := "info@digicompanions.com"
  const Subject: string := "New Business Inquiry - DigiCompanions Website"

  /** The parts of the HTML message, in order; styling is not modelled. */
  datatype Block =
    | Title
    | Detail(caption: string, value: string)
    | ServiceList(items: seq<string>)
    | Brief(text: string)
    | Footer

  predicate HasDetail(blocks: seq<Block>, caption: string) {
    exists i :: 0 <= i < |blocks| && blocks[i].Detail? && blocks[i].caption == caption
  }

  predicate HasServiceList(blocks: seq<Block>) {
    exists i :: 0 <= i < |blocks| && blocks[i].ServiceList?
  }

  /**
   * The template literal: the contact lines, the phone and industry lines only
   * when non-empty, the service list only when there are services, the brief
   * and the footer.
   */
  function ComposeBlocks(d: SanitizedData): (blocks: seq<Block>)
    ensures 6 <= |blocks| <= 9
    ensures blocks[0] == Title && blocks[|blocks| - 1] == Footer
    ensures blocks[1] == Detail("Full Name", d.fullName)
    ensures blocks[2] == Detail("Company Name", d.companyName)
    ensures blocks[3] == Detail("Work Email", d.workEmail)
    ensures blocks[|blocks| - 2] == Brief(d.projectBrief)
  {
    [Title,
     Detail("Full Name", d.fullName),
     Detail("Company Name", d.companyName),
     Detail("Work Email", d.workEmail)]
    + (if d.phoneNumber != "" then [Detail("Phone Number", d.phoneNumber)] else [])
    + (if d.industry != "" then [Detail("Industry", d.industry)] else [])
    + (if |d.services| > 0 then [ServiceList(d.services)] else [])
    + [Brief(d.projectBrief), Footer]
  }

  /** Every block of the message comes from one of the template's five parts. */
  lemma ComposeBlocksParts(d: SanitizedData, i: int)
    requires 0 <= i < |ComposeBlocks(d)|
    ensures var b := ComposeBlocks(d)[i];
      || b == Title || b == Brief(d.projectBrief) || b == Footer
      || b == Detail("Full Name", d.fullName)
      || b == Detail("Company Name", d.companyName)
      || b == Detail("Work Email", d.workEmail)
      || (d.phoneNumber != "" && b == Detail("Phone Number", d.phoneNumber))
      || (d.industry != "" && b == Detail("Industry", d.industry))
      || (|d.services| > 0 && b == ServiceList(d.services))
  {
    var head := [Title, Detail("Full Name", d.fullName), Detail("Company Name", d.companyName), Detail("Work Email", d.workEmail)];
    var phone := if d.phoneNumber != "" then [Detail("Phone Number", d.phoneNumber)] else [];
    var industry := if d.industry != "" then [Detail("Industry", d.industry)] else [];
    var services := if |d.services| > 0 then [ServiceList(d.services)] else [];
    var tail := [Brief(d.projectBrief), Footer];
    var blocks := ComposeBlocks(d);
    assert blocks == head + phone + industry + services + tail;
    var k := i;
    if k < |head| {
      assert blocks[i] == head[k];
    } else if k < |head| + |phone| {
      assert blocks[i] == phone[k - |head|];
    } else if k < |head| + |phone| + |industry| {
      assert blocks[i] == industry[k - |head| - |phone|];
    } else if k < |head| + |phone| + |industry| + |services| {
      assert blocks[i] == services[k - |head| - |phone| - |industry|];
    } else {
      assert blocks[i] == tail[k - |head| - |phone| - |industry| - |services|];
    }
  }

  /** The phone line appears exactly when the sanitized phone number is non-empty, and shows it. */
  lemma PhoneLineIffPhone(d: SanitizedData)
    ensures HasDetail(ComposeBlocks(d), "Phone Number") <==> d.phoneNumber != ""
    ensures forall i :: 0 <= i < |ComposeBlocks(d)| && ComposeBlocks(d)[i].Detail? && ComposeBlocks(d)[i].caption == "Phone Number"
              ==> ComposeBlocks(d)[i].value == d.phoneNumber
  {
    var blocks := ComposeBlocks(d);
    forall i | 0 <= i < |blocks| { ComposeBlocksParts(d, i); }
    if d.phoneNumber != "" {
      assert blocks[4] == Detail("Phone Number", d.phoneNumber);
    }
  }

  /** The industry line appears exactly when the sanitized industry is non-empty, and shows it. */
  lemma IndustryLineIffIndustry(d: SanitizedData)
    ensures HasDetail(ComposeBlocks(d), "Industry") <==> d.industry != ""
    ensures forall i :: 0 <= i < |ComposeBlocks(d)| && ComposeBlocks(d)[i].Detail? && ComposeBlocks(d)[i].caption == "Industry"
              ==> ComposeBlocks(d)[i].value == d.industry
  {
    var blocks := ComposeBlocks(d);
    forall i | 0 <= i < |blocks| { ComposeBlocksParts(d, i); }
    if d.industry != "" {
      var k := if d.phoneNumber != "" then 5 else 4;
      assert blocks[k] == Detail("Industry", d.industry);
    }
  }

  /**
   * The service list appears exactly when there are services, and it holds all
   * of them in their order.
   */
  lemma ServiceListIffServices(d: SanitizedData)
    ensures HasServiceList(ComposeBlocks(d)) <==> |d.services| > 0
    ensures forall i :: 0 <= i < |ComposeBlocks(d)| && ComposeBlocks(d)[i].ServiceList?
              ==> ComposeBlocks(d)[i].items == d.services
  {
    var blocks := ComposeBlocks(d);
    forall i | 0 <= i < |blocks| { ComposeBlocksParts(d, i); }
    if |d.services| > 0 {
      var k := 4 + (if d.phoneNumber != "" then 1 else 0) + (if d.industry != "" then 1 else 0);
      assert blocks[k] == ServiceList(d.services);
    }
  }

  /** `services.map(service => `<li>${service}</li>`).join('')`. */
  function RenderItems(items: seq<string>): (r: string)
    ensures r == "" <==> items == []
    ensures |items| == 1 ==> r == "<li>" + items[0] + "</li>"
    ensures forall i :: 0 <= i < |items| ==> Occurs("<li>" + items[i] + "</li>", r)
  {
    if items == [] then ""
    else
      var rest := RenderItems(items[1..]);
      var first := "<li>" + items[0] + "</li>";
      OccursInConcat(first, rest);
      assert forall i :: 1 <= i < |items| ==> items[i] == items[1..][i - 1];
      first + rest
  }

  /** The items are rendered in order: the markup of a concatenation is the concatenated markup. */
  lemma {:induction false} RenderItemsAppend(a: seq<string>, b: seq<string>)
    ensures RenderItems(a + b) == RenderItems(a) + RenderItems(b)
  {
    if a == [] {
      assert a + b == b;
    } else {
      assert (a + b)[1..] == a[1..] + b;
      RenderItemsAppend(a[1..], b);
    }
  }

  /** What a detail line shows: the caption, then the value. */
  function DetailText(caption: string, value: string): string {
    caption + ":</strong> " + value
  }

  /**
   * One block of the message. Each submitted value appears in it verbatim,
   * detail lines together with their caption.
   */
  function RenderBlock(b: Block): (r: string)
    ensures b.Detail? ==> Occurs(DetailText(b.caption, b.value), r)
    ensures b.Brief? ==> Occurs(b.text, r)
    ensures b.ServiceList? ==> Occurs(RenderItems(b.items), r)
  {
    match b
    case Title => "<h2>New Business Inquiry - DigiCompanions Website</h2>"
    case Detail(caption, value) =>
      OccursWithin("<p><strong>", DetailText(caption, value), "</p>");
      "<p><strong>" + DetailText(caption, value) + "</p>"
    case ServiceList(items) =>
      OccursWithin("<div><h3>Services Required</h3><ul>", RenderItems(items), "</ul></div>");
      "<div><h3>Services Required</h3><ul>" + RenderItems(items) + "</ul></div>"
    case Brief(text) =>
      OccursWithin("<div><h3>Business Goals / Project Brief</h3><p>", text, "</p></div>");
      "<div><h3>Business Goals / Project Brief</h3><p>" + text + "</p></div>"
    case Footer => "<div><p>This inquiry was submitted through the DigiCompanions website contact form.</p></div>"
  }

  /** The message: its blocks one after the other, each appearing whole. */
  function Render(blocks: seq<Block>): (r: string)
    ensures forall b :: b in blocks ==> Occurs(RenderBlock(b), r)
  {
    if blocks == [] then ""
    else
      var first := RenderBlock(blocks[0]);
      var rest := Render(blocks[1..]);
      OccursInConcat(first, rest);
      assert forall b :: b in blocks ==> b == blocks[0] || b in blocks[1..];
      first + rest
  }

  /** The block with every submitted value replaced by the empty string: the template alone. */
  function Blank(b: Block): Block {
    match b
    case Detail(caption, _) => Detail(caption, "")
    case ServiceList(items) => ServiceList(seq(|items|, _ => ""))
    case Brief(_) => Brief("")
    case _ => b
  }

  function BlankAll(blocks: seq<Block>): (r: seq<Block>)
    ensures |r| == |blocks|
  {
    if blocks == [] then [] else [Blank(blocks[0])] + BlankAll(blocks[1..])
  }

  /** The submitted values of a block are free of angle brackets. */
  predicate CleanValues(b: Block) {
    match b
    case Detail(_, value) => NoBrackets(value)
    case ServiceList(items) => forall i :: 0 <= i < |items| ==> NoBrackets(items[i])
    case Brief(text) => NoBrackets(text)
    case _ => true
  }

  lemma NoBracketsNoCount(s: string, c: char)
    requires NoBrackets(s) && IsBracket(c)
    ensures CountChar(s, c) == 0
  {
    CountCharZero(s, c);
    assert forall i :: 0 <= i < |s| ==> s[i] != c;
  }

  lemma CountConcat3(a: string, b: string, c: string, ch: char)
    ensures CountChar(a + b + c, ch) == CountChar(a, ch) + CountChar(b, ch) + CountChar(c, ch)
  {
    CountCharAppend(a + b, c, ch);
    CountCharAppend(a, b, ch);
  }

  /** Each service adds one `<li>…</li>` pair and no bracket of its own. */
  lemma {:induction false} RenderItemsBrackets(items: seq<string>, c: char)
    requires forall i :: 0 <= i < |items| ==> NoBrackets(items[i])
    requires IsBracket(c)
    ensures CountChar(RenderItems(items), c) == CountChar(RenderItems(seq(|items|, _ => "")), c)
  {
    if items != [] {
      var blank: seq<string> := seq(|items|, _ => "");
      assert blank[1..] == seq(|items| - 1, _ => "");
      RenderItemsBrackets(items[1..], c);
      NoBracketsNoCount(items[0], c);
      CountConcat3("<li>" + items[0], "</li>", RenderItems(items[1..]), c);
      CountCharAppend("<li>", items[0], c);
      assert "<li>" + blank[0] == "<li>";
      CountConcat3("<li>" + blank[0], "</li>", RenderItems(blank[1..]), c);
    }
  }

  lemma DetailBrackets(caption: string, value: string, c: char)
    requires NoBrackets(value) && IsBracket(c)
    ensures CountChar(RenderBlock(Detail(caption, value)), c) == CountChar(RenderBlock(Detail(caption, "")), c)
  {
    var open, close, head := "<p><strong>", "</p>", caption + ":</strong> ";
    var full, bare := DetailText(caption, value), DetailText(caption, "");
    assert full == head + value;
    assert bare == head;
    assert RenderBlock(Detail(caption, value)) == open + full + close;
    assert RenderBlock(Detail(caption, "")) == open + bare + close;
    CountConcat3(open, full, close, c);
    CountConcat3(open, bare, close, c);
    CountCharAppend(head, value, c);
    NoBracketsNoCount(value, c);
  }

  lemma ServiceListBrackets(items: seq<string>, c: char)
    requires forall i :: 0 <= i < |items| ==> NoBrackets(items[i])
    requires IsBracket(c)
    ensures CountChar(RenderBlock(ServiceList(items)), c)
         == CountChar(RenderBlock(ServiceList(seq(|items|, _ => ""))), c)
  {
    var pre, post := "<div><h3>Services Required</h3><ul>", "</ul></div>";
    var blank: seq<string> := seq(|items|, _ => "");
    RenderItemsBrackets(items, c);
    assert RenderBlock(ServiceList(items)) == pre + RenderItems(items) + post;
    assert RenderBlock(ServiceList(blank)) == pre + RenderItems(blank) + post;
    CountConcat3(pre, RenderItems(items), post, c);
    CountConcat3(pre, RenderItems(blank), post, c);
  }

  lemma BriefBrackets(text: string, c: char)
    requires NoBrackets(text) && IsBracket(c)
    ensures CountChar(RenderBlock(Brief(text)), c) == CountChar(RenderBlock(Brief("")), c)
  {
    var pre, post := "<div><h3>Business Goals / Project Brief</h3><p>", "</p></div>";
    NoBracketsNoCount(text, c);
    assert RenderBlock(Brief(text)) == pre + text + post;
    assert RenderBlock(Brief("")) == pre + "" + post;
    CountConcat3(pre, text, post, c);
    CountConcat3(pre, "", post, c);
  }

  lemma BlockBrackets(b: Block, c: char)
    requires CleanValues(b) && IsBracket(c)
    ensures CountChar(RenderBlock(b), c) == CountChar(RenderBlock(Blank(b)), c)
  {
    match b
    case Detail(caption, value) => DetailBrackets(caption, value, c);
    case ServiceList(items) => ServiceListBrackets(items, c);
    case Brief(text) => BriefBrackets(text, c);
    case _ =>
  }

  lemma {:induction false} RenderBrackets(blocks: seq<Block>, c: char)
    requires forall i :: 0 <= i < |blocks| ==> CleanValues(blocks[i])
    requires IsBracket(c)
    ensures CountChar(Render(blocks), c) == CountChar(Render(BlankAll(blocks)), c)
  {
    if blocks != [] {
      BlockBrackets(blocks[0], c);
      RenderBrackets(blocks[1..], c);
      CountCharAppend(RenderBlock(blocks[0]), Render(blocks[1..]), c);
      var blank := BlankAll(blocks);
      assert blank[0] == Blank(blocks[0]) && blank[1..] == BlankAll(blocks[1..]);
      CountCharAppend(RenderBlock(blank[0]), Render(blank[1..]), c);
    }
  }

  /**
   * Sanitation keeps the submitter out of the markup: the rendered message has
   * exactly as many angle brackets as the template has with every submitted
   * value blanked out, so no `<` or `>` in it comes from the submitter.
   */
  lemma NoMarkupInjected(d: SanitizedData, c: char)
    requires IsClean(d) && IsBracket(c)
    ensures CountChar(Render(ComposeBlocks(d)), c) == CountChar(Render(BlankAll(ComposeBlocks(d))), c)
  {
    var blocks := ComposeBlocks(d);
    forall i | 0 <= i < |blocks| ensures CleanValues(blocks[i]) {
      ComposeBlocksParts(d, i);
    }
    RenderBrackets(blocks, c);
  }

  /** Everything inside one rendered block is inside the rendered message. */
  lemma InRenderedBlock(blocks: seq<Block>, k: int)
    requires 0 <= k < |blocks|
    ensures forall t :: Occurs(t, RenderBlock(blocks[k])) ==> Occurs(t, Render(blocks))
  {
    assert blocks[k] in blocks;
    OccursTransAll(RenderBlock(blocks[k]), Render(blocks));
  }

  lemma DetailInMessage(blocks: seq<Block>, k: int, caption: string, value: string)
    requires 0 <= k < |blocks| && blocks[k] == Detail(caption, value)
    ensures Occurs(DetailText(caption, value), Render(blocks))
  {
    InRenderedBlock(blocks, k);
  }

  lemma BriefInMessage(blocks: seq<Block>, k: int, text: string)
    requires 0 <= k < |blocks| && blocks[k] == Brief(text)
    ensures Occurs(text, Render(blocks))
  {
    InRenderedBlock(blocks, k);
  }

  lemma ItemsInMessage(blocks: seq<Block>, k: int, items: seq<string>)
    requires 0 <= k < |blocks| && blocks[k] == ServiceList(items)
    ensures forall i :: 0 <= i < |items| ==> Occurs("<li>" + items[i] + "</li>", Render(blocks))
  {
    var html, list := Render(blocks), RenderItems(items);
    assert blocks[k] in blocks;
    OccursTrans(list, RenderBlock(blocks[k]), html);
    forall i | 0 <= i < |items| ensures Occurs("<li>" + items[i] + "</li>", html) {
      OccursTrans("<li>" + items[i] + "</li>", list, html);
    }
  }

  /**
   * Nothing submitted is lost: every sanitized value appears verbatim in the
   * message, each detail right after its caption and each service in its own
   * list item.
   */
  lemma ValuesAppearInMessage(d: SanitizedData)
    ensures var html := Render(ComposeBlocks(d));
      && Occurs(DetailText("Full Name", d.fullName), html)
      && Occurs(DetailText("Company Name", d.companyName), html)
      && Occurs(DetailText("Work Email", d.workEmail), html)
      && Occurs(d.projectBrief, html)
    ensures d.phoneNumber != "" ==> Occurs(DetailText("Phone Number", d.phoneNumber), Render(ComposeBlocks(d)))
    ensures d.industry != "" ==> Occurs(DetailText("Industry", d.industry), Render(ComposeBlocks(d)))
    ensures forall i :: 0 <= i < |d.services| ==> Occurs("<li>" + d.services[i] + "</li>", Render(ComposeBlocks(d)))
  {
    var blocks := ComposeBlocks(d);
    DetailInMessage(blocks, 1, "Full Name", d.fullName);
    DetailInMessage(blocks, 2, "Company Name", d.companyName);
    DetailInMessage(blocks, 3, "Work Email", d.workEmail);
    BriefInMessage(blocks, |blocks| - 2, d.projectBrief);
    if d.phoneNumber != "" {
      PhoneLineIffPhone(d);
      var k :| 0 <= k < |blocks| && blocks[k].Detail? && blocks[k].caption == "Phone Number";
      DetailInMessage(blocks, k, "Phone Number", d.phoneNumber);
    }
    if d.industry != "" {
      IndustryLineIffIndustry(d);
      var k :| 0 <= k < |blocks| && blocks[k].Detail? && blocks[k].caption == "Industry";
      DetailInMessage(blocks, k, "Industry", d.industry);
    }
    if |d.services| > 0 {
      ServiceListIffServices(d);
      var k :| 0 <= k < |blocks| && blocks[k].ServiceList?;
      ItemsInMessage(blocks, k, d.services);
    }
  }

  /** What the route hands to `transporter.sendMail`. */
  datatype Mail = Mail(from: string, to: string, subject: string, html: string, replyTo: string)

  // ---------------------------------------------------------------------
  // Responses and the handler

  datatype ResponseBody = ErrorBody(error: string) | MessageBody(message: string)
  datatype Response = Response(status: nat, body: ResponseBody)

  const MissingPrefix: string := "Missing required fields: "

  /** The 400 response naming the missing fields, comma-separated, after a fixed prefix. */
  function MissingFieldsResponse(missing: seq<string>): (r: Response)
    ensures r.status == 400 && r.body.ErrorBody?
    ensures |MissingPrefix| <= |r.body.error| && r.body.error[..|MissingPrefix|] == MissingPrefix
    ensures missing != [] ==>
      |r.body.error| == |MissingPrefix| + TotalLength(missing) + 2 * (|missing| - 1)
    ensures |missing| == 1 ==> r.body.error == MissingPrefix + missing[0]
    ensures |missing| > 1 ==>
      r.body.error == MissingFieldsResponse(missing[..|missing| - 1]).body.error + ", " + missing[|missing| - 1]
  {
    var r := Response(400, ErrorBody(MissingPrefix + Join(missing, ", ")));
    if |missing| > 1 then
      var front, last := missing[..|missing| - 1], missing[|missing| - 1];
      assert missing == front + [last];
      JoinSnoc(front, last, ", ");
      var j := Join(front, ", ");
      ConcatAssoc(MissingPrefix, j + ", ", last);
      ConcatAssoc(MissingPrefix, j, ", ");
      assert MissingFieldsResponse(front).body.error == MissingPrefix + j;
      r
    else
      r
  }

  /** Two missing names are reported as the prefix, then the names separated by a comma and a space. */
  lemma TwoMissingFieldsMessage(a: string, b: string)
    ensures MissingFieldsResponse([a, b]).body.error == MissingPrefix + a + ", " + b
  {
    var names := [a, b];
    assert names[..1] == [a];
  }
  const RecaptchaFailed := Response(400, ErrorBody("reCAPTCHA verification failed"))
  const InvalidEmail := Response(400, ErrorBody("Invalid email format"))
  const InternalError := Response(500, ErrorBody("Internal server error. Please try again later."))
  const Submitted := Response(200, MessageBody("Form submitted successfully"))

  /** Every check before composition passed: present, verified, sanitizable, well-shaped. */
  predicate PassesChecks(body: ContactFormData, config: Config, replies: Replies) {
    && MissingFields(body) == []
    && VerifyRecaptcha(config.recaptchaSecretKey, replies.siteverify)
    && SanitizeBody(body).Some?
    && IsEmailShape(SanitizeBody(body).value.workEmail)
  }

  /**
   * `POST`. `request` is the parsed body (`None` when `request.json()` throws).
   * Besides the response it reports whether a request went out to the
   * verification service (there is none when the secret is unset) and which
   * message, if any, was handed to the mail transport.
   */
  method Post(request: Option<ContactFormData>, config: Config, replies: Replies)
    returns (response: Response, siteverifyCalled: bool, dispatched: Option<Mail>)
    ensures response.status == 200 || response.status == 400 || response.status == 500
    ensures request.None? ==> response == InternalError && dispatched.None?
    // presence comes first, and the verification service is called only when it passed
    ensures siteverifyCalled <==>
              request.Some? && MissingFields(request.value) == [] && config.recaptchaSecretKey != ""
    ensures request.Some? && MissingFields(request.value) != [] ==>
              response == MissingFieldsResponse(MissingFields(request.value))
    // verification comes before sanitation and the e-mail check
    ensures request.Some? && MissingFields(request.value) == []
            && !VerifyRecaptcha(config.recaptchaSecretKey, replies.siteverify) ==>
              response == RecaptchaFailed
    ensures (request.Some? && MissingFields(request.value) == []
             && VerifyRecaptcha(config.recaptchaSecretKey, replies.siteverify)
             && SanitizeBody(request.value).None?) ==> response == InternalError
    ensures response == InvalidEmail <==>
              && request.Some? && MissingFields(request.value) == []
              && VerifyRecaptcha(config.recaptchaSecretKey, replies.siteverify)
              && SanitizeBody(request.value).Some?
              && !IsEmailShape(SanitizeBody(request.value).value.workEmail)
    // nothing is sent unless every check passed and the transport could be built
    ensures dispatched.Some? <==>
              request.Some? && PassesChecks(request.value, config, replies)
              && config.emailUser != "" && config.emailPass != ""
    ensures dispatched.Some? ==>
              var d := SanitizeBody(request.value).value;
              && dispatched.value.to == Inbox
              && dispatched.value.replyTo == d.workEmail
              && dispatched.value.from == config.emailUser
              && dispatched.value.subject == Subject
              && dispatched.value.html == Render(ComposeBlocks(d))
    ensures request.Some? && PassesChecks(request.value, config, replies) ==>
              response == (if dispatched.Some? && replies.smtpDelivers then Submitted else InternalError)
    ensures response.status == 200 <==> dispatched.Some? && replies.smtpDelivers
    ensures response.status == 200 ==> response == Submitted
    ensures response.status == 500 ==> response == InternalError
  {
    siteverifyCalled, dispatched := false, None;
    if request.None? {
      return InternalError, siteverifyCalled, dispatched;
    }
    var body := request.value;

    var missing := MissingFields(body);
    if |missing| > 0 {
      return MissingFieldsResponse(missing), siteverifyCalled, dispatched;
    }

    siteverifyCalled := config.recaptchaSecretKey != "";
    var isRecaptchaValid := VerifyRecaptcha(config.recaptchaSecretKey, replies.siteverify);
    if !isRecaptchaValid {
      return RecaptchaFailed, siteverifyCalled, dispatched;
    }

    var sanitized := SanitizeBody(body);
    if sanitized.None? {
      return InternalError, siteverifyCalled, dispatched;
    }
    var data := sanitized.value;

    if !IsEmailShape(data.workEmail) {
      return InvalidEmail, siteverifyCalled, dispatched;
    }

    var html := Render(ComposeBlocks(data));

    if config.emailUser == "" || config.emailPass == "" {
      return InternalError, siteverifyCalled, dispatched;
    }
    dispatched := Some(Mail(config.emailUser, Inbox, Subject, html, data.workEmail));
    if !replies.smtpDelivers {
      return InternalError, siteverifyCalled, dispatched;
    }
    return Submitted, siteverifyCalled, dispatched;
  }

  // ---------------------------------------------------------------------
  // Presence is judged on the raw body, the e-mail shape on the sanitized one

  /**
   * Presence looks at raw values, sanitation comes later: a required value of
   * only angle brackets and whitespace (such as `<>`) passes presence and then
   * sanitizes to the empty string.
   */
  lemma PresenceBeforeSanitation(body: ContactFormData)
    requires MissingFields(body) == []
    requires SanitizeBody(body).Some?
    requires forall i :: 0 <= i < |body.fullName.s| ==> IsBracket(body.fullName.s[i]) || IsWhitespace(body.fullName.s[i])
    ensures body.fullName.s != ""
    ensures SanitizeBody(body).value.fullName == ""
  {
    assert "fullName" in RequiredFields;
    OnlyBracketsAndSpaceSanitizeToEmpty(body.fullName.s);
  }

  /**
   * The e-mail shape is judged after sanitation: a well-shaped address wrapped
   * in angle brackets, such as `<a@b.co>`, is accepted as the bare address.
   */
  lemma EmailCheckedAfterSanitation(email: string)
    requires IsEmailShape(email) && NoBrackets(email) && |email| <= MaxLength
    ensures SanitizeInput("<" + email + ">") == email
    ensures IsEmailShape(SanitizeInput("<" + email + ">"))
  {
    StripWrapped(email);
    EmailIsTrimmed(email);
    SanitizesTo("<" + email + ">", email);
  }

  /** Text that strips to an already trimmed value within the cap sanitizes to that value. */
  lemma SanitizesTo(s: string, e: string)
    requires StripBrackets(s) == e && Trim(e) == e && |e| <= MaxLength
    ensures SanitizeInput(s) == e
  {
    SanitizeUncapped(s);
  }

  /** Stripping removes exactly the wrapping brackets from a bracket-free text. */
  lemma StripWrapped(e: string)
    requires NoBrackets(e)
    ensures StripBrackets("<" + e + ">") == e
  {
    var open, close := "<", ">";
    assert StripBrackets(open) == [] by { assert IsBracket(open[0]) && open[1..] == []; }
    assert StripBrackets(close) == [] by { assert IsBracket(close[0]) && close[1..] == []; }
    StripBracketsAppend(open, e);
    StripBracketsAppend(open + e, close);
    assert StripBrackets(open + e) == e;
  }

  /** A well-shaped address has no whitespace to trim. */
  lemma EmailIsTrimmed(e: string)
    requires IsEmailShape(e)
    ensures Trim(e) == e
  {
    assert e[0] in e && e[|e| - 1] in e;
  }
}
