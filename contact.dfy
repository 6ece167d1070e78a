/** The contact endpoint (src/app/api/contact/route.ts): validation of the
    submitted form, the Telegram notification text, and the mapping of a
    request to its response. The JSON parser, the environment, the clock
    and the HTTP call are parameters of the model. */
module Contact {
  import opened JsText

  /** A JSON value as the schema sees it: a string, or anything else
      (number, boolean, null, array, object). */
  datatype Json = JString(s: string) | JNonString

  /** The request body after `request.json()`. */
  datatype Body = Unparseable | NonObject | Object(fields: map<string, Json>)

  /** The form after validation. */
  datatype ContactForm = ContactForm(
    name: string, email: Option<string>, lineId: Option<string>,
    phone: Option<string>, service: Option<string>, budget: Option<string>,
    message: string, source: Option<string>,
    utmSource: Option<string>, utmMedium: Option<string>, utmCampaign: Option<string>)

  /** The result of `contactSchema.parse`: the form, or the keys whose
      values the schema refused (the empty key stands for the body itself). */
  datatype Validation = Accepted(form: ContactForm) | Rejected(issues: seq<string>)

  /** The schema's keys, in declaration order. */
  const Keys: seq<string> := [
    "name", "email", "lineId", "phone", "service", "budget",
    "message", "source", "utm_source", "utm_medium", "utm_campaign"
  ]

  /** `z.string().min(n)`: a string of at least `n` characters. */
  function Required(fields: map<string, Json>, key: string, min: nat): (r: Option<string>)
    ensures r.Some? <==> key in fields && fields[key].JString? && |fields[key].s| >= min
    ensures r.Some? ==> r.value == fields[key].s && |r.value| >= min
  {
    if key in fields && fields[key].JString? && |fields[key].s| >= min then Some(fields[key].s) else None
  }

  /** `z.string().optional()`: absent, or any string. `None` is a refusal. */
  function Optional(fields: map<string, Json>, key: string): (r: Option<Option<string>>)
    ensures r.Some? <==> key !in fields || fields[key].JString?
    ensures r == Some(None) <==> key !in fields
    ensures r.Some? && r.value.Some? ==> r.value.value == fields[key].s
  {
    if key !in fields then Some(None)
    else if fields[key].JString? then Some(Some(fields[key].s))
    else None
  }

  /** `z.string().email().optional().or(z.literal(''))`: absent, empty, or
      an address `isEmail` accepts. */
  function Email(fields: map<string, Json>, isEmail: string -> bool): (r: Option<Option<string>>)
    ensures r.Some? <==> ("email" !in fields
                         || (fields["email"].JString? && (fields["email"].s == "" || isEmail(fields["email"].s))))
    ensures r.Some? && r.value.Some? ==> "email" in fields && r.value.value == fields["email"].s
    ensures r == Some(None) <==> "email" !in fields
  {
    if "email" !in fields then Some(None)
    else
      match fields["email"]
      case JString(s) => if s == "" || isEmail(s) then Some(Some(s)) else None
      case JNonString => None
  }

  predicate FieldOk(fields: map<string, Json>, key: string, isEmail: string -> bool) {
    if key == "name" then Required(fields, key, 2).Some?
    else if key == "message" then Required(fields, key, 10).Some?
    else if key == "email" then Email(fields, isEmail).Some?
    else Optional(fields, key).Some?
  }

  /** The keys among `keys` whose values are refused, in order. */
  function IssuesIn(fields: map<string, Json>, keys: seq<string>, isEmail: string -> bool): (r: seq<string>)
    ensures forall k :: k in r <==> k in keys && !FieldOk(fields, k, isEmail)
  {
    if keys == [] then []
    else if FieldOk(fields, keys[0], isEmail) then IssuesIn(fields, keys[1..], isEmail)
    else [keys[0]] + IssuesIn(fields, keys[1..], isEmail)
  }

  /** Every key of the schema holds an acceptable value. */
  predicate AllOk(fields: map<string, Json>, isEmail: string -> bool) {
    forall k :: k in Keys ==> FieldOk(fields, k, isEmail)
  }

  lemma {:induction false} AllOkFields(fields: map<string, Json>, isEmail: string -> bool)
    requires AllOk(fields, isEmail)
    ensures Required(fields, "name", 2).Some? && Required(fields, "message", 10).Some?
    ensures Email(fields, isEmail).Some?
    ensures Optional(fields, "lineId").Some? && Optional(fields, "phone").Some?
    ensures Optional(fields, "service").Some? && Optional(fields, "budget").Some?
    ensures Optional(fields, "source").Some? && Optional(fields, "utm_source").Some?
    ensures Optional(fields, "utm_medium").Some? && Optional(fields, "utm_campaign").Some?
  {
    assert FieldOk(fields, Keys[0], isEmail) && FieldOk(fields, Keys[1], isEmail);
    assert FieldOk(fields, Keys[2], isEmail) && FieldOk(fields, Keys[3], isEmail);
    assert FieldOk(fields, Keys[4], isEmail) && FieldOk(fields, Keys[5], isEmail);
    assert FieldOk(fields, Keys[6], isEmail) && FieldOk(fields, Keys[7], isEmail);
    assert FieldOk(fields, Keys[8], isEmail) && FieldOk(fields, Keys[9], isEmail);
    assert FieldOk(fields, Keys[10], isEmail);
  }

  /** `contactSchema.parse` on an object body. */
  function Validate(fields: map<string, Json>, isEmail: string -> bool): (r: Validation)
    ensures r.Accepted? <==> AllOk(fields, isEmail)
    ensures r.Rejected? ==> r.issues != [] && forall k :: k in r.issues <==> k in Keys && !FieldOk(fields, k, isEmail)
    ensures r.Accepted? ==> |r.form.name| >= 2 && |r.form.message| >= 10
    ensures r.Accepted? ==> r.form.email.None? || r.form.email.value == "" || isEmail(r.form.email.value)
  {
    var issues := IssuesIn(fields, Keys, isEmail);
    if issues != [] then
      assert issues[0] in issues;
      Rejected(issues)
    else
      AllOkFields(fields, isEmail);
      Accepted(ContactForm(
        Required(fields, "name", 2).value, Email(fields, isEmail).value,
        Optional(fields, "lineId").value, Optional(fields, "phone").value,
        Optional(fields, "service").value, Optional(fields, "budget").value,
        Required(fields, "message", 10).value, Optional(fields, "source").value,
        Optional(fields, "utm_source").value, Optional(fields, "utm_medium").value,
        Optional(fields, "utm_campaign").value))
  }

  /** An accepted form carries exactly the submitted strings. */
  /** The string submitted under `key`, if there is one. */
  function Submitted(fields: map<string, Json>, key: string): Option<string> {
    if key in fields && fields[key].JString? then Some(fields[key].s) else None
  }

  lemma {:induction false} AcceptedKeepsValues(fields: map<string, Json>, isEmail: string -> bool)
    requires Validate(fields, isEmail).Accepted?
    ensures var f := Validate(fields, isEmail).form;
            "name" in fields && fields["name"].JString? && f.name == fields["name"].s
            && "message" in fields && fields["message"].JString? && f.message == fields["message"].s
    ensures var f := Validate(fields, isEmail).form;
            f.email == Submitted(fields, "email") && (f.email.Some? <==> "email" in fields)
            && f.lineId == Submitted(fields, "lineId") && (f.lineId.Some? <==> "lineId" in fields)
            && f.phone == Submitted(fields, "phone") && (f.phone.Some? <==> "phone" in fields)
            && f.service == Submitted(fields, "service") && (f.service.Some? <==> "service" in fields)
            && f.budget == Submitted(fields, "budget") && (f.budget.Some? <==> "budget" in fields)
            && f.source == Submitted(fields, "source") && (f.source.Some? <==> "source" in fields)
    ensures var f := Validate(fields, isEmail).form;
            f.utmSource == Submitted(fields, "utm_source") && (f.utmSource.Some? <==> "utm_source" in fields)
            && f.utmMedium == Submitted(fields, "utm_medium") && (f.utmMedium.Some? <==> "utm_medium" in fields)
            && f.utmCampaign == Submitted(fields, "utm_campaign") && (f.utmCampaign.Some? <==> "utm_campaign" in fields)
  {
    AllOkFields(fields, isEmail);
  }

  /** A string that is neither empty nor an address is refused, whatever
      else the form holds. */
  lemma {:induction false} BadEmailRejected(fields: map<string, Json>, isEmail: string -> bool)
    requires "email" in fields && fields["email"].JString?
    requires fields["email"].s != "" && !isEmail(fields["email"].s)
    ensures Validate(fields, isEmail).Rejected?
    ensures "email" in Validate(fields, isEmail).issues
  {
    assert "email" in Keys;
  }

  /** A name shorter than two characters or a message shorter than ten
      is refused, and the refusal names the field. */
  lemma {:induction false} ShortTextRejected(fields: map<string, Json>, isEmail: string -> bool)
    requires ("name" in fields && fields["name"].JString? && |fields["name"].s| < 2)
             || ("message" in fields && fields["message"].JString? && |fields["message"].s| < 10)
    ensures Validate(fields, isEmail).Rejected?
    ensures "name" in fields && fields["name"].JString? && |fields["name"].s| < 2
            ==> "name" in Validate(fields, isEmail).issues
    ensures "message" in fields && fields["message"].JString? && |fields["message"].s| < 10
            ==> "message" in Validate(fields, isEmail).issues
  {
    assert "name" in Keys && "message" in Keys;
  }

  // ---- the notification text ----

  /** The captions of the template's lines. */
  const NameCaption: string := "👤 *ชื่อ:* "
  const EmailCaption: string := "📧 *อีเมล:* "
  const LineCaption: string := "💬 *LINE:* "
  const PhoneCaption: string := "📱 *เบอร์โทร:* "
  const ServiceCaption: string := "🛠 *บริการที่สนใจ:* "
  const BudgetCaption: string := "💰 *งบประมาณ:* "
  const MessageCaption: string := "📝 *ข้อความ:*"
  const SourceCaption: string := "📍 *มาจาก:* "
  const UtmCaption: string := "📊 *UTM:* "

  /** `${v ? `label${v}` : ''}`: the line, or an empty line when the value
      is absent or empty. */
  function OptionalLine(caption: string, v: Option<string>): (r: string)
    requires caption != ""
    ensures r == "" <==> v.None? || v.value == ""
    ensures r != "" ==> r == caption + v.value
  {
    match v
    case Some(s) => if s != "" then caption + s else ""
    case None => ""
  }

  /** `v || '-'`. */
  function OrDash(v: Option<string>): (r: string)
    ensures r != ""
    ensures v.Some? && v.value != "" ==> r == v.value
  {
    match v
    case Some(s) => if s != "" then s else "-"
    case None => "-"
  }

  /** The UTM line: present only with a source; a missing medium or
      campaign shows as `-`. */
  function UtmLine(f: ContactForm): (r: string)
    ensures r == "" <==> f.utmSource.None? || f.utmSource.value == ""
    ensures r != "" ==> r == UtmCaption + f.utmSource.value + " / " + OrDash(f.utmMedium) + " / " + OrDash(f.utmCampaign)
  {
    match f.utmSource
    case Some(s) =>
      if s != "" then UtmCaption + s + " / " + OrDash(f.utmMedium) + " / " + OrDash(f.utmCampaign) else ""
    case None => ""
  }

  const Heading: string := "🔔 *ติดต่อใหม่จาก TUM-WEB*"

  /** The template's lines between its opening newline and the clock line. */
  function Lines(f: ContactForm): (r: seq<string>)
    ensures |r| == 15 && r[0] == Heading
    ensures r[2] == NameCaption + f.name && r[10] == f.message
  {
    [ Heading,
      "",
      NameCaption + f.name,
      OptionalLine(EmailCaption, f.email),
      OptionalLine(LineCaption, f.lineId),
      OptionalLine(PhoneCaption, f.phone),
      OptionalLine(ServiceCaption, f.service),
      OptionalLine(BudgetCaption, f.budget),
      "",
      MessageCaption,
      f.message,
      "",
      OptionalLine(SourceCaption, f.source),
      UtmLine(f),
      "" ]
  }

  /** The text sent to Telegram: the template, then `.trim()`. `now` is the
      formatted time of sending. */
  function Notification(f: ContactForm, now: string): string {
    Trim("\n" + Join(Lines(f), '\n') + "\n⏰ " + now + "\n  ")
  }

  lemma {:induction false} HeadingEnds()
    ensures |Heading| > 0 && !IsSpace(Heading[0])
  {
  }

  lemma {:induction false} ClockNotSpace()
    ensures !IsSpace('⏰')
  {
  }

  /** Trimming removes only the template's opening newline and whatever
      trails the clock emoji: the notification is the lines, a newline,
      the clock, then a prefix of the time. */
  lemma {:induction false} NotificationShape(f: ContactForm, now: string)
    ensures exists n :: 0 <= n <= |" " + now + "\n  "|
                        && Notification(f, now) == Join(Lines(f), '\n') + "\n⏰" + (" " + now + "\n  ")[..n]
  {
    var body := Join(Lines(f), '\n');
    var core := body + "\n⏰";
    var rest := " " + now + "\n  ";
    HeadingEnds();
    ClockNotSpace();
    assert Lines(f)[1..][0] == "";
    assert body == Heading + ['\n'] + Join(Lines(f)[1..], '\n');
    assert core[0] == Heading[0];
    assert "\n" + body + "\n⏰ " + now + "\n  " == "\n" + core + rest;
    assert AllSpace("\n");
    TrimAround("\n", core, rest);
  }

  lemma {:induction false} NotificationStartsWithLines(f: ContactForm, now: string)
    ensures StartsWith(Notification(f, now), Join(Lines(f), '\n'))
  {
    NotificationShape(f, now);
    var body := Join(Lines(f), '\n');
    var rest := " " + now + "\n  ";
    var n :| 0 <= n <= |rest| && Notification(f, now) == body + "\n⏰" + rest[..n];
    PrefixOfConcat(body, "\n⏰", rest[..n]);
  }

  lemma {:induction false} PrefixOfConcat(a: string, b: string, c: string)
    ensures StartsWith(a + b + c, a)
  {
    assert (a + b + c)[..|a|] == a;
  }

  /** For an accepted body, each line of the notification shows what was
      submitted under its key: an optional line appears exactly when a
      non-empty string was sent. */
  lemma {:induction false} LinesOfSubmitted(fields: map<string, Json>, isEmail: string -> bool)
    requires Validate(fields, isEmail).Accepted?
    ensures "name" in fields && fields["name"].JString? && "message" in fields && fields["message"].JString?
    ensures var r := Lines(Validate(fields, isEmail).form);
            r[2] == NameCaption + fields["name"].s && r[10] == fields["message"].s
            && r[3] == OptionalLine(EmailCaption, Submitted(fields, "email"))
            && r[4] == OptionalLine(LineCaption, Submitted(fields, "lineId"))
            && r[5] == OptionalLine(PhoneCaption, Submitted(fields, "phone"))
            && r[6] == OptionalLine(ServiceCaption, Submitted(fields, "service"))
            && r[7] == OptionalLine(BudgetCaption, Submitted(fields, "budget"))
            && r[12] == OptionalLine(SourceCaption, Submitted(fields, "source"))
    ensures var r := Lines(Validate(fields, isEmail).form);
            var src := Submitted(fields, "utm_source");
            (r[13] == "" <==> src.None? || src.value == "")
            && (r[13] != "" ==> r[13] == UtmCaption + src.value + " / " + OrDash(Submitted(fields, "utm_medium"))
                                          + " / " + OrDash(Submitted(fields, "utm_campaign")))
  {
    AcceptedKeepsValues(fields, isEmail);
  }

  /** The notification always names the sender and quotes the message. */
  lemma {:induction false} NotificationMentions(f: ContactForm, now: string)
    ensures Contains(Notification(f, now), NameCaption + f.name)
    ensures Contains(Notification(f, now), f.message)
  {
    var body := Join(Lines(f), '\n');
    var s := Notification(f, now);
    NotificationStartsWithLines(f, now);
    JoinContains(Lines(f), '\n', 2);
    JoinContains(Lines(f), '\n', 10);
    ContainsPrefix(body, s, Lines(f)[2]);
    ContainsPrefix(body, s, Lines(f)[10]);
  }

  lemma {:induction false} ContainsPrefix(p: string, s: string, t: string)
    requires StartsWith(s, p) && Contains(p, t)
    ensures Contains(s, t)
  {
    var i :| 0 <= i <= |p| && StartsWith(p[i..], t);
    assert s[i..][..|t|] == p[i..][..|t|];
  }

  // ---- the request ----

  /** `process.env`: the Telegram credentials, if set. */
  datatype Env = Env(botToken: Option<string>, chatId: Option<string>)

  /** `!botToken || !chatId` is false: both are set and non-empty. */
  predicate Configured(env: Env) {
    env.botToken.Some? && env.botToken.value != "" && env.chatId.Some? && env.chatId.value != ""
  }

  /** The request handed to `fetch`. */
  datatype TelegramRequest = TelegramRequest(url: string, chatId: string, text: string, parseMode: string)

  datatype Response = Response(status: int, success: bool, message: Option<string>, errors: seq<string>)

  /** The response `POST` gives for a body. */
  function Outcome(body: Body, isEmail: string -> bool): (r: Response)
    ensures r.status == 200 || r.status == 400 || r.status == 500
    ensures r.success <==> r.status == 200
    ensures r.status == 500 <==> body.Unparseable?
    ensures r.status == 200 <==> body.Object? && Validate(body.fields, isEmail).Accepted?
    ensures r.status == 400 ==> r.errors != []
  {
    match body
    case Unparseable => Response(500, false, Some("Internal server error"), [])
    case NonObject => Response(400, false, None, [""])
    case Object(fields) =>
      match Validate(fields, isEmail)
      case Accepted(_) => Response(200, true, Some("Contact form submitted successfully"), [])
      case Rejected(issues) => Response(400, false, None, issues)
  }

  /** `sendTelegramNotification`: the request it sends, or none when the
      credentials are missing. A failing `fetch` is caught, so nothing it
      does reaches the caller. */
  method SendTelegramNotification(f: ContactForm, env: Env, now: string) returns (sent: Option<TelegramRequest>)
    ensures sent.Some? <==> Configured(env)
    ensures sent.Some? ==> sent.value == TelegramRequest(
              "https://api.telegram.org/bot" + env.botToken.value + "/sendMessage",
              env.chatId.value, Notification(f, now), "Markdown")
  {
    if env.botToken.None? || env.botToken.value == "" || env.chatId.None? || env.chatId.value == "" {
      return None;
    }
    var text := Notification(f, now);
    sent := Some(TelegramRequest(
      "https://api.telegram.org/bot" + env.botToken.value + "/sendMessage",
      env.chatId.value, text, "Markdown"));
  }

  /** `POST`: parse, validate, notify, answer. The response does not depend
      on the environment or on whether the send succeeded. */
  method Post(body: Body, env: Env, isEmail: string -> bool, now: string)
    returns (response: Response, sent: Option<TelegramRequest>)
    ensures response == Outcome(body, isEmail)
    ensures sent.Some? <==> response.status == 200 && Configured(env)
    ensures sent.Some? ==> sent.value.text == Notification(Validate(body.fields, isEmail).form, now)
  {
    if body.Unparseable? {
      return Response(500, false, Some("Internal server error"), []), None;
    }
    if body.NonObject? {
      return Response(400, false, None, [""]), None;
    }
    var validation := Validate(body.fields, isEmail);
    if validation.Rejected? {
      return Response(400, false, None, validation.issues), None;
    }
    sent := SendTelegramNotification(validation.form, env, now);
    response := Response(200, true, Some("Contact form submitted successfully"), []);
  }
}
