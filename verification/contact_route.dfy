/** The contact endpoint (`app/api/contact/route.ts`) as a total function
    from a request, the deployment environment and the store's answer to a
    response, together with the lead it handed to `createLead` and the
    document that reached the store. */
module ContactRoute {
  import opened Wrappers
  import opened Text
  import opened Validation
  import opened LeadStore

  datatype Method = GET | POST

  /** The parsed JSON body: the form and the hidden honeypot `website`. */
  datatype ContactBody = ContactBody(form: ContactFormData, website: Option<string>)

  /** An incoming request. `body` is `Err` with the thrown message when the
      body cannot be read as a form; `headers` is keyed by lower-case name. */
  datatype Request = Request(verb: Method, body: Result<ContactBody>, headers: map<string, string>)

  /** What the handler reads from its surroundings: `NODE_ENV`, whether
      `SANITY_WRITE_TOKEN` is set, and the current time as an ISO string. */
  datatype Env = Env(nodeEnv: string, writeTokenPresent: bool, now: string)

  /** The JSON bodies the endpoint answers with. */
  datatype ResponseBody =
    | Acknowledged(message: string, leadId: Option<string>)  // { success: true, leadId?, message }
    | FormRejected(error: string, errors: ContactFormErrors)  // { error, errors }
    | Failure(error: string, details: Option<string>)         // { error, details? }

  datatype Response = Response(status: int, body: ResponseBody)

  /** One request's effect: the response, the argument of the `createLead`
      call if one was made, and the document sent to the store's `create` if
      the call got that far. Whether the store kept it is the store's reply. */
  datatype Handled = Handled(response: Response, leadCall: Option<LeadData>, sent: Option<LeadDocument>)

  const BotThanks := "Thank you for contacting us! We'll get back to you soon."
  const Thanks := "Thank you for contacting us! We'll get back to you within 24 hours."
  const FormInvalid := "Please check your form and try again."
  const ConfigError := "Server configuration error. Please contact support."
  const ConfigDetails := "Sanity write permissions not configured correctly."
  const SaveFailed := "Failed to save your request. Please try again or contact us directly."
  const Unexpected := "An unexpected error occurred. Please try again later or contact us directly."
  const MethodNotAllowed := "Method not allowed. This endpoint only accepts POST requests."
  const Unknown := "unknown"
  const DevelopmentEnv := "development"

  /** `headers.get(name)`: the value, or `null` when the header is absent. */
  function Header(headers: map<string, string>, name: string): (r: Option<string>)
    ensures r.Some? <==> name in headers
    ensures r.Some? ==> r.value == headers[name]
  {
    if name in headers then Some(headers[name]) else None
  }

  /** The honeypot has tripped: `website` is present and not blank. */
  predicate IsBot(website: Option<string>) {
    website.Some? && Trim(website.value) != ""
  }

  /** The client address: the first comma-separated entry of
      `x-forwarded-for` if that entry is non-empty, else `x-real-ip` if
      non-empty, else "unknown"; never empty. */
  function ClientIp(headers: map<string, string>): (ip: string)
    ensures ip != ""
    ensures var xff := Header(headers, "x-forwarded-for");
      if xff.Some? && FirstSegment(xff.value) != "" then
        ip <= xff.value && ',' !in ip && (|ip| == |xff.value| || xff.value[|ip|] == ',')
      else if "x-real-ip" in headers && headers["x-real-ip"] != "" then
        ip == headers["x-real-ip"]
      else
        ip == Unknown
  {
    var forwarded := Header(headers, "x-forwarded-for");
    var first := if forwarded.Some? then Some(FirstSegment(forwarded.value)) else None;
    OrElse(first, OrElse(Header(headers, "x-real-ip"), Unknown))
  }

  /** The `user-agent` header, or "unknown" when absent or empty; never
      empty. */
  function UserAgent(headers: map<string, string>): (ua: string)
    ensures ua != ""
    ensures "user-agent" in headers && headers["user-agent"] != "" ==> ua == headers["user-agent"]
    ensures !("user-agent" in headers && headers["user-agent"] != "") ==> ua == Unknown
  {
    OrElse(Header(headers, "user-agent"), Unknown)
  }

  /** The route's sanitisation: every field trimmed and the e-mail
      lowercased. */
  function Sanitize(form: ContactFormData): (clean: ContactFormData)
    ensures clean.name == Trim(form.name) && clean.phone == Trim(form.phone)
    ensures clean.service == Trim(form.service) && clean.message == Trim(form.message)
    ensures clean.email == Lower(Trim(form.email))
    ensures IsTrimmed(clean.name) && IsTrimmed(clean.email) && IsTrimmed(clean.phone)
    ensures IsTrimmed(clean.service) && IsTrimmed(clean.message)
    ensures forall i :: 0 <= i < |clean.email| ==> !('A' <= clean.email[i] <= 'Z')
  {
    LowerTrimmed(Trim(form.email));
    ContactFormData(
      Trim(form.name),
      Lower(Trim(form.email)),
      Trim(form.phone),
      Trim(form.service),
      Trim(form.message))
  }

  /** The argument the route passes to `createLead`. */
  function LeadFor(clean: ContactFormData, env: Env, ip: string, ua: string): LeadData {
    LeadData(clean.name, clean.email, clean.phone, clean.service, clean.message,
             Some(WebsiteSource), env.now, Some(ip), Some(ua))
  }

  /** The inner `catch`: a message naming a permission problem or the token
      is a configuration error, with a fixed explanation; anything else is
      a generic failure. The store's own text never reaches the client. */
  function StoreErrorResponse(message: string): (r: Response)
    ensures r.status == 500 && r.body.Failure?
    ensures r.body.error in {ConfigError, SaveFailed}
    ensures r.body.details == if r.body.error == ConfigError then Some(ConfigDetails) else None
    ensures r.body.error == ConfigError <==>
              Contains(message, PermissionMarker) || Contains(message, TokenMarker)
  {
    if Contains(message, PermissionMarker) || Contains(message, TokenMarker) then
      Response(500, Failure(ConfigError, Some(ConfigDetails)))
    else
      Response(500, Failure(SaveFailed, None))
  }

  /** `POST`: read the body, honeypot, validate, capture client metadata,
      sanitise, call `createLead` once, and answer. */
  function Post(request: Request, env: Env, store: StoreReply): (h: Handled)
    ensures h.sent.Some? ==> && h.leadCall.Some? && env.writeTokenPresent
                               && h.sent == Some(BuildLeadDocument(h.leadCall.value))
    ensures h.response.body.Acknowledged? && h.response.body.leadId.Some? ==>
              h.sent.Some? && store == Created(h.response.body.leadId.value)
    ensures h.leadCall.Some? ==> request.body.Ok? && ValidateContactForm(request.body.value.form).isValid
  {
    match request.body
    case Err(m) =>
      var details := if env.nodeEnv == DevelopmentEnv then Some(m) else None;
      Handled(Response(500, Failure(Unexpected, details)), None, None)
    case Ok(body) =>
      if IsBot(body.website) then
        Handled(Response(200, Acknowledged(BotThanks, None)), None, None)
      else
        var validation := ValidateContactForm(body.form);
        if !validation.isValid then
          Handled(Response(400, FormRejected(FormInvalid, validation.errors)), None, None)
        else
          Submit(body.form, request.headers, env, store)
  }

  /** The steps after validation: capture client metadata, sanitise, call
      `createLead` once, and answer from its outcome. */
  function Submit(form: ContactFormData, headers: map<string, string>, env: Env, store: StoreReply): (h: Handled)
    ensures h.leadCall.Some?
    ensures h.sent.Some? <==> env.writeTokenPresent
    ensures h.sent.Some? ==> h.sent == Some(BuildLeadDocument(h.leadCall.value))
    ensures h.response.body.Acknowledged? ==> h.response.body.leadId.Some?
    ensures h.response.body.Acknowledged? <==> env.writeTokenPresent && store.Created?
  {
    var ip := ClientIp(headers);
    var ua := UserAgent(headers);
    var lead := LeadFor(Sanitize(form), env, ip, ua);
    var call := CreateLead(lead, env.writeTokenPresent, store);
    var response :=
      match call.outcome
      case Ok(created) => Response(200, Acknowledged(Thanks, Some(created.leadId)))
      case Err(m) => StoreErrorResponse(m);
    Handled(response, Some(lead), call.sent)
  }

  /** `GET`: always 405, and nothing else happens. */
  function Get(): (h: Handled)
    ensures h.response.status == 405 && h.leadCall.None? && h.sent.None?
  {
    Handled(Response(405, Failure(MethodNotAllowed, None)), None, None)
  }

  /** The endpoint: dispatch on the method. */
  function Handle(request: Request, env: Env, store: StoreReply): (h: Handled)
    ensures request.verb == GET ==> h == Get()
    ensures h.sent.Some? ==> request.verb == POST && h.leadCall.Some?
  {
    match request.verb
    case GET => Get()
    case POST => Post(request, env, store)
  }

  // ------------------------------------------------------------ properties

  /** Sanitising twice is sanitising once. */
  lemma SanitizeIdempotent(form: ContactFormData)
    ensures Sanitize(Sanitize(form)) == Sanitize(form)
  {
    TrimIdempotent(form.name);
    TrimIdempotent(form.phone);
    TrimIdempotent(form.service);
    TrimIdempotent(form.message);
    TrimOfLowerTrimmed(form.email);
    LowerIdempotent(Trim(form.email));
  }

  /** A form that passes validation still passes once sanitised. */
  lemma SanitizeKeepsValid(form: ContactFormData)
    ensures ValidateContactForm(form).isValid ==> ValidateContactForm(Sanitize(form)).isValid
  {
    if ValidateContactForm(form).isValid {
      var clean := Sanitize(form);
      TrimIdempotent(form.name);
      TrimIdempotent(form.message);
      TrimIdempotent(form.service);
      LowerKeepsEmailShape(form.email);
      StripTrim(form.phone);
      assert ValidateContactForm(form).errors == map[];
      assert ValidateContactForm(clean).errors == map[];
    }
  }

  /** `createLead` trims and lowercases again what the route already
      sanitised; the stored fields are those of a single sanitisation. */
  lemma StoredFieldsSanitisedOnce(clean: ContactFormData, lead: LeadData)
    requires clean == Sanitize(clean)
    requires lead.name == clean.name && lead.email == clean.email && lead.phone == clean.phone
    requires lead.service == clean.service && lead.message == clean.message
    ensures var doc := BuildLeadDocument(lead);
      && doc.name == clean.name && doc.email == clean.email && doc.phone == clean.phone
      && doc.service == clean.service && doc.message == clean.message
  {
    assert BuildLeadDocument(lead).email == Lower(Trim(clean.email));
  }

  /** The request reaches the validator: a readable POST body whose
      honeypot is blank. */
  predicate PassesHoneypot(request: Request) {
    request.verb == POST && request.body.Ok? && !IsBot(request.body.value.website)
  }

  /** The request reaches the store call: it passes the honeypot and its
      form validates. */
  predicate ReachesStore(request: Request) {
    PassesHoneypot(request) && ValidateContactForm(request.body.value.form).isValid
  }

  /** A tripped honeypot answers with the ordinary thank-you, carries no lead
      id, and neither calls `createLead` nor writes anything. */
  lemma HoneypotSilentlyAccepts(request: Request, env: Env, store: StoreReply)
    requires request.verb == POST && request.body.Ok? && IsBot(request.body.value.website)
    ensures var h := Handle(request, env, store);
      && h.response == Response(200, Acknowledged(BotThanks, None))
      && h.leadCall.None? && h.sent.None?
  {
  }

  /** A blank or absent honeypot changes nothing: the request is handled
      exactly as the same request without the field. */
  lemma BlankHoneypotIgnored(request: Request, env: Env, store: StoreReply)
    requires request.body.Ok? && !IsBot(request.body.value.website)
    ensures Handle(request, env, store)
         == Handle(request.(body := Ok(request.body.value.(website := None))), env, store)
  {
  }

  /** A form that fails validation is answered 400 with the validator's
      errors unchanged, and `createLead` is never called. */
  lemma InvalidFormRejected(request: Request, env: Env, store: StoreReply)
    requires PassesHoneypot(request)
    ensures var v := ValidateContactForm(request.body.value.form); var h := Handle(request, env, store);
      !v.isValid ==>
        && h.response == Response(400, FormRejected(FormInvalid, v.errors))
        && h.response.body.errors != map[]
        && h.leadCall.None? && h.sent.None?
  {
  }

  /** A request that passes the honeypot and validation is handled by the
      store steps of `Submit`. */
  lemma ReachesStoreSubmits(request: Request, env: Env, store: StoreReply)
    ensures ReachesStore(request) ==>
      Handle(request, env, store) == Submit(request.body.value.form, request.headers, env, store)
  {
  }

  /** After validation `createLead` is called once, with the sanitised
      fields, source "website", the clock's timestamp and the captured
      address and user agent. */
  lemma LeadCallArguments(form: ContactFormData, headers: map<string, string>, env: Env, store: StoreReply)
    ensures var h := Submit(form, headers, env, store); var clean := Sanitize(form);
      && h.leadCall.Some?
      && h.leadCall.value.name == clean.name && h.leadCall.value.email == clean.email
      && h.leadCall.value.phone == clean.phone && h.leadCall.value.service == clean.service
      && h.leadCall.value.message == clean.message
      && h.leadCall.value.source == Some(WebsiteSource)
      && h.leadCall.value.submittedAt == env.now
      && h.leadCall.value.ipAddress == Some(ClientIp(headers))
      && h.leadCall.value.userAgent == Some(UserAgent(headers))
  {
  }

  /** With the token present, the document sent to the store is a `lead` whose fields
      are one sanitisation of the submitted form, with status "new",
      priority "medium", source "website" and the captured metadata. */
  lemma SentDocument(form: ContactFormData, headers: map<string, string>, env: Env, store: StoreReply)
    requires env.writeTokenPresent
    ensures var h := Submit(form, headers, env, store); var clean := Sanitize(form);
      && h.sent.Some?
      && h.sent.value.docType == LeadType
      && h.sent.value.name == clean.name && h.sent.value.email == clean.email
      && h.sent.value.phone == clean.phone && h.sent.value.service == clean.service
      && h.sent.value.message == clean.message
      && h.sent.value.source == WebsiteSource
      && h.sent.value.status == NewStatus && h.sent.value.priority == DefaultPriority
      && h.sent.value.submittedAt == env.now
      && h.sent.value.ipAddress == Some(ClientIp(headers))
      && h.sent.value.userAgent == Some(UserAgent(headers))
  {
    var clean := Sanitize(form);
    SanitizeIdempotent(form);
    StoredFieldsSanitisedOnce(clean, LeadFor(clean, env, ClientIp(headers), UserAgent(headers)));
  }

  /** When the store accepts the lead, the answer is 200 with exactly the
      store-assigned id. */
  lemma SuccessCarriesStoreId(form: ContactFormData, headers: map<string, string>, env: Env, id: string)
    requires env.writeTokenPresent
    ensures Submit(form, headers, env, Created(id)).response == Response(200, Acknowledged(Thanks, Some(id)))
  {
  }

  /** Without a write token nothing is sent to the store and the answer is the
      configuration error with its fixed explanation. */
  lemma MissingTokenIsConfigurationError(form: ContactFormData, headers: map<string, string>, env: Env, store: StoreReply)
    requires !env.writeTokenPresent
    ensures var h := Submit(form, headers, env, store);
      && h.response == Response(500, Failure(ConfigError, Some(ConfigDetails)))
      && h.leadCall.Some? && h.sent.None?
  {
    TokenRewrapKeepsMarker();
  }

  /** A store error gets the configuration answer exactly when its message
      names the token without the capitalised permission marker: a
      permission error, reworded by `createLead` in lower case, no longer
      matches the route's case-sensitive test and gets the generic answer.
      Either way the store's text is not passed on. */
  lemma StoreFailureClassification(form: ContactFormData, headers: map<string, string>, env: Env, message: string)
    requires env.writeTokenPresent
    ensures var r := Submit(form, headers, env, Failed(message)).response;
      && r.status == 500
      && (r.body == Failure(ConfigError, Some(ConfigDetails)) <==>
            !Contains(message, PermissionMarker) && Contains(message, TokenMarker))
      && (r.body != Failure(ConfigError, Some(ConfigDetails)) ==> r.body == Failure(SaveFailed, None))
  {
    StoreFailureResponse(form, headers, env, message);
    RewordedErrorClassification(message);
  }

  /** A store error reaches the client only through `RewrapError` and then
      the route's own classification. */
  lemma StoreFailureResponse(form: ContactFormData, headers: map<string, string>, env: Env, message: string)
    requires env.writeTokenPresent
    ensures Submit(form, headers, env, Failed(message)).response == StoreErrorResponse(RewrapError(message))
  {
  }

  /** The store error as the route sees it, after `createLead` reworded it. */
  lemma RewordedErrorClassification(message: string)
    ensures var r := StoreErrorResponse(RewrapError(message));
      && (r.body == Failure(ConfigError, Some(ConfigDetails)) <==>
            !Contains(message, PermissionMarker) && Contains(message, TokenMarker))
      && (r.body != Failure(ConfigError, Some(ConfigDetails)) ==> r.body == Failure(SaveFailed, None))
  {
    PermissionRewrapLosesMarkers();
    TokenRewrapKeepsMarker();
  }

  /** The consequence for a permission failure: the generic retry answer,
      not the configuration one. */
  lemma PermissionFailureIsGeneric(form: ContactFormData, headers: map<string, string>, env: Env, message: string)
    requires env.writeTokenPresent
    requires Contains(message, PermissionMarker)
    ensures Submit(form, headers, env, Failed(message)).response == Response(500, Failure(SaveFailed, None))
  {
    StoreFailureClassification(form, headers, env, message);
  }

  /** The whole endpoint on a valid submission: a write happens exactly when
      the token is present, and success exactly when the store accepts. */
  lemma ValidPostOutcome(request: Request, env: Env, store: StoreReply)
    ensures var h := Handle(request, env, store);
      ReachesStore(request) ==>
        && h.leadCall.Some?
        && (h.sent.Some? <==> env.writeTokenPresent)
        && (h.response.body.Acknowledged? <==> env.writeTokenPresent && store.Created?)
  {
    ReachesStoreSubmits(request, env, store);
  }

  /** A body that cannot be read is answered 500 with the generic message;
      the thrown message is attached only in development. */
  lemma UnreadableBody(request: Request, env: Env, store: StoreReply)
    requires request.verb == POST && request.body.Err?
    ensures var h := Handle(request, env, store);
      && h.response.status == 500
      && h.response.body.Failure? && h.response.body.error == Unexpected
      && (h.response.body.details.Some? <==> env.nodeEnv == DevelopmentEnv)
      && (h.response.body.details.Some? ==> h.response.body.details.value == request.body.message)
      && h.leadCall.None? && h.sent.None?
  {
  }
}
