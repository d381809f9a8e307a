/** `POST /story`: validates a JSON body holding an e-mail address and the list
    of sites a visitor saved, and mails that list with the "your-story"
    template. */
module Story {
  import opened Wrappers
  import opened Js
  import opened Validate
  import opened Mail

  /** The outcome of one check: it passes, it fails, or evaluating it throws
      (which the handler's `catch` turns into "Invalid JSON data."). */
  datatype Verdict = Passes | Fails | Throws

  /** `parsedData.email == null || !isValidEmail(parsedData.email)`: the
      pattern test converts the value to a string first, and that conversion
      may throw. */
  function CheckEmail(data: Json): Verdict
    requires !data.JNull?
  {
    var email := Get(data, "email");
    if IsNullish(email) then Fails
    else match ToJsString(email.value)
      case None => Throws
      case Some(text) => if IsValidEmail(text) then Passes else Fails
  }

  /** The body's `email` is present and passes the address pattern. */
  predicate HasValidEmail(data: Json)
    requires !data.JNull?
  {
    CheckEmail(data) == Passes
  }

  /** The test the loop applies to one entry: reading a property of a null
      entry throws; any other entry must have all five keys truthy. */
  function CheckSite(site: Json): Verdict {
    if site.JNull? then Throws
    else if || !Truthy(Get(site, "siteName"))
            || !Truthy(Get(site, "locationInfo"))
            || !Truthy(Get(site, "curatorCollection"))
            || !Truthy(Get(site, "address"))
            || !Truthy(Get(site, "thumbnail"))
    then Fails
    else Passes
  }

  /** An entry that passes the check: an object-like value whose five
      required keys all hold truthy values. */
  predicate CompleteSite(site: Json) {
    CheckSite(site) == Passes
  }

  datatype Scan = AllSitesOk | StopsAt(index: nat, verdict: Verdict)

  /** The scan of the entries in list order, stopping at the first that fails. */
  function ScanSites(sites: seq<Json>): (r: Scan)
    ensures r.AllSitesOk? <==> forall i | 0 <= i < |sites| :: CheckSite(sites[i]) == Passes
    ensures r.StopsAt? ==>
      && r.index < |sites|
      && r.verdict == CheckSite(sites[r.index])
      && r.verdict != Passes
      && forall j | 0 <= j < r.index :: CheckSite(sites[j]) == Passes
  {
    if sites == [] then AllSitesOk
    else if CheckSite(sites[0]) != Passes then StopsAt(0, CheckSite(sites[0]))
    else match ScanSites(sites[1..])
      case AllSitesOk => AllSitesOk
      case StopsAt(i, verdict) => StopsAt(i + 1, verdict)
  }

  /** The scan stops at the first entry that fails the check. */
  lemma ScanStopsAtFirstFailure(sites: seq<Json>, i: nat)
    requires i < |sites| && CheckSite(sites[i]) != Passes
    requires forall j | 0 <= j < i :: CheckSite(sites[j]) == Passes
    ensures ScanSites(sites) == StopsAt(i, CheckSite(sites[i]))
  {
  }

  const StorySubject := "Discover your York County story"
  const StoryPreheader := "Here are the sites you saved during today\U{2019}s visit."

  function StoryMessage(email: Json, sites: Json): Message {
    Message(
      FromName,
      StorySubject,
      [Recipient(email, "to")],
      false,
      [RecipientVars(email, [MergeVar("preheader", JStr(StoryPreheader)), MergeVar("sites", sites)])],
      None)
  }

  /** The checks of a `/story` body in the handler's order, and the provider
      request they lead to. `body` is the result of
      `JSON.parse(JSON.stringify(req.body))`; `None` is an undefined body,
      whose round trip throws. */
  function PrepareStory(body: Option<Json>): Result<SendRequest, Failure> {
    if body.None? || body.value.JNull? then Failure(InvalidJson)
    else
      match CheckEmail(body.value)
      case Throws => Failure(InvalidJson)
      case Fails => Failure(InvalidEmail)
      case Passes =>
        var email := Get(body.value, "email").value;
        var sites := Get(body.value, "sites");
        if sites.None? || !TypeofIsObject(sites.value) then Failure(InvalidSites)
        else if sites.value.JNull? then Failure(InvalidJson)          // Object.keys(null) throws
        else if KeyCount(sites.value) == 0 then Failure(InvalidSites)
        else if sites.value.JObj? then Failure(InvalidJson)           // for..of over a non-iterable
        else match ScanSites(sites.value.items)
          case AllSitesOk => Success(SendRequest("your-story", StoryMessage(email, sites.value)))
          case StopsAt(_, verdict) => Failure(if verdict == Throws then InvalidJson else InvalidSiteEntry)
  }

  /** What `POST /story` does for a caller, a body and a provider. */
  function StoryExchange(user: Option<UserId>, body: Option<Json>, provider: Provider): Exchange {
    if user.None? then Refuse(Unauthorized)
    else match PrepareStory(body)
      case Failure(f) => Refuse(f)
      case Success(request) => Deliver(request, provider)
  }

  /** The route handler, step by step: the gate, the e-mail check, the `sites`
      check, the loop over the entries with its early exit, and the send. */
  method HandleStory(user: Option<UserId>, body: Option<Json>, provider: Provider) returns (out: Exchange)
    ensures out == StoryExchange(user, body, provider)
  {
    if user.None? {
      return Refuse(Unauthorized);
    }
    if body.None? || body.value.JNull? {
      return Refuse(InvalidJson);
    }
    var data := body.value;
    var email := Get(data, "email");
    if IsNullish(email) {
      return Refuse(InvalidEmail);
    }
    var text := ToJsString(email.value);
    if text.None? {
      return Refuse(InvalidJson);
    }
    if !IsValidEmail(text.value) {
      return Refuse(InvalidEmail);
    }
    var sites := Get(data, "sites");
    if sites.None? || !TypeofIsObject(sites.value) {
      return Refuse(InvalidSites);
    }
    if sites.value.JNull? {
      return Refuse(InvalidJson);
    }
    if KeyCount(sites.value) == 0 {
      return Refuse(InvalidSites);
    }
    if sites.value.JObj? {
      return Refuse(InvalidJson);
    }
    var items := sites.value.items;
    var i := 0;
    while i < |items|
      invariant 0 <= i <= |items|
      invariant forall j | 0 <= j < i :: CheckSite(items[j]) == Passes
    {
      var site := items[i];
      if site.JNull? {
        ScanStopsAtFirstFailure(items, i);
        return Refuse(InvalidJson);
      }
      if || !Truthy(Get(site, "siteName"))
         || !Truthy(Get(site, "locationInfo"))
         || !Truthy(Get(site, "curatorCollection"))
         || !Truthy(Get(site, "address"))
         || !Truthy(Get(site, "thumbnail"))
      {
        ScanStopsAtFirstFailure(items, i);
        return Refuse(InvalidSiteEntry);
      }
      i := i + 1;
    }
    var request := SendRequest("your-story", StoryMessage(email.value, sites.value));
    match provider(request) {
      case Delivered(response) =>
        out := Exchange(Some(request), Reply(200, ProviderBody(response)));
      case SendFailed =>
        out := Exchange(Some(request), Reject(EmailSendError));
    }
  }

  /** A story is sent exactly when a caller is present, the body is an object
      with a valid e-mail, and `sites` is a non-empty array all of whose
      entries are complete; one incomplete entry rejects the whole request. */
  lemma StoryAcceptedIff(user: Option<UserId>, body: Option<Json>, provider: Provider)
    ensures StoryExchange(user, body, provider).sent.Some? <==>
      && user.Some?
      && body.Some? && !body.value.JNull?
      && HasValidEmail(body.value)
      && Get(body.value, "sites").Some?
      && Get(body.value, "sites").value.JArr?
      && |Get(body.value, "sites").value.items| > 0
      && forall i | 0 <= i < |Get(body.value, "sites").value.items| ::
           CompleteSite(Get(body.value, "sites").value.items[i])
  {
    if user.Some? && body.Some? && !body.value.JNull? && CheckEmail(body.value) == Passes {
      var sites := Get(body.value, "sites");
      if sites.Some? && sites.value.JArr? && |sites.value.items| > 0 {
        assert KeyCount(sites.value) > 0;
        assert StoryExchange(user, body, provider).sent.Some? <==> ScanSites(sites.value.items).AllSitesOk?;
      }
    }
  }

  /** Only the first failure is reported, in a fixed order: the gate, then
      an undefined or null body, then the e-mail, then `sites` missing, not
      an object, empty, null or a plain object, regardless of what follows
      in the body. */
  lemma StoryCheckOrder(user: Option<UserId>, body: Option<Json>, provider: Provider)
    ensures user.None? ==> StoryExchange(user, body, provider) == Refuse(Unauthorized)
    ensures user.Some? && (body.None? || body.value.JNull?) ==>
      StoryExchange(user, body, provider) == Refuse(InvalidJson)
    ensures user.Some? && body.Some? && !body.value.JNull? && CheckEmail(body.value) == Fails ==>
      StoryExchange(user, body, provider) == Refuse(InvalidEmail)
    ensures user.Some? && body.Some? && !body.value.JNull? && CheckEmail(body.value) == Throws ==>
      StoryExchange(user, body, provider) == Refuse(InvalidJson)
    ensures user.Some? && body.Some? && !body.value.JNull? && HasValidEmail(body.value) ==>
      var sites := Get(body.value, "sites");
      (sites.None? || !TypeofIsObject(sites.value) || sites.value == JArr([]) || sites.value == JObj(map[]))
        ==> StoryExchange(user, body, provider) == Refuse(InvalidSites)
    ensures user.Some? && body.Some? && !body.value.JNull? && HasValidEmail(body.value) ==>
      var sites := Get(body.value, "sites");
      (sites == Some(JNull) || (sites.Some? && sites.value.JObj? && |sites.value.fields| > 0))
        ==> StoryExchange(user, body, provider) == Refuse(InvalidJson)
  {
  }

  /** When the entries before position `i` are all complete and entry `i`
      is not, the reply names that entry's failure: a missing key gives the
      site-entry error, a null entry the generic "Invalid JSON data.";
      nothing is sent either way. */
  lemma StoryFirstBadEntry(user: Option<UserId>, body: Option<Json>, provider: Provider, i: nat)
    requires user.Some? && body.Some? && !body.value.JNull? && HasValidEmail(body.value)
    requires Get(body.value, "sites").Some? && Get(body.value, "sites").value.JArr?
    requires i < |Get(body.value, "sites").value.items|
    requires forall j | 0 <= j < i :: CompleteSite(Get(body.value, "sites").value.items[j])
    requires !CompleteSite(Get(body.value, "sites").value.items[i])
    ensures StoryExchange(user, body, provider) ==
      Refuse(if Get(body.value, "sites").value.items[i].JNull? then InvalidJson else InvalidSiteEntry)
  {
    var sites := Get(body.value, "sites").value;
    var items := sites.items;
    ScanStopsAtFirstFailure(items, i);
    assert KeyCount(sites) > 0;
    var f := if items[i].JNull? then InvalidJson else InvalidSiteEntry;
    assert PrepareStory(body) == Failure(f);
  }

  /** A sent story goes out once with the "your-story" template to exactly one
      "to" recipient, the validated e-mail; the single merge-variable block is
      for that same address and holds `preheader` and then `sites`, the input
      list unchanged; the provider's answer decides the reply. */
  lemma StoryMessageShape(user: Option<UserId>, body: Option<Json>, provider: Provider)
    requires StoryExchange(user, body, provider).sent.Some?
    ensures body.Some? && !body.value.JNull?
    ensures
      var request := StoryExchange(user, body, provider).sent.value;
      var email := Get(body.value, "email");
      var sites := Get(body.value, "sites");
      && email.Some? && sites.Some?
      && request.templateName == "your-story"
      && request.message.subject == "Discover your York County story"
      && request.message.to == [Recipient(email.value, "to")]
      && |request.message.mergeVars| == 1
      && request.message.mergeVars[0].rcpt == email.value
      && |request.message.mergeVars[0].vars| == 2
      && request.message.mergeVars[0].vars[0].name == "preheader"
      && request.message.mergeVars[0].vars[1] == MergeVar("sites", sites.value)
      && request.message.attachments.None?
    ensures
      var x := StoryExchange(user, body, provider);
      x.reply == (if provider(x.sent.value).SendFailed? then Reject(EmailSendError)
                  else Reply(200, ProviderBody(provider(x.sent.value).response)))
  {
  }

  /** `isValidEmail` tests the string form of `email`, so an array holding one
      address passes, and the message goes to the array value itself. */
  lemma ArrayWrappedEmailIsSent(user: UserId, site: Json, provider: Provider)
    requires CompleteSite(site)
    ensures
      var email := JArr([JStr("a@b.co")]);
      var body := Some(JObj(map["email" := email, "sites" := JArr([site])]));
      var x := StoryExchange(Some(user), body, provider);
      x.sent.Some? && x.sent.value.message.to == [Recipient(email, "to")]
  {
    var email := JArr([JStr("a@b.co")]);
    var body := Some(JObj(map["email" := email, "sites" := JArr([site])]));
    EmailCoercion(email, "a@b.co");
    EmailSamples();
    assert HasValidEmail(body.value);
    StoryAcceptedIff(Some(user), body, provider);
    StoryMessageShape(Some(user), body, provider);
  }

  /** An `email` object with its own "toString" key cannot be converted to a
      string, so the pattern test throws and the reply is "Invalid JSON
      data.", whatever `sites` holds. */
  lemma OwnToStringEmailThrows(user: UserId, sites: Json, provider: Provider)
    ensures
      var body := Some(JObj(map["email" := JObj(map["toString" := JNum("1")]), "sites" := sites]));
      StoryExchange(Some(user), body, provider) == Refuse(InvalidJson)
  {
    var data := JObj(map["email" := JObj(map["toString" := JNum("1")]), "sites" := sites]);
    assert Get(data, "email") == Some(JObj(map["toString" := JNum("1")]));
    assert CheckEmail(data) == Throws;
  }
}
