/** `POST /audio`: validates a multipart form with an e-mail address, the
    question the visitor answered, a minor/adult flag and an MP3 recording,
    and mails the recording back with the "audio-booth" template. */
module Audio {
  import opened Wrappers
  import opened Js
  import opened Text
  import opened Validate
  import opened Mail

  /** The parsed multipart form, each field and each file reduced to the
      first value submitted under its name; `ParseFailed` when parsing throws. */
  datatype Form = ParseFailed | Parsed(fields: map<string, string>, files: map<string, Upload>)

  /** The base64 text of each temporary file that can be read, by path. */
  type FileStore = map<string, string>

  function Lookup<V>(m: map<string, V>, key: string): Option<V> {
    if key in m then Some(m[key]) else None
  }

  /** The `isMinor` resolution: minor unless the submitted value is present,
      not blank, and neither "true" nor "1". */
  function IsMinor(value: Option<string>): bool {
    match value
    case None => true                       // !data.isMinor for undefined
    case Some(v) => v == "" || Trim(v) == "" || v == "true" || v == "1"
  }

  /** The truth table of `isMinor`: an absent or blank value, "true" and "1"
      give a minor; every other value gives an adult. */
  lemma IsMinorTruthTable(value: Option<string>)
    ensures IsMinor(value) <==>
      value.None? || AllWhitespace(value.value) || value.value == "true" || value.value == "1"
  {
    if value.Some? {
      TrimEmptyIff(value.value);
    }
  }

  /** A value with a visible character that is neither "true" nor "1"
      gives an adult. */
  lemma VisibleValueIsAdult(value: string, k: nat)
    requires k < |value| && !IsJsWhitespace(value[k])
    requires value != "true" && value != "1"
    ensures !IsMinor(Some(value))
  {
    IsMinorTruthTable(Some(value));
  }

  /** Sample values: "false", "0" and " true " give an adult. */
  lemma AdultSamples()
    ensures !IsMinor(Some("false")) && !IsMinor(Some("0")) && !IsMinor(Some(" true "))
  {
  }

  const RecordingHeader := "Thank You for Recording"
  const SharingHeader := "Thank You for Sharing"
  const ForwardNote :=
    "If you would like your York County memories to be part of our archives, please forward your recording and the attached permission form to: stories@yorkhistorycenter.org."
  const ArchivedNote :=
    "Your York County memories are now part of the history center\U{2019}s archives. We may reach out to you in the future for more information about your story."

  /** The sentence that quotes the visitor's question. */
  function QuestionSentence(question: string): string {
    "Your recording is attached. You answered the question: \U{201C}" + question + "\U{201D}"
  }

  datatype TemplateVars = TemplateVars(header: string, p1: string, p2: string)

  /** The two fixed variable sets; the question sentence is the first
      paragraph for a minor and the second for an adult. */
  function ChooseTemplateVars(isMinor: bool, question: string): TemplateVars {
    if isMinor then TemplateVars(RecordingHeader, QuestionSentence(question), ForwardNote)
    else TemplateVars(SharingHeader, ArchivedNote, QuestionSentence(question))
  }

  const AudioSubject := "Your Story Audio, from York County History Center"
  const AudioPreheader := "Here\U{2019}s your audio recording from the York County History Center."

  function AudioMessage(email: string, vars: TemplateVars, audio: Upload, content: string): Message
    requires audio.mimetype.Some?
  {
    Message(
      FromName,
      AudioSubject,
      [Recipient(JStr(email), "to")],
      false,
      [RecipientVars(JStr(email), [
        MergeVar("preheader", JStr(AudioPreheader)),
        MergeVar("header", JStr(vars.header)),
        MergeVar("p1", JStr(vars.p1)),
        MergeVar("p2", JStr(vars.p2))])],
      Some([Attachment(audio.mimetype.value, audio.originalFilename, content)]))
  }

  /** The checks of an `/audio` form in the handler's order, and the provider
      request they lead to. Reading the temporary file happens inside the
      handler's `try`, so an unreadable file gives the generic parse error. */
  function PrepareAudio(form: Form, store: FileStore): Result<SendRequest, Failure> {
    if form.ParseFailed? then Failure(InvalidJson)
    else
      var email := Lookup(form.fields, "email");
      if email.None? || !IsValidEmail(email.value) then Failure(InvalidEmail)
      else
        var question := Lookup(form.fields, "question");
        if question.None? || Trim(question.value) == "" then Failure(InvalidQuestion)
        else
          var isMinor := IsMinor(Lookup(form.fields, "isMinor"));
          var audio := Lookup(form.files, "audio");
          if !IsValidUpload(audio) then Failure(InvalidAudio)
          else if audio.value.filepath !in store then Failure(InvalidJson)
          else
            var vars := ChooseTemplateVars(isMinor, Trim(question.value));
            Success(SendRequest("audio-booth",
              AudioMessage(email.value, vars, audio.value, store[audio.value.filepath])))
  }

  /** What `POST /audio` does for a caller, a form, the readable files and a
      provider. */
  function AudioExchange(user: Option<UserId>, form: Form, store: FileStore, provider: Provider): Exchange {
    if user.None? then Refuse(Unauthorized)
    else match PrepareAudio(form, store)
      case Failure(f) => Refuse(f)
      case Success(request) => Deliver(request, provider)
  }

  /** The route handler, step by step: the gate, the e-mail, the trimmed
      question, the `isMinor` flag, the upload and its base64 text, the
      template variables, and the send. */
  method HandleAudio(user: Option<UserId>, form: Form, store: FileStore, provider: Provider)
    returns (out: Exchange)
    ensures out == AudioExchange(user, form, store, provider)
  {
    var isMinor := true;
    if user.None? {
      return Refuse(Unauthorized);
    }
    if form.ParseFailed? {
      return Refuse(InvalidJson);
    }
    var data, upload := form.fields, form.files;

    var email := Lookup(data, "email");
    if email.None? || !IsValidEmail(email.value) {
      return Refuse(InvalidEmail);
    }

    var question := Lookup(data, "question");
    if question.None? || Trim(question.value) == "" {
      return Refuse(InvalidQuestion);
    }
    var trimmed := Trim(question.value);

    var flag := Lookup(data, "isMinor");
    if flag.None? || flag.value == "" || Trim(flag.value) == "" || flag.value == "true" || flag.value == "1" {
      isMinor := true;
    } else {
      isMinor := false;
    }

    var audio := Lookup(upload, "audio");
    if !IsValidUpload(audio) {
      return Refuse(InvalidAudio);
    }
    if audio.value.filepath !in store {
      return Refuse(InvalidJson);
    }
    var base64File := store[audio.value.filepath];

    var templateVars;
    if isMinor {
      templateVars := TemplateVars(RecordingHeader, QuestionSentence(trimmed), ForwardNote);
    } else {
      templateVars := TemplateVars(SharingHeader, ArchivedNote, QuestionSentence(trimmed));
    }

    var request := SendRequest("audio-booth", AudioMessage(email.value, templateVars, audio.value, base64File));
    match provider(request) {
      case Delivered(response) =>
        out := Exchange(Some(request), Reply(200, ProviderBody(response)));
      case SendFailed =>
        out := Exchange(Some(request), Reject(EmailSendError));
    }
  }

  /** A recording is sent exactly when a caller is present, the form parsed,
      the e-mail passes the pattern, the question is not blank, the upload is
      an MP3 and its temporary file can be read. */
  lemma AudioAcceptedIff(user: Option<UserId>, form: Form, store: FileStore, provider: Provider)
    ensures AudioExchange(user, form, store, provider).sent.Some? <==>
      && user.Some?
      && form.Parsed?
      && "email" in form.fields && IsValidEmail(form.fields["email"])
      && "question" in form.fields && !AllWhitespace(form.fields["question"])
      && "audio" in form.files
      && form.files["audio"].keys != {}
      && form.files["audio"].mimetype == Some("audio/mpeg")
      && form.files["audio"].filepath in store
  {
    if form.Parsed? && "question" in form.fields {
      TrimEmptyIff(form.fields["question"]);
    }
  }

  /** Only the first failure is reported: the gate, then the e-mail, then the
      question, then the upload, then an unreadable temporary file, whatever
      the later fields hold. */
  lemma AudioCheckOrder(user: Option<UserId>, form: Form, store: FileStore, provider: Provider)
    ensures user.None? ==> AudioExchange(user, form, store, provider) == Refuse(Unauthorized)
    ensures user.Some? && form.ParseFailed? ==> AudioExchange(user, form, store, provider) == Refuse(InvalidJson)
    ensures user.Some? && form.Parsed? ==>
      var fields := form.fields;
      && (("email" !in fields || !IsValidEmail(fields["email"])) ==>
            AudioExchange(user, form, store, provider) == Refuse(InvalidEmail))
      && ("email" in fields && IsValidEmail(fields["email"]) &&
          ("question" !in fields || AllWhitespace(fields["question"])) ==>
            AudioExchange(user, form, store, provider) == Refuse(InvalidQuestion))
      && ("email" in fields && IsValidEmail(fields["email"]) &&
          "question" in fields && !AllWhitespace(fields["question"]) &&
          !IsValidUpload(Lookup(form.files, "audio")) ==>
            AudioExchange(user, form, store, provider) == Refuse(InvalidAudio))
      && ("email" in fields && IsValidEmail(fields["email"]) &&
          "question" in fields && !AllWhitespace(fields["question"]) &&
          IsValidUpload(Lookup(form.files, "audio")) && form.files["audio"].filepath !in store ==>
            AudioExchange(user, form, store, provider) == Refuse(InvalidJson))
  {
    if form.Parsed? && "question" in form.fields {
      TrimEmptyIff(form.fields["question"]);
    }
  }

  /** A sent recording goes out with the "audio-booth" template to exactly one
      "to" recipient, the submitted e-mail, with the variables `preheader`,
      `header`, `p1`, `p2` in that order and exactly one attachment carrying the
      upload's MIME type, original file name and base64 text. A minor gets the
      "Recording" header, the question sentence as `p1` and the forwarding note
      as `p2`; an adult gets the "Sharing" header, the archive note as `p1` and
      the question sentence as `p2`. The question is quoted
      trimmed. */
  lemma AudioMessageShape(user: Option<UserId>, form: Form, store: FileStore, provider: Provider)
    requires AudioExchange(user, form, store, provider).sent.Some?
    ensures form.Parsed? && "email" in form.fields && "question" in form.fields && "audio" in form.files
    ensures
      var request := AudioExchange(user, form, store, provider).sent.value;
      var email := JStr(form.fields["email"]);
      var audio := form.files["audio"];
      var sentence := JStr(QuestionSentence(Trim(form.fields["question"])));
      var vars := request.message.mergeVars[0].vars;
      && request.templateName == "audio-booth"
      && request.message.to == [Recipient(email, "to")]
      && |request.message.mergeVars| == 1
      && request.message.mergeVars[0].rcpt == email
      && |vars| == 4
      && vars[0].name == "preheader" && vars[1].name == "header"
      && vars[2].name == "p1" && vars[3].name == "p2"
      && (IsMinor(Lookup(form.fields, "isMinor")) ==>
            && vars[1].content == JStr("Thank You for Recording")
            && vars[2].content == sentence && vars[3].content == JStr(ForwardNote))
      && (!IsMinor(Lookup(form.fields, "isMinor")) ==>
            && vars[1].content == JStr("Thank You for Sharing")
            && vars[2].content == JStr(ArchivedNote) && vars[3].content == sentence)
      && request.message.attachments ==
           Some([Attachment("audio/mpeg", audio.originalFilename, store[audio.filepath])])
    ensures
      var x := AudioExchange(user, form, store, provider);
      x.reply == (if provider(x.sent.value).SendFailed? then Reject(EmailSendError)
                  else Reply(200, ProviderBody(provider(x.sent.value).response)))
  {
    PreparedAudioRequest(form, store);
    var audio := form.files["audio"];
    var minor := IsMinor(Lookup(form.fields, "isMinor"));
    var question := Trim(form.fields["question"]);
    var request := SendRequest("audio-booth",
      AudioMessage(form.fields["email"], ChooseTemplateVars(minor, question), audio, store[audio.filepath]));
    assert AudioExchange(user, form, store, provider) == Deliver(request, provider);
    TemplateVarsPlacement(minor, question);
  }

  /** Where the question sentence and the two fixed notes go. */
  lemma TemplateVarsPlacement(isMinor: bool, question: string)
    ensures var vars := ChooseTemplateVars(isMinor, question);
      && (isMinor ==> vars == TemplateVars(RecordingHeader, QuestionSentence(question), ForwardNote))
      && (!isMinor ==> vars == TemplateVars(SharingHeader, ArchivedNote, QuestionSentence(question)))
  {
  }

  /** The request a successful `/audio` form leads to, built from its fields. */
  lemma PreparedAudioRequest(form: Form, store: FileStore)
    requires PrepareAudio(form, store).Success?
    ensures form.Parsed? && "email" in form.fields && "question" in form.fields && "audio" in form.files
    ensures form.files["audio"].mimetype == Some("audio/mpeg") && form.files["audio"].filepath in store
    ensures
      var audio := form.files["audio"];
      var vars := ChooseTemplateVars(IsMinor(Lookup(form.fields, "isMinor")), Trim(form.fields["question"]));
      PrepareAudio(form, store).value ==
        SendRequest("audio-booth", AudioMessage(form.fields["email"], vars, audio, store[audio.filepath]))
  {
  }
}
