/** What a route answers and what it hands to the e-mail provider: the error
    taxonomy with its fixed statuses and texts, the outbound template message,
    the provider's send operation, and the `/test` route. */
module Mail {
  import opened Wrappers
  import opened Js

  /** The caller identity the host attaches to a request
      (`req.accountability?.user`); `None` when it is null or missing. */
  type UserId = string

  datatype Failure =
    | Unauthorized
    | InvalidJson
    | InvalidEmail
    | InvalidSites
    | InvalidSiteEntry
    | InvalidQuestion
    | InvalidAudio
    | EmailSendError

  function StatusOf(f: Failure): int {
    if f == Unauthorized then 403 else 400
  }

  function ErrorText(f: Failure): string {
    match f
    case Unauthorized => "You don't have permission to access this."
    case InvalidJson => "Invalid JSON data."
    case InvalidEmail => "Email is required and must be a valid email address."
    case InvalidSites => "sites must be an object with length > 0."
    case InvalidSiteEntry =>
      "Each site object must contain keys for siteName, locationInfo, curatorCollection, address, and thumbnail."
    case InvalidQuestion => "Question text is required."
    case InvalidAudio => "Audio file is required, and must be of type audio/mpeg."
    case EmailSendError => "Error sending email."
  }

  /** The JSON body of a reply: `{error: ..}`, `{success: ..}`, or the
      provider's response passed through unchanged. */
  datatype Body = ErrorBody(error: string) | SuccessBody(success: string) | ProviderBody(response: Json)

  datatype Reply = Reply(status: int, body: Body)

  function Reject(f: Failure): Reply {
    Reply(StatusOf(f), ErrorBody(ErrorText(f)))
  }

  const FromName := "York County History Center"

  datatype Recipient = Recipient(email: Json, kind: string)

  /** One merge variable of the template. */
  datatype MergeVar = MergeVar(name: string, content: Json)

  /** The merge variables for one recipient. */
  datatype RecipientVars = RecipientVars(rcpt: Json, vars: seq<MergeVar>)

  datatype Attachment = Attachment(mimeType: string, name: Option<string>, content: string)

  /** The `message` argument of the template send; `attachments` is `None`
      when the message has no such key. */
  datatype Message = Message(
    fromName: string,
    subject: string,
    to: seq<Recipient>,
    inlineCss: bool,
    mergeVars: seq<RecipientVars>,
    attachments: Option<seq<Attachment>>)

  /** One call of the provider's template send. */
  datatype SendRequest = SendRequest(templateName: string, message: Message)

  datatype SendResult = Delivered(response: Json) | SendFailed

  /** The provider: for each request, whether the send throws or what it answers. */
  type Provider = SendRequest -> SendResult

  /** What one request does: the provider call it makes, if any, and its reply. */
  datatype Exchange = Exchange(sent: Option<SendRequest>, reply: Reply)

  /** Sends the message once and translates the outcome into the reply. */
  function Deliver(request: SendRequest, provider: Provider): Exchange {
    match provider(request)
    case Delivered(response) => Exchange(Some(request), Reply(200, ProviderBody(response)))
    case SendFailed => Exchange(Some(request), Reject(EmailSendError))
  }

  /** Refuses the request before anything else when there is no caller. */
  function Refuse(f: Failure): Exchange {
    Exchange(None, Reject(f))
  }

  /** `POST /test`: reports whether the caller passed the authentication gate. */
  function HandleTest(user: Option<UserId>): (r: Reply)
    ensures r.status == 403 <==> user.None?
    ensures user.None? ==> r.body == ErrorBody("You don't have permission to access this.")
    ensures user.Some? ==> r == Reply(200, SuccessBody("Authorization was successful."))
  {
    if user.None? then Reject(Unauthorized)
    else Reply(200, SuccessBody("Authorization was successful."))
  }

  /** The provider is called at most once, with the given request, and its
      answer decides the reply: a thrown send gives 400 "Error sending
      email.", anything else is returned unchanged with status 200. */
  lemma DeliverOutcome(request: SendRequest, provider: Provider)
    ensures Deliver(request, provider).sent == Some(request)
    ensures provider(request).SendFailed? <==>
      Deliver(request, provider).reply == Reply(400, ErrorBody("Error sending email."))
    ensures provider(request).Delivered? ==>
      Deliver(request, provider).reply == Reply(200, ProviderBody(provider(request).response))
  {
  }
}
