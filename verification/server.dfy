/** The decision logic of the webhook POST handler in `src/server.ts`. The
    HTTP framework is gone: the handler is a pure function from the request
    and the current job queue to the response (or the thrown error) and the
    new job queue. */
module Server {
  import opened Results
  import opened Types
  import Utils

  const SecretVariable := "ZOOM_WEBHOOK_SECRET_TOKEN"
  const UrlValidationEvent := "endpoint.url_validation"
  const RecordingCompletedEvent := "session.recording_completed"
  const AuthorizedMessage := "Authorized request to Zoom Webhook sample."
  const UnauthorizedMessage := "Unauthorized request to Zoom Webhook sample."

  /** The two JSON response bodies. */
  datatype ResponseBody =
    | MessageBody(message: string)
    | ValidationResponseBody(plainToken: string, encryptedToken: string)

  datatype Response = Response(status: int, body: ResponseBody)

  /** The cryptographic and serialisation primitives the handler calls; they
      are not interpreted. `hmacHex(key, message)` stands for
      `createHmac("sha256", key).update(message).digest("hex")`, and
      `stringify(body)` for `JSON.stringify(body)`. */
  datatype Primitives = Primitives(
    hmacHex: (string, string) -> string,
    stringify: WebhookBody -> string)

  /** One request as the handler sees it. An absent header is `None`. */
  datatype Request = Request(
    timestampHeader: Option<string>,
    signatureHeader: Option<string>,
    body: WebhookBody)

  /** What one call of the handler produces: the response or the thrown
      error, and the job queue after any pushes. */
  datatype Handled = Handled(response: Result<Response, Error>, queue: seq<QueueItem>)

  /** A header interpolated into a template literal: an absent header
      renders as `undefined`. */
  function HeaderText(header: Option<string>): string {
    match header
    case Some(text) => text
    case None => "undefined"
  }

  /** The message that is signed: `v0:<timestamp>:<serialised body>`. */
  function SignedMessage(timestamp: string, serializedBody: string): (m: string)
    ensures |m| == |timestamp| + |serializedBody| + 4
    ensures m[..3] == "v0:" && m[3..3 + |timestamp|] == timestamp
    ensures m[3 + |timestamp|] == ':' && m[4 + |timestamp|..] == serializedBody
  {
    "v0:" + timestamp + ":" + serializedBody
  }

  /** The signature the sender must present. */
  function ExpectedSignature(p: Primitives, secret: string, req: Request): (r: string)
    ensures |r| >= 3 && r[..3] == "v0="
    ensures r[3..] == p.hmacHex(secret, SignedMessage(HeaderText(req.timestampHeader), p.stringify(req.body)))
  {
    "v0=" + p.hmacHex(secret, SignedMessage(HeaderText(req.timestampHeader), p.stringify(req.body)))
  }

  /** The 401 answer, with the queue untouched. */
  function Unauthorized(queue: seq<QueueItem>): Handled {
    Handled(Success(Response(401, MessageBody(UnauthorizedMessage))), queue)
  }

  /** The POST handler. */
  function HandleWebhook(p: Primitives, env: map<string, string>, req: Request, queue: seq<QueueItem>): (h: Handled)
    ensures queue <= h.queue
    ensures h.response.Failure? ==> h.queue == queue
  {
    match Utils.GetEnvironmentVariable(env, SecretVariable)
    case Failure(e) => Handled(Failure(e), queue)
    case Success(secret) =>
      if req.signatureHeader == Some(ExpectedSignature(p, secret, req)) then
        if req.body.Event() == UrlValidationEvent then
          match req.body
          case Validation(v) =>
            // the secret is looked up again here; the environment has not changed
            var plainToken := v.payload.plainToken;
            Handled(Success(Response(200, ValidationResponseBody(plainToken, p.hmacHex(secret, plainToken)))), queue)
          case RecordingCompleted(_) =>
            // `payload.plainToken` is undefined and `update` throws
            Handled(Failure(PayloadShapeMismatch), queue)
        else if req.body.Event() == RecordingCompletedEvent then
          match req.body
          case RecordingCompleted(c) =>
            // the pushes happen only after the mapping has returned
            (match Utils.MapToQueueItems(c)
             case Failure(e) => Handled(Failure(e), queue)
             case Success(items) => Handled(Success(Response(200, MessageBody(AuthorizedMessage))), queue + items))
          case Validation(_) =>
            // `payload.object` is undefined and its destructuring throws
            Handled(Failure(PayloadShapeMismatch), queue)
        else
          Unauthorized(queue)
      else
        Unauthorized(queue)
  }

  /* ---------------------------------------------------------------------- */
  /* Properties of the handler                                              */
  /* ---------------------------------------------------------------------- */

  /** The configured secret is present and non-empty. */
  predicate HasSecret(env: map<string, string>) {
    SecretVariable in env && env[SecretVariable] != ""
  }

  /** The request carries exactly the signature the sender must present. */
  predicate SignatureValid(p: Primitives, env: map<string, string>, req: Request)
    requires HasSecret(env)
  {
    req.signatureHeader == Some(ExpectedSignature(p, env[SecretVariable], req))
  }

  /** Without the secret, every request fails before any signature is compared. */
  lemma MissingSecretFailsEveryRequest(p: Primitives, env: map<string, string>, req: Request, queue: seq<QueueItem>)
    requires !HasSecret(env)
    ensures HandleWebhook(p, env, req, queue) == Handled(Failure(MissingEnvironmentVariable(SecretVariable)), queue)
  {
  }

  /** A signature other than the expected one is answered 401 and enqueues nothing. */
  lemma BadSignatureIsUnauthorized(p: Primitives, env: map<string, string>, req: Request, queue: seq<QueueItem>)
    requires HasSecret(env)
    requires !SignatureValid(p, env, req)
    ensures HandleWebhook(p, env, req, queue) == Handled(Success(Response(401, MessageBody(UnauthorizedMessage))), queue)
  {
  }

  /** No 200 answer without the secret and a matching signature. */
  lemma OkRequiresValidSignature(p: Primitives, env: map<string, string>, req: Request, queue: seq<QueueItem>)
    requires HandleWebhook(p, env, req, queue).response.Success?
    requires HandleWebhook(p, env, req, queue).response.value.status == 200
    ensures HasSecret(env) && SignatureValid(p, env, req)
  {
  }

  /** A signed validation challenge is answered with the echoed plain token
      and its HMAC under the secret; nothing is enqueued. */
  lemma ChallengeIsAnswered(p: Primitives, env: map<string, string>, req: Request, queue: seq<QueueItem>)
    requires HasSecret(env) && SignatureValid(p, env, req)
    requires req.body.Validation? && req.body.Event() == UrlValidationEvent
    ensures var plainToken := req.body.validation.payload.plainToken;
            HandleWebhook(p, env, req, queue)
            == Handled(Success(Response(200, ValidationResponseBody(plainToken, p.hmacHex(env[SecretVariable], plainToken)))), queue)
  {
  }

  /** A signed recording-completed notification is acknowledged with 200 and
      exactly the mapped items are appended, in order. */
  lemma CompletionEnqueuesMappedItems(p: Primitives, env: map<string, string>, req: Request, queue: seq<QueueItem>)
    requires HasSecret(env) && SignatureValid(p, env, req)
    requires req.body.RecordingCompleted? && req.body.Event() == RecordingCompletedEvent
    requires !Utils.NoFileArrays(req.body.completed)
    ensures HandleWebhook(p, env, req, queue)
            == Handled(Success(Response(200, MessageBody(AuthorizedMessage))),
                       queue + Utils.MapToQueueItems(req.body.completed).value)
  {
  }

  /** A signed notification without any of the three file arrays throws
      before anything is pushed. */
  lemma MappingFailureEnqueuesNothing(p: Primitives, env: map<string, string>, req: Request, queue: seq<QueueItem>)
    requires HasSecret(env) && SignatureValid(p, env, req)
    requires req.body.RecordingCompleted? && req.body.Event() == RecordingCompletedEvent
    requires Utils.NoFileArrays(req.body.completed)
    ensures HandleWebhook(p, env, req, queue) == Handled(Failure(ReduceOfEmptyArray), queue)
  {
  }

  /** A signed request with any other event falls through to 401. */
  lemma UnknownEventIsUnauthorized(p: Primitives, env: map<string, string>, req: Request, queue: seq<QueueItem>)
    requires HasSecret(env) && SignatureValid(p, env, req)
    requires req.body.Event() != UrlValidationEvent && req.body.Event() != RecordingCompletedEvent
    ensures HandleWebhook(p, env, req, queue) == Unauthorized(queue)
  {
  }

  /** The converse view of the queue: it changes only for a signed
      recording-completed notification, and then by the mapped items. */
  lemma QueueChangesOnlyOnSignedCompletion(p: Primitives, env: map<string, string>, req: Request, queue: seq<QueueItem>)
    requires HandleWebhook(p, env, req, queue).queue != queue
    ensures HasSecret(env) && SignatureValid(p, env, req)
    ensures req.body.RecordingCompleted? && req.body.Event() == RecordingCompletedEvent
    ensures Utils.MapToQueueItems(req.body.completed).Success?
    ensures HandleWebhook(p, env, req, queue).queue == queue + Utils.MapToQueueItems(req.body.completed).value
    ensures HandleWebhook(p, env, req, queue).response == Success(Response(200, MessageBody(AuthorizedMessage)))
  {
  }

  /** The two 200 answers are told apart by the event: the challenge answer
      exactly for `endpoint.url_validation`, the message exactly for
      `session.recording_completed`. */
  lemma OkBranchesAreExclusive(p: Primitives, env: map<string, string>, req: Request, queue: seq<QueueItem>)
    requires HandleWebhook(p, env, req, queue).response.Success?
    requires HandleWebhook(p, env, req, queue).response.value.status == 200
    ensures HandleWebhook(p, env, req, queue).response.value.body.ValidationResponseBody?
            <==> req.body.Event() == UrlValidationEvent
    ensures HandleWebhook(p, env, req, queue).response.value.body.MessageBody?
            <==> req.body.Event() == RecordingCompletedEvent
  {
  }

  /** A notification listing the same file id under recordings and
      participant audio enqueues one job and is acknowledged with 200. */
  lemma DuplicateFileEnqueuedOnce(
    p: Primitives, env: map<string, string>, req: Request, queue: seq<QueueItem>,
    f: RecordingFile, g: RecordingFile)
    requires HasSecret(env) && SignatureValid(p, env, req)
    requires req.body.RecordingCompleted? && req.body.Event() == RecordingCompletedEvent
    requires req.body.completed.payload.obj.recordingFiles == Some([f])
    requires req.body.completed.payload.obj.participantAudioFiles == Some([g])
    requires req.body.completed.payload.obj.participantVideoFiles == None
    requires f.id == g.id
    ensures HandleWebhook(p, env, req, queue)
            == Handled(Success(Response(200, MessageBody(AuthorizedMessage))),
                       queue + [QueueItem(req.body.completed.downloadToken, f)])
  {
    var c := req.body.completed;
    Utils.MapToQueueItemsIsDedupOfMerged(c);
    var merged := Utils.PairWithToken(c.downloadToken, Utils.MergedFiles(c));
    assert Utils.MergedFiles(c) == [f, g];
    assert Utils.FindIndex(merged, f.id) == 0;
    assert Utils.KeepFirstOccurrences(merged, 1) == [merged[0]];
    assert Utils.KeepFirstOccurrences(merged, 2) == [merged[0]];
  }
}
