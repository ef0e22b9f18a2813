/** The data shapes of the webhook bridge: recording files, queue items, the
    bucket location and the two webhook request bodies, plus the errors the
    modelled code can throw. */
module Types {
  import opened Results

  /** The media containers the provider reports (`"MP4" | "M4A"`). */
  datatype FileExtension = MP4 | M4A

  /** One recording file of a notification. `fileSize` is a JSON number and is
      only read for progress reporting. */
  datatype RecordingFile = RecordingFile(
    id: string,
    fileSize: int,
    downloadUrl: string,
    fileExtension: FileExtension)

  /** A download job: one file together with the notification's download token. */
  datatype QueueItem = QueueItem(downloadToken: string, fileInfo: RecordingFile)

  /** The destination bucket and its region. */
  datatype S3Url = S3Url(bucketName: string, region: string)

  /** The `payload.object` part of a recording-completed notification; each of
      the three file arrays may be absent. */
  datatype RecordingObject = RecordingObject(
    sessionId: string,
    recordingFiles: Option<seq<RecordingFile>>,
    participantAudioFiles: Option<seq<RecordingFile>>,
    participantVideoFiles: Option<seq<RecordingFile>>)

  datatype RecordingPayload = RecordingPayload(accountId: string, obj: RecordingObject)

  /** A body shaped as a recording-completed notification. The `event` field
      is whatever string the sender put there; the handler dispatches on it. */
  datatype RecordingCompletedBody = RecordingCompletedBody(
    event: string,
    payload: RecordingPayload,
    eventTs: int,
    downloadToken: string)

  datatype ValidationPayload = ValidationPayload(plainToken: string)

  /** A body shaped as an endpoint URL-validation challenge. */
  datatype ValidationBody = ValidationBody(event: string, payload: ValidationPayload, eventTs: int)

  /** The parsed webhook request body: one of the two shapes. */
  datatype WebhookBody =
    | Validation(validation: ValidationBody)
    | RecordingCompleted(completed: RecordingCompletedBody)
  {
    /** The discriminating `event` field, whichever shape carries it. */
    function Event(): string {
      match this
      case Validation(v) => v.event
      case RecordingCompleted(c) => c.event
    }
  }

  /** What the modelled code throws. */
  datatype Error =
    | MissingEnvironmentVariable(key: string)  // getEnvironmentVariable on an absent or empty value
    | ReduceOfEmptyArray                       // `reduce` without an initial value on an empty array
    | S3UriNoMatches(uri: string)              // the S3 URI pattern does not match
    | S3UriMissingParts                        // a captured bucket name or region is empty
    | PayloadShapeMismatch                     // the event names one body shape, the payload has the other
}
