# Webhook-to-S3 bridge: a Dafny model of its decision logic

This project models the pure core of a small service that receives
video-conferencing webhook notifications, checks their HMAC signature,
answers the provider's URL-validation challenge, and turns a
"recording completed" notification into download jobs that are later
streamed into an S3 bucket. Three pieces are modelled:

- **Payload mapper** (`src/utils.ts`, module `Utils`): `getEnvironmentVariable`
  as a lookup in an environment map that fails on an absent or empty value;
  `flatMerge` as "drop absent arrays, then `reduce` by concatenation without
  an initial value"; and `mapToQueueItems`, which pairs every file with the
  notification's download token and keeps, for every file id, only the first
  item (the `index === findIndex(...)` filter).
- **Bucket locator and object key** (`src/aws-uploader.ts`, module
  `AwsUploader`): the pattern `/https:\/\/([\w\W]+).s3.([\w\W]+).amazonaws.com/`
  as a search over strings with the regular-expression engine's preference
  (leftmost start, then the longest group 1, then the longest group 2; each
  unescaped `.` accepts any character except a line terminator);
  `getS3Url` with the configured URI as a parameter; the key
  `<id>.<lower-cased extension>`; and the values `uploadToBucket` hands to
  the storage SDK.
- **Webhook handler** (`src/server.ts`, module `Server`): a pure function from
  the environment, the request (timestamp header, signature header, parsed
  body) and the current job queue to the response or the thrown error and
  the new queue. HMAC-SHA256-hex and `JSON.stringify` are passed in as
  uninterpreted functions (`Primitives`).

Shared shapes from `src/types.ts` live in module `Types`; `Results` holds the
`Option`/`Result` wrappers used for `undefined` fields and thrown errors.

Behaviours of the code worth noting:

- When all three file arrays are absent, `reduce` without an initial value
  throws, so the mapper fails (`ReduceOfEmptyArray`); it does not return an
  empty list. Present but empty arrays do give an empty list.
- The signature is computed over `JSON.stringify` of the parsed body, not
  over the raw request bytes.
- The secret is looked up on every request, so a missing secret is a
  per-request failure rather than a start-up error.
- The bucket pattern is unanchored, its dots are wildcards and its groups
  are greedy: for instance `https://xAs3ByCamazonawsDcom` parses, and a
  matching URI still parses with text around it, but the greedy groups can
  take in that text (appending `.amazonaws.com` to a URI moves it into the
  region).
- An absent timestamp header is rendered as the text `undefined` in the
  signed message, as the template literal does.

## Model

| member | source | states |
|---|---|---|
| Utils.GetEnvironmentVariable | src/utils.ts:16-22 | succeeds exactly when the key is present with a non-empty value, and then returns that value; otherwise fails naming the key |
| Utils.PresentArrays | src/utils.ts:9 | keeping only the present arrays leaves nothing exactly when every argument is absent |
| Utils.FlatMerge | src/utils.ts:7-10 | fails (reduce of an empty array) exactly when every argument is absent; otherwise yields the elements of the present arrays in argument order, which is proved equal to the left fold the code performs |
| Utils.FlatMergeOfThree | src/utils.ts:41 | for the three file arrays: failure iff all are absent, otherwise recordings ++ audio ++ video with absent arrays contributing nothing |
| Utils.FindIndex | src/utils.ts:48 | returns the first index carrying the id, or -1 when no item carries it |
| Utils.KeepFirstOccurrences | src/utils.ts:47-49 | the filter's output has pairwise distinct ids, takes its items from the input, and covers exactly the set of ids of the input |
| Utils.DedupSelectsFirstOccurrences | src/utils.ts:47-49 | the output is the input at strictly increasing positions, and a position is kept exactly when it is the first occurrence of its id |
| Utils.DedupOfDistinctIsIdentity | src/utils.ts:47-49 | when the ids are already distinct nothing is dropped |
| Utils.DedupIdempotent | src/utils.ts:47-49 | filtering twice equals filtering once |
| Utils.DedupBySeenSet | src/utils.ts:47-49 | a single pass that remembers the ids already seen computes exactly the findIndex filter |
| Utils.PairWithToken | src/utils.ts:41-44 | the mapping keeps the length and pairs the file at each position with the shared download token |
| Utils.MapToQueueItems | src/utils.ts:28-52 | fails exactly when all three arrays are absent; on success every item carries the download token, ids are pairwise distinct, and every id of every array is present |
| Utils.MapToQueueItemsIsDedupOfMerged | src/utils.ts:41-51 | on success the result is the first-occurrence filter of the merged files paired with the token |
| Utils.MapToQueueItemsSelectsFirstOccurrences | src/utils.ts:41-49 | the result is an order-preserving subsequence of the merged items consisting exactly of the first occurrence of each id |
| Utils.MapToQueueItemsKeepsDistinct | src/utils.ts:41-49 | with distinct ids across the three arrays every file is enqueued, in merge order |
| Utils.MapperDropsLaterDuplicate | src/utils.ts:41-49 | recordings [A, B], audio [B', C] with B' sharing B's id, and empty video give [A, B, C] with the token |
| Utils.EmptyArraysMapToNothing | src/utils.ts:7-10 | when at least one of the three arrays is present and every present one is empty, the result is an empty list, not a failure |
| AwsUploader.LastGroup2End | src/aws-uploader.ts:8 | greedy group 2: the latest end followed by `.amazonaws.com`, and none later |
| AwsUploader.SearchGroup1 | src/aws-uploader.ts:8 | greedy group 1: the match found is preferred to every match from the same start with an earlier or equal group-1 end; none found means no such match |
| AwsUploader.SearchFrom | src/aws-uploader.ts:8 | the unanchored search returns a match preferred to every match starting at or after the position, or none when no match exists there |
| AwsUploader.MatchS3Uri | src/aws-uploader.ts:22 | the reported match is a match, preferred to every other match, and there is none exactly when the pattern matches nowhere |
| AwsUploader.GetS3Url | src/aws-uploader.ts:16-39 | fails with the "no matches" error exactly when the pattern matches nowhere; on success bucket and region are non-empty and are exactly capture groups 1 and 2 of the reported match |
| AwsUploader.ExampleUriParses | src/aws-uploader.ts:22-38 | `https://my-bucket.s3.us-east-1.amazonaws.com` gives bucket `my-bucket` and region `us-east-1` |
| AwsUploader.MatchSurvivesSurroundingText | src/aws-uploader.ts:8 | a match stays a match, shifted, when text is added before and after the URI |
| AwsUploader.ParseSurvivesSurroundingText | src/aws-uploader.ts:22 | a URI the pattern matches parses, and still parses (possibly with different groups) with arbitrary text before or after it |
| AwsUploader.GreedyRegionAbsorbsSuffix | src/aws-uploader.ts:8 | appending `.amazonaws.com` to `https://my-bucket.s3.us-east-1.amazonaws.com` gives region `us-east-1.amazonaws.com`: the greedy group 2 swallows the repeated host suffix |
| AwsUploader.DotsMatchAnyCharacter | src/aws-uploader.ts:8 | any non-line-terminator characters in place of the four dots still parse |
| AwsUploader.ToLowerCase | src/aws-uploader.ts:49 | lower-casing keeps the length and lower-cases every ASCII letter in place |
| AwsUploader.FileKey | src/aws-uploader.ts:49 | the key is the unchanged id, then a dot, then the three lower-cased extension characters |
| AwsUploader.FileKeyShape | src/aws-uploader.ts:48-49 | the object key is the id followed by `.mp4` for MP4 and `.m4a` for M4A |
| AwsUploader.ParseFileKeyRoundTrip | src/aws-uploader.ts:49 | the id and the extension can be read back from the key |
| AwsUploader.FileKeyInjective | src/aws-uploader.ts:49 | two files share a key exactly when they share id and extension |
| AwsUploader.QueuedKeysDistinct | src/aws-uploader.ts:49 | items with distinct ids, as the mapper produces, upload to pairwise distinct keys |
| AwsUploader.PrepareUpload | src/aws-uploader.ts:44-69 | succeeds exactly when the URI parses and both credentials are present; the URI error wins over the access-key error, which wins over the secret-key error; on success bucket, region, key and credentials are the parsed and looked-up values |
| AwsUploader.UploadTargetIgnoresSizeAndUrl | src/aws-uploader.ts:48-67 | the upload target depends only on the URI, the environment, and the file's id and extension |
| Server.SignedMessage | src/server.ts:37 | the signed message is `v0:`, the timestamp text, `:` and the serialised body, each at its position |
| Server.ExpectedSignature | src/server.ts:40-45 | the expected signature is `v0=` followed by the hex HMAC under the secret of the signed message |
| Server.HandleWebhook | src/server.ts:33-71 | the queue only ever grows by appending, and a thrown error leaves it unchanged |
| Server.MissingSecretFailsEveryRequest | src/server.ts:40 | an absent or empty secret makes every request fail with the missing-variable error before any comparison |
| Server.BadSignatureIsUnauthorized | src/server.ts:37-48 | a signature header other than `v0=` + HMAC(secret, `v0:<ts>:<body>`) gets 401 with the unauthorized message and enqueues nothing |
| Server.OkRequiresValidSignature | src/server.ts:48-67 | no 200 response is produced unless the secret is set and the signature header matches |
| Server.ChallengeIsAnswered | src/server.ts:51-56 | a signed validation challenge gets 200 echoing the plain token with its HMAC under the secret, and nothing is enqueued |
| Server.CompletionEnqueuesMappedItems | src/server.ts:60-65 | a signed recording-completed notification gets 200 with the authorized message and the queue gains exactly the mapped items, in order |
| Server.MappingFailureEnqueuesNothing | src/server.ts:61-63 | a signed notification with all three arrays absent fails and enqueues nothing |
| Server.UnknownEventIsUnauthorized | src/server.ts:51-70 | a signed request with any other event falls through to 401 and enqueues nothing |
| Server.QueueChangesOnlyOnSignedCompletion | src/server.ts:60-65 | the queue changes only for a signed recording-completed notification, and then by exactly the mapped items with a 200 answer |
| Server.OkBranchesAreExclusive | src/server.ts:51-66 | a 200 carries the challenge answer exactly for the validation event and the message exactly for the completion event |
| Server.DuplicateFileEnqueuedOnce | src/server.ts:60-65 | a signed notification listing one file id under recordings and again under audio enqueues one job and answers 200 |

## Left out

- The Express server, routing, `express.json()` and `app.listen` (`src/server.ts`): HTTP plumbing; the handler takes the parsed body and headers directly.
- Header values that are arrays: a header is modelled as absent or one string.
- The fastq worker pool and its concurrency bound of 4: library concurrency; the queue is an append-only sequence of pushed items.
- `downloadCloudRecording` (`src/zoom-downloader.ts`): a wrapper over a streaming HTTP GET.
- `S3Client`, `Upload` and `uploader.done()`: foreign SDK calls; `PrepareUpload` stops at the values handed to them.
- The upload-progress percentage: floating-point arithmetic that is only logged.
- Console logging, `dotenv.config()` and loading `config.json`: the bucket URI is a parameter.
- The SHA-256/HMAC computation and `JSON.stringify`: uninterpreted function parameters, so properties that rest on collision resistance (a changed body or secret gives a different signature) are not stated.
- Utils.FlatMerge: is generic over the element type but matches the code only for elements that are not arrays: `acc.concat(...curr)` hands each element to `concat` as its own argument, and `concat` flattens array arguments, so for nested arrays the code flattens one level more; the only instantiation used is `RecordingFile`, whose elements are objects.
- AwsUploader.ToLowerCase: models only ASCII letters, because it is applied only to `MP4` and `M4A`.
- JSON numbers (`file_size`, `event_ts`) are modelled as integers; neither takes part in any decision.
- Bodies whose shape matches neither request type beyond the swapped-payload case (`PayloadShapeMismatch`) are not modelled.
- Strings are sequences of Unicode scalar values, not UTF-16 code units: a character outside the Basic Multilingual Plane in a dot position of the bucket pattern is one character here but two code units for the JavaScript engine.
- The second secret lookup of the challenge branch reads the same environment as the first and is not repeated in the model.
- `@types/process-env.d.ts`: type declarations only.
