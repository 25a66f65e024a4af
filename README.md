# QuickAPI request gatekeeping, modelled in Dafny

This project models the request-gatekeeping layer of the QuickAPI NestJS
template and the small deterministic helpers around it, and proves what
each piece promises. Every request passes a chain of independent gates
before it reaches a handler:

- the header sanitiser: lower-cases names; refuses block-listed, repeated,
  badly named or CR/LF-carrying headers; keeps only allow-listed ones;
- the header limiter: header count, per-header bytes, total bytes, and
  chunked transfer encoding;
- the content-type gate: first-match route overrides, and no body on
  body-less methods;
- the body-size gate: a per-request state machine over the incoming
  chunks;
- the method whitelist;
- the sliding-window rate limiter, whose store maps client keys to request
  times;
- the CORS gate, which sets the response headers and answers preflights;
- the two security-header injectors.

Around the gates sit:

- the error taxonomy (each error class fixes a status code and a default
  message);
- the exception filters that turn a thrown value into a response and a log
  entry;
- the access-log line of the logging middleware and interceptor;
- the 16-character base62 id pipe;
- the validation-message formatter;
- the application logger (level filter, metadata, stack and timestamp
  formatting, and which stream each level writes to);
- the lifecycle handler (registration, run-once startup and shutdown,
  stop in reverse order, health);
- the in-memory items service.

Each gate is a function from the request's header list (its
`Object.entries` order) and configuration to an `Outcome`:

- `Continue` means `next()`;
- `Fail(error)` means a thrown application error;
- `Finished` means the gate answered the request itself;
- `Crash` means the JavaScript would throw a `TypeError`.

Gates that change the request or response are methods on `Request` and
`Response` objects. Where the source runs a loop, the model runs the same
loop and is proved equal to a reference function; that function's
properties are proved as lemmas. Stores that the source mutates are
classes: the body-size gate, the rate limiter, the lifecycle handler, the
logger's streams and the items store. The clock, the environment, the key
generator and the thrown value are inputs.

Modules, one per file: `Wrappers`, `Text` (the JavaScript string
built-ins used), `Collections` (`new Set`, `sort`), `Http`, `HttpErrors`,
`ValidationFormat`, `HeaderSanitization`, `HeaderLimit`, `ContentType`,
`BodyLimit`, `MethodWhitelist`, `RateLimit`, `Cors`, `SecurityHeaders`,
`AccessLog`, `ExceptionFilters`, `NanoidPipe`, `AppLogger`, `Lifecycle`,
`ItemsService`.

Two behaviours of the code worth knowing:

- Every refusal of the content-type gate is a 415 (UnsupportedMediaType):
  a body on a body-less method (src/common/middleware/content-type.middleware.ts:50-55)
  and a missing Content-Type on POST, PUT or PATCH
  (src/common/middleware/content-type.middleware.ts:64-66) alike.
- The structured exception filter passes a runtime error's own message to
  the client, although its own doc comment
  (src/errors/global-exception.filter.ts:32-35) promises the generic one.
  The model follows the code and states the documented behaviour beside
  it; see Findings.

## Model

| member | source | states |
|---|---|---|
| Text.Lower | src/common/middleware/header-sanitization.middleware.ts:60 | lower-casing keeps the length and maps each character |
| Text.Upper | src/common/middleware/method-whitelist.middleware.ts:19 | upper-casing keeps the length and maps each character |
| Text.LowerIdempotent | src/common/middleware/content-type.middleware.ts:38 | lower-casing twice is lower-casing once |
| Text.LowerOfLowercase | src/common/middleware/content-type.middleware.ts:31 | a string without capitals is its own lower-case form |
| Text.UpperOfLower | src/common/middleware/method-whitelist.middleware.ts:19 | upper-casing forgets an earlier lower-casing |
| Text.UpperIdempotent | src/common/middleware/method-whitelist.middleware.ts:15 | upper-casing twice is upper-casing once |
| Text.TrimStart | src/common/middleware/content-type.middleware.ts:68 | drops exactly the leading white space |
| Text.TrimEnd | src/common/middleware/content-type.middleware.ts:68 | drops exactly the trailing white space |
| Text.Trim | src/common/middleware/content-type.middleware.ts:68 | the result is a slice of the input with white space only outside it and none at either of its ends |
| Text.IndexOf | src/logger/services/logger.service.ts:149 | the first index of the character, or the length when it does not occur |
| Text.Split | src/common/middleware/content-type.middleware.ts:68 | splitting gives at least one piece and no piece holds the separator |
| Text.JoinSplit | src/logger/services/logger.service.ts:150-152 | joining the pieces with the separator gives the input back |
| Text.SplitHead | src/common/middleware/content-type.middleware.ts:68 | the first piece is the text before the first separator |
| Text.SplitRestJoin | src/logger/services/logger.service.ts:152 | the later pieces, rejoined, are the text after the first separator |
| Text.PadEnd | src/common/middleware/logger.middleware.ts:23-25 | `padEnd`: the input followed by fill characters up to the width, never shorter than the input |
| Text.PadStart | src/logger/services/logger.service.ts:85-88 | `padStart`: fill characters then the input, up to the width |
| Text.SliceTo | src/common/middleware/logger.middleware.ts:9 | `slice(0, end)`, with a negative end counted from the end |
| Text.NatToString | src/common/middleware/logger.middleware.ts:24 | `String(n)`: a non-empty run of digits without a leading zero |
| Text.NatToStringValue | src/logger/services/logger.service.ts:85 | the numeral reads back as the number |
| Text.NatToStringInjective | src/common/middleware/request-size-limit.middleware.ts:44 | distinct numbers render as distinct numerals |
| Text.FractionDigits | src/common/middleware/rate-limit.middleware.ts:34-37 | the shortest fraction of f thousandths (0 < f < 1000): one to three digits, the last not '0', reading back as f once scaled by the weight of the last digit |
| Text.ThousandthsToString | src/common/middleware/rate-limit.middleware.ts:34-37 | `String(ms / 1000)`: a whole number of seconds is its numeral without a fraction; otherwise that numeral of the whole seconds, a '.', and one to three digits without a trailing '0' that give the remaining thousandths |
| Text.Utf8Width | src/common/middleware/header-limit.middleware.ts:48 | one to four bytes per character |
| Text.Utf8Length | src/common/middleware/header-limit.middleware.ts:48-52 | `Buffer.byteLength`: between one and four bytes per character |
| Text.Utf8LengthAppend | src/common/middleware/header-limit.middleware.ts:53 | byte lengths add up over concatenation |
| Text.Utf16Length | src/common/pipes/nanoid.pipe.ts:17 | `length`: between one and two code units per character |
| Text.Utf16LengthOfBasicPlane | src/common/pipes/nanoid.pipe.ts:17-19 | basic-plane text has one code unit per character |
| HeaderSanitization.EntryError | src/common/middleware/header-sanitization.middleware.ts:62-94 | one header is refused (always with 400) exactly when its lower-cased name is block-listed, already seen, or not `[A-Za-z0-9-]+`, or a value string holds CR or LF |
| HeaderSanitization.Sanitize | src/common/middleware/header-sanitization.middleware.ts:59-104 | the reference sanitiser: every refusal is a 400, and on success it keeps at most one header per input entry, each with an allow-listed name |
| HeaderSanitization.SanitizeSnoc | src/common/middleware/header-sanitization.middleware.ts:59-100 | the sanitizer's result on one more header is one more loop step on the result so far, with the names seen so far |
| HeaderSanitization.LowerNamesSnoc | src/common/middleware/header-sanitization.middleware.ts:60-74 | the `seen` set grows by the lower-cased name of each header visited |
| HeaderSanitization.SanitizeErrPersists | src/common/middleware/header-sanitization.middleware.ts:63-94 | once a prefix of the headers is refused, the later headers change nothing: the first violation is what is thrown |
| HeaderSanitization.SanitizeAcceptsIff | src/common/middleware/header-sanitization.middleware.ts:59-104 | the request passes exactly when no header is block-listed, badly named, repeated after lower-casing, or carries CR/LF |
| HeaderSanitization.AllowedAppend | src/common/middleware/header-sanitization.middleware.ts:96-99 | the reference filter of kept headers distributes over concatenation |
| HeaderSanitization.AllowedMembers | src/common/middleware/header-sanitization.middleware.ts:96-99 | the reference filter holds a (name, value) pair exactly when some input header, lower-cased, is that allow-listed name, with its value (`?? ''`) |
| HeaderSanitization.AllowedDistinct | src/common/middleware/header-sanitization.middleware.ts:68-98 | with distinct lower-cased input names, the kept names are distinct |
| HeaderSanitization.SanitizeIsAllowed | src/common/middleware/header-sanitization.middleware.ts:96-102 | on success the new header object is the reference filter of the input |
| HeaderSanitization.SanitizeKeepsAllowlisted | src/common/middleware/header-sanitization.middleware.ts:96-102 | on success the new headers are exactly the allow-listed input headers under distinct lower-cased names with unchanged values; everything else is dropped |
| HeaderSanitization.StepErr | src/common/middleware/header-sanitization.middleware.ts:63-94 | a loop step on a refused header yields that header's error |
| HeaderSanitization.SanitizeReportsFirstViolation | src/common/middleware/header-sanitization.middleware.ts:59-94 | after an accepted prefix, the first refused header decides the error, whatever follows |
| HeaderSanitization.BlockedHeaderRejected | src/common/middleware/header-sanitization.middleware.ts:63-65 | a block-listed name, in any case, gives 400 "Header '<name>' is not allowed." |
| HeaderSanitization.DuplicateHeaderRejected | src/common/middleware/header-sanitization.middleware.ts:67-72 | a name seen earlier after lower-casing gives 400 "Duplicate header '<name>' is not permitted." |
| HeaderSanitization.SanitizeIgnoresNameCase | src/common/middleware/header-sanitization.middleware.ts:60 | renaming headers to other cases of the same names changes neither verdict nor result |
| HeaderSanitization.Clean | src/common/middleware/header-sanitization.middleware.ts:56-100 | the loop with its `seen` set and `cleaned` record computes exactly the sanitizer function |
| HeaderSanitization.SanitizeRequest | src/common/middleware/header-sanitization.middleware.ts:50-105 | on a violation the request headers are untouched and the error is raised; on success the headers are replaced by the cleaned ones and `next()` is called |
| HeaderLimit.EntryPairs | src/common/middleware/header-limit.middleware.ts:49-53 | one entry contributes one (name, value) pair per element of its value list, in order |
| HeaderLimit.LimitCheck | src/common/middleware/header-limit.middleware.ts:33-83 | the reference limiter continues or refuses; a refusal is a 431, or a 501 only when chunked bodies are not allowed; too many entries is always a 431 |
| HeaderLimit.PairsAppend | src/common/middleware/header-limit.middleware.ts:47-63 | the pairs of two header lists are the pairs of each, concatenated |
| HeaderLimit.TotalBytesAppend | src/common/middleware/header-limit.middleware.ts:44-55 | the byte total is additive over concatenation |
| HeaderLimit.PairsSnoc | src/common/middleware/header-limit.middleware.ts:47-49 | one more entry adds exactly its own pairs at the end |
| HeaderLimit.EntryPairsSnoc | src/common/middleware/header-limit.middleware.ts:51-55 | one more value adds one pair and its size to the running total |
| HeaderLimit.AllWithinAppend | src/common/middleware/header-limit.middleware.ts:57 | every pair of a concatenation is within the limit exactly when every pair of each part is |
| HeaderLimit.EntryWithinAt | src/common/middleware/header-limit.middleware.ts:47-62 | when all pairs pass the per-header limit, so do the pairs of each entry |
| HeaderLimit.ScanEntry | src/common/middleware/header-limit.middleware.ts:48-62 | the inner loop reports an oversize pair exactly when some pair of the entry exceeds the per-header limit, and otherwise returns the entry's byte total |
| HeaderLimit.ScanPairs | src/common/middleware/header-limit.middleware.ts:44-63 | the outer loop reports an oversize pair exactly when one exists and otherwise accumulates the total of all pair sizes |
| HeaderLimit.Check | src/common/middleware/header-limit.middleware.ts:33-83 | the limiter's verdict is the reference check: count, then each pair, then the total, then chunked encoding, with the error texts of the source; headers are not modified |
| HeaderLimit.CountCheckedFirst | src/common/middleware/header-limit.middleware.ts:38-42 | more entries than the count limit gives 431 "Too many headers (limit = N)." whatever the sizes |
| HeaderLimit.PairCheckedBeforeTotal | src/common/middleware/header-limit.middleware.ts:57-69 | an oversize pair is reported as the per-header error even when the total is over too |
| HeaderLimit.DefaultsRejectChunked | src/common/middleware/header-limit.middleware.ts:72-80 | under the default limits (100, 4096, 8192, no chunked) a string transfer-encoding containing "chunked" in any case is refused with 501 |
| HeaderLimit.LimitsAreInclusive | src/common/middleware/header-limit.middleware.ts:38-65 | a request exactly at each limit passes: all three comparisons are strict |
| HeaderLimit.ArrayTransferEncodingNotChecked | src/common/middleware/header-limit.middleware.ts:74 | an array-valued transfer-encoding is never refused as chunked |
| HeaderLimit.AllWithinTail | src/common/middleware/header-limit.middleware.ts:57 | a list of pairs within the limit has its first pair and the rest within it |
| HeaderLimit.TotalWithinPairBound | src/common/middleware/header-limit.middleware.ts:55-69 | when every pair fits the per-header limit the total is at most the pair count times that limit |
| ContentType.Configure | src/common/middleware/content-type.middleware.ts:25-33 | without options there are no overrides and the default set is {application/json}; the configured default list becomes a set with the same members |
| ContentType.LowerAll | src/common/middleware/content-type.middleware.ts:38-42 | every listed media type is lower-cased, position by position |
| ContentType.GetAllowedFor | src/common/middleware/content-type.middleware.ts:35-43 | the resolved allowed list is a set (no repeats) |
| ContentType.AllowedFor | src/common/middleware/content-type.middleware.ts:35-43 | the override loop returns the lower-cased set of the first override whose prefix starts the path, else the lower-cased default set |
| ContentType.AllowedForOverride | src/common/middleware/content-type.middleware.ts:36-39 | when override i is the first whose prefix matches, the allowed set is exactly its list lower-cased |
| ContentType.AllowedForDefault | src/common/middleware/content-type.middleware.ts:42 | with no matching prefix, the allowed set is exactly the default list lower-cased |
| ContentType.DefaultIsLowercaseSet | src/common/middleware/content-type.middleware.ts:31 | the built-in default list is already a lower-case set |
| ContentType.DefaultAllowsOnlyJson | src/common/middleware/content-type.middleware.ts:29-42 | unconfigured, every path allows exactly application/json |
| ContentType.MediaTypeIgnoresParameters | src/common/middleware/content-type.middleware.ts:68 | text after the first ';' never affects the media type |
| ContentType.MediaType | src/common/middleware/content-type.middleware.ts:68 | the normalised media type holds no ';' and no capital letter |
| ContentType.Gate | src/common/middleware/content-type.middleware.ts:45-79 | the gate never ends the response itself and every refusal is a 415 |
| ContentType.BodyGate | src/common/middleware/content-type.middleware.ts:62-75 | a POST, PUT or PATCH continues exactly when its content-type is a single non-empty string whose media type is in the allowed set; every refusal is a 415 |
| ContentType.BodylessMethodRejectsContentType | src/common/middleware/content-type.middleware.ts:50-55 | GET, DELETE, HEAD and OPTIONS in any case, with any content-type header, even empty, give 415 "HTTP method 'M' does not accept a request body." |
| ContentType.BodylessMethodWithoutContentTypePasses | src/common/middleware/content-type.middleware.ts:50-57 | those methods without a content-type continue |
| ContentType.BodyMethodNeedsContentType | src/common/middleware/content-type.middleware.ts:61-66 | POST, PUT and PATCH with a missing or empty content-type give 415 "Missing Content-Type header." |
| ContentType.BodyMethodAdmittedIff | src/common/middleware/content-type.middleware.ts:61-75 | with a non-empty content-type they continue exactly when the media type is in the resolved set, and otherwise the message quotes the header and lists the set sorted |
| ContentType.OtherMethodsPass | src/common/middleware/content-type.middleware.ts:61-78 | any other method continues unchecked |
| ContentType.MethodCaseIgnored | src/common/middleware/content-type.middleware.ts:46 | the method is compared after upper-casing |
| Collections.Dedup | src/common/middleware/content-type.middleware.ts:30-42 | `new Set(list)` read back as a list: no repeats, the same members, never longer, and members ordered by their first occurrence in the input |
| Collections.DedupOfDistinct | src/common/middleware/content-type.middleware.ts:30-32 | a list without repeats is its own set |
| Collections.DedupIdempotent | src/common/middleware/content-type.middleware.ts:42 | building a set of a set changes nothing |
| Collections.StringLeTotal | src/common/middleware/content-type.middleware.ts:71 | the string order `sort()` uses is total |
| Collections.Insert | src/common/middleware/content-type.middleware.ts:71 | one insertion step keeps the multiset of elements plus the inserted one |
| Collections.Sort | src/common/middleware/content-type.middleware.ts:71 | the sorted list is a permutation of the input |
| Collections.InsertSorted | src/common/middleware/content-type.middleware.ts:71 | inserting into a sorted list keeps it sorted |
| Collections.SortIsSorted | src/common/middleware/content-type.middleware.ts:71 | `Array.from(allowed).sort()` is in ascending order |
| Collections.SortSameMembers | src/common/middleware/content-type.middleware.ts:71 | sorting keeps exactly the members of the input |
| Http.ValueList | src/common/middleware/header-sanitization.middleware.ts:83-85 | a non-array value is inspected as exactly one string (`value ?? ''`) |
| Http.Lookup | src/common/middleware/content-type.middleware.ts:47 | `headers[name]` is the value of an entry with exactly that name, and undefined when there is none |
| Http.Names | src/common/middleware/header-limit.middleware.ts:35 | the names of the header entries, position by position |
| Http.Request.Pause | src/common/middleware/request-size-limit.middleware.ts:42 | `req.pause()` marks the request paused and leaves its headers alone |
| Http.Response.SetHeader | src/common/middleware/request-size-limit.middleware.ts:44-45 | `res.setHeader(name, value)` maps that name to the value, keeps every other header, and changes neither status nor sent state |
| Http.Response.RemoveHeader | src/common/middleware/security-headers.middleware.ts:10 | `res.removeHeader(name)` drops that name only and changes neither status nor sent state |
| Http.Response.SendStatus | src/common/middleware/cors.middleware.ts:69 | `res.status(code).send()` sets the status, ends the response and marks the headers sent, headers unchanged |
| Http.FirstMatch | src/common/middleware/content-type.middleware.ts:36-40 | first-match-wins prefix lookup: nothing exactly when no prefix starts the path, else the value of the first override that does |
| Http.FirstMatchAt | src/common/middleware/content-type.middleware.ts:36-40 | the lookup yields the value of the first matching override |
| Http.FirstMatchIgnoresLater | src/common/middleware/request-size-limit.middleware.ts:15-17 | overrides after a match cannot change the outcome |
| HttpErrors.Status | src/common/exceptions/http.exception.ts:6-88 | each class passes its fixed status to the base constructor: all are 4xx except the 501 transfer-encoding error, and 422 is exactly the two validation classes |
| HttpErrors.Raise | src/common/exceptions/http.exception.ts:7-88 | a raised error has its class's status and the supplied message, or the class's default message |
| HttpErrors.RaiseValidation | src/common/exceptions/http.exception.ts:55-61 | the validation error is a 422 whose message is the formatted issues |
| HttpErrors.StatusDistinguishesClasses | src/common/exceptions/http.exception.ts:6-88 | the status identifies the class, except that the two 422 classes share it |
| HttpErrors.AsThrown | src/common/exceptions/http.exception.ts:7-10 | an application error reaches a filter as an HttpException with its status and message |
| HttpErrors.ValidationException | src/common/exceptions/validation.exception.ts:26-38 | the exception carries the formatted issues and a status defaulting to 500 |
| ValidationFormat.Labelled | src/helpers/validation.helper.ts:7-13 | one "<property> → <message>" per constraint of the node, in order |
| ValidationFormat.FormatIssues | src/helpers/validation.helper.ts:22 | the message is "Validation failed: ", then every walked message joined with "; ", then "." |
| ValidationFormat.WalkIsPreOrder | src/helpers/validation.helper.ts:6-18 | a node's own messages precede its children's, which precede its later siblings' |
| ValidationFormat.MessagesAppend | src/helpers/validation.helper.ts:20 | top-level errors are walked in input order |
| ValidationFormat.MessagesOfForest | src/helpers/validation.helper.ts:20 | the forest's messages are the walks of its top-level errors, concatenated |
| ValidationFormat.MessageCount | src/common/exceptions/validation.exception.ts:7-19 | exactly one message per constraint anywhere in the forest |
| ValidationFormat.ChildrenOfSilentNode | src/common/exceptions/validation.exception.ts:8-18 | a node without constraints adds nothing itself but its children are still walked |
| ValidationFormat.MessagesAreLabelled | src/common/exceptions/validation.exception.ts:9-13 | every message has the "<property> → <message>" shape |
| BodyLimit.SelectLimit | src/common/middleware/request-size-limit.middleware.ts:11-19 | the loop returns the limit of the first override whose prefix starts the path, else the default |
| BodyLimit.TotalLengthSnoc | src/common/middleware/request-size-limit.middleware.ts:36 | each chunk adds its own length to the running total |
| BodyLimit.TotalLengthPrefix | src/common/middleware/request-size-limit.middleware.ts:36-38 | a prefix of the stream never holds more bytes than the whole |
| BodyLimit.MaxZero | src/common/middleware/request-size-limit.middleware.ts:63 | `Math.max(x, 0)` is x, or 0 when x is negative |
| BodyLimit.BodyLimit.constructor | src/common/middleware/request-size-limit.middleware.ts:26-30 | a fresh gate has the selected limit, a zero total, no chunks and the limit not exceeded |
| BodyLimit.BodyLimit.OnData | src/common/middleware/request-size-limit.middleware.ts:33-57 | after the limit is exceeded or once headers are sent a chunk changes nothing; otherwise it is counted; the chunk that takes the total over the limit pauses the request, sets the limit and "0" headers and yields 413 "Request body exceeds limit of N bytes." without being buffered; a chunk within the limit is buffered |
| BodyLimit.BodyLimit.OnEnd | src/common/middleware/request-size-limit.middleware.ts:60-67 | at the end of a body within the limit, the limit and the remaining allowance are set as headers; otherwise nothing changes |
| BodyLimit.Install | src/common/middleware/request-size-limit.middleware.ts:21-30 | the gate starts empty with the path's limit and the chain continues at once |
| BodyLimit.Deliver | src/common/middleware/request-size-limit.middleware.ts:21-70 | over a whole body: no error exactly when the body fits; then every chunk is buffered and the remaining-bytes header is limit minus total; otherwise exactly one 413 is raised, the chunks before the crossing one are buffered and the remaining header is "0" |
| MethodWhitelist.UpperAll | src/common/middleware/method-whitelist.middleware.ts:15 | every configured method is upper-cased, position by position |
| MethodWhitelist.Configure | src/common/middleware/method-whitelist.middleware.ts:13-16 | the allowed set holds exactly the configured methods upper-cased, without repeats |
| MethodWhitelist.Check | src/common/middleware/method-whitelist.middleware.ts:18-33 | the gate either continues or refuses with 405 |
| MethodWhitelist.AdmittedIff | src/common/middleware/method-whitelist.middleware.ts:10-26 | a method is admitted exactly when, upper-cased, it equals a configured method upper-cased, or is HEAD or OPTIONS |
| MethodWhitelist.AlwaysAllowedPass | src/common/middleware/method-whitelist.middleware.ts:9-26 | HEAD and OPTIONS pass under any configuration, even an empty one |
| MethodWhitelist.EmptyWhitelistRefuses | src/common/middleware/method-whitelist.middleware.ts:22-29 | with nothing configured every other method is refused and the message ends "Allowed methods: null." |
| MethodWhitelist.CaseInsensitive | src/common/middleware/method-whitelist.middleware.ts:19 | the letter case of the request method never matters |
| MethodWhitelist.ConfigCaseInsensitive | src/common/middleware/method-whitelist.middleware.ts:15 | the letter case of the configured methods never matters |
| RateLimit.Prune | src/common/middleware/rate-limit.middleware.ts:23-27 | pruning keeps exactly the stored times strictly after the window start, never adding any |
| RateLimit.PruneAppend | src/common/middleware/rate-limit.middleware.ts:27 | the filter keeps the stored order |
| RateLimit.PruneKeepsRecent | src/common/middleware/rate-limit.middleware.ts:27 | times all inside the window survive unchanged |
| RateLimit.WindowEdgeIsPruned | src/common/middleware/rate-limit.middleware.ts:23-27 | a time exactly one window old is dropped |
| RateLimit.Record | src/common/middleware/rate-limit.middleware.ts:24-30 | after a call the key holds its recent times followed by now, and every other key is untouched |
| RateLimit.RateLimiter.constructor | src/common/middleware/rate-limit.middleware.ts:11-12 | the limiter starts with an empty store |
| RateLimit.RateLimiter.Hit | src/common/middleware/rate-limit.middleware.ts:14-42 | the key is the generator's result, else the address, else "unknown"; the store is always updated, refused calls included; more than max recent times sets Retry-After to windowMs/1000 and yields 429 "Too many requests — limit is N per Ss."; otherwise the chain continues with the response untouched |
| RateLimit.Decisions | src/common/middleware/rate-limit.middleware.ts:14-42 | a run of calls on one key gives one decision per call |
| RateLimit.DecisionsWithinWindow | src/common/middleware/rate-limit.middleware.ts:27-33 | inside one window, with n times already stored, call i is admitted exactly when n + i + 1 <= max |
| RateLimit.FirstMaxAdmitted | src/common/middleware/rate-limit.middleware.ts:12-33 | for a new key and a run of calls inside one window, exactly the first max calls are admitted |
| Cors.IsAllowedOrigin | src/common/middleware/cors.middleware.ts:15-29 | a missing or empty origin is always allowed, and so is any origin under a wildcard policy |
| Cors.AllowedOriginWithoutWildcard | src/common/middleware/cors.middleware.ts:24-28 | without a wildcard, an array policy is membership and a string policy is equality |
| Cors.RefusedOriginIsUnlisted | src/common/middleware/cors.middleware.ts:15-29 | an origin is refused only when it is present, non-empty and matched by no rule of the policy |
| Cors.AllowOriginEchoesOrigin | src/common/middleware/cors.middleware.ts:40-41 | a present origin is echoed back, even under a wildcard policy |
| Cors.AllowOriginWithoutOrigin | src/common/middleware/cors.middleware.ts:42-47 | without an origin, "*" is sent only under a wildcard policy; otherwise that header is left as it was |
| Cors.ListsAlwaysSent | src/common/middleware/cors.middleware.ts:49-57 | the methods, allowed headers and exposed headers are always sent, joined with ", " |
| Cors.OptionalHeaders | src/common/middleware/cors.middleware.ts:59-65 | Max-Age is added exactly when maxAge is defined, and Allow-Credentials "true" exactly when credentials is true |
| Cors.OtherHeadersKept | src/common/middleware/cors.middleware.ts:39-65 | no response header outside the six CORS names is touched |
| Cors.Handle | src/common/middleware/cors.middleware.ts:31-74 | a refused origin gives 403 "CORS origin '<o>' not allowed." before any header is set; otherwise the CORS headers are set, and a method of exactly OPTIONS is answered 204 and ends the response while any other continues |
| SecurityHeaders.BundleIsSet | src/common/middleware/security-headers.middleware.ts:17-50 | every header of the bundle carries its listed value, whatever was there before |
| SecurityHeaders.OthersUntouched | src/common/middleware/secuirty-headers.middleware.ts:8-40 | no response header outside the bundle is touched |
| SecurityHeaders.SecurityHeadersFn | src/common/middleware/security-headers.middleware.ts:4-53 | X-Powered-By is always removed; documentation paths get nothing else; every other path gets the bundle; the chain continues |
| SecurityHeaders.SecurityHeadersUse | src/common/middleware/secuirty-headers.middleware.ts:6-43 | the bundle is set on every response and the chain continues |
| SecurityHeaders.SetBundle | src/common/middleware/security-headers.middleware.ts:18-50 | the ten setHeader calls produce the bundle over the existing headers |
| SecurityHeaders.VariantsDifferOnlyInPoweredBy | src/common/middleware/security-headers.middleware.ts:10-15 | off the documentation paths the two injectors agree on every header except X-Powered-By |
| SecurityHeaders.ClassVariantKeepsPoweredBy | src/common/middleware/secuirty-headers.middleware.ts:6-43 | the class-style injector leaves an existing X-Powered-By in place |
| AccessLog.ShortenPath | src/common/middleware/logger.middleware.ts:8-10 | a path within the limit is kept; a longer one keeps its first max - 1 characters followed by "…", exactly max long |
| AccessLog.ShortenedFits | src/common/interceptors/http.interceptor.ts:25-27 | a shortened path never exceeds the limit |
| AccessLog.ShortenIdempotent | src/common/interceptors/http.interceptor.ts:25-27 | shortening twice with the same limit changes nothing more |
| AccessLog.MiddlewareLevel | src/common/middleware/logger.middleware.ts:20-21 | error exactly from 500, warn exactly from 400 to 499, info exactly below 400 |
| AccessLog.InterceptorLevel | src/common/interceptors/http.interceptor.ts:33-34 | error exactly from 500, warn exactly from 400 to 499, debug exactly below 400 |
| AccessLog.LevelsDifferOnlyBelow400 | src/common/interceptors/http.interceptor.ts:33-34 | the two loggers pick the same level exactly for statuses of 400 and above; below it the middleware says info and the interceptor debug |
| AccessLog.LineColumns | src/common/middleware/logger.middleware.ts:23-27 | for a three-digit status and a method of at most seven characters the line has fixed columns: status, method padded to 7, path padded to 32, then the duration and "ms" |
| AccessLog.ThreeDigitStatus | src/common/interceptors/http.interceptor.ts:37 | a status from 100 to 999 renders as exactly three characters |
| ExceptionFilters.CommonCatch | src/common/filters/global-exception.filter.ts:16-32 | an HttpException is answered with its own status and message and is not logged; anything else is a 500 with "Internal server error", and an Error is logged with that generic message |
| ExceptionFilters.CommonHidesRuntimeErrors | src/common/filters/global-exception.filter.ts:20-31 | the response to an error that is not an HttpException does not depend on the error |
| ExceptionFilters.NotFoundCatch | src/common/filters/not-found.filter.ts:16-26 | always 404; the message is "Route not found — No route matches " followed by the method, a space, the original URL and ".", and is exactly what is logged |
| ExceptionFilters.NotFoundMessageNamesRoute | src/common/filters/not-found.filter.ts:22 | for methods without spaces, equal messages mean the same method and the same original URL |
| ExceptionFilters.FirstSpaceEndsWord | src/common/filters/not-found.filter.ts:22 | in "<method> <url>." the first space ends the method |
| ExceptionFilters.StructuredCatch | src/errors/global-exception.filter.ts:91-128 | as written: status from an HttpException, else 500; the message is the exception's own message, or the text of a non-Error value; the same message is logged with the stack and the status; the body carries the status, the time, request.url and the message |
| ExceptionFilters.StructuredExposesRuntimeMessage | src/errors/global-exception.filter.ts:103-104 | a runtime error's own text, such as a database connection failure, reaches the client |
| ExceptionFilters.StructuredCatchAsDocumented | src/errors/global-exception.filter.ts:28-35 | as documented: HttpExceptions keep status and message; anything else is a 500 with the generic message, and the log call is the one the code makes |
| ExceptionFilters.DocumentedHidesRuntimeErrors | src/errors/global-exception.filter.ts:32-35 | under the documented behaviour the response does not depend on which runtime error was thrown |
| ExceptionFilters.DocumentedAgreesWithCommon | src/core/filters/global-exception.filter.ts:21-31 | the documented structured filter answers every thrown value with the same status and message as the plain global filter |
| ExceptionFilters.FiltersAgreeOnHttpExceptions | src/core/filters/global-exception.filter.ts:24-26 | for an HttpException the plain and structured filters answer with its status and message |
| ExceptionFilters.AppErrorAnswered | src/core/filters/global-exception.filter.ts:24-47 | an application error raised by a gate is answered with its class's status and its message |
| NanoidPipe.Validate | src/common/pipes/nanoid.pipe.ts:10-32 | every refusal is a 422, and an accepted parameter is a string passed on unchanged |
| NanoidPipe.Transform | src/common/pipes/nanoid.pipe.ts:10-32 | the type check, the length check and the character loop decide exactly what the rule-by-rule validation decides |
| NanoidPipe.AcceptedIff | src/common/pipes/nanoid.pipe.ts:4-29 | a parameter is accepted exactly when it is a string of 16 UTF-16 code units all of whose characters are in the 62-character alphabet |
| NanoidPipe.RejectionReasons | src/common/pipes/nanoid.pipe.ts:11-28 | a refusal names the first rule broken, type, then length (with the received length), then alphabet, with the source's messages |
| NanoidPipe.SixteenAlphabetCharsAccepted | src/common/pipes/nanoid.pipe.ts:17-31 | sixteen basic-plane alphabet characters are accepted |
| NanoidPipe.Idempotent | src/common/pipes/nanoid.pipe.ts:31 | an accepted id passes the pipe again unchanged |
| Lifecycle.Reverse | src/handlers/lifecycle.handler.ts:43-46 | the reversed list has the same length, element i being element n - 1 - i of the input |
| Lifecycle.ReverseAppend | src/handlers/lifecycle.handler.ts:45 | reversing a concatenation reverses and swaps the parts |
| Lifecycle.Names | src/handlers/lifecycle.handler.ts:101-135 | the names a run collects never outnumber the services |
| Lifecycle.NamesAppend | src/handlers/lifecycle.handler.ts:101-122 | the names collected over a concatenation are those of each part, in order |
| Lifecycle.NamesReverse | src/handlers/lifecycle.handler.ts:122 | the names collected over the reversed registry are the reversed names |
| Lifecycle.FirstThrow | src/handlers/lifecycle.handler.ts:101-106 | the index of the first service whose hook throws, every earlier one not throwing |
| Lifecycle.LifecycleHandler.constructor | src/handlers/lifecycle.handler.ts:11-17 | both lists empty and all three flags false |
| Lifecycle.LifecycleHandler.IsAlive | src/handlers/lifecycle.handler.ts:19-21 | alive exactly until shutdown has started |
| Lifecycle.LifecycleHandler.IsReady | src/handlers/lifecycle.handler.ts:23-25 | ready exactly when startup has completed and shutdown has not started |
| Lifecycle.LifecycleHandler.Register | src/handlers/lifecycle.handler.ts:39-46 | the new services are appended to the start list and, reversed, put in front of the stop list; nothing else changes |
| Lifecycle.LifecycleHandler.Startup | src/handlers/lifecycle.handler.ts:94-112 | a second call changes nothing; the first calls the start hooks in registration order up to the first that throws, completing startup exactly when none throws, and reports that rejection |
| Lifecycle.LifecycleHandler.Shutdown | src/handlers/lifecycle.handler.ts:114-135 | a second call changes nothing; the first marks shutdown as started and calls every stop hook in stop order, recording the ones that throw and going on; afterwards the process is neither alive nor ready |
| Lifecycle.LifecycleHandler.AreAllServicesHealthy | src/handlers/lifecycle.handler.ts:27-37 | healthy exactly when no service has a check reporting false |
| Lifecycle.StopOrderIsReverse | src/handlers/lifecycle.handler.ts:43-46 | the stop hooks are called in the reverse of registration order |
| Lifecycle.LaterRegistrationsStopFirst | src/handlers/lifecycle.handler.ts:39-46 | across two register calls the later services are stopped first |
| Lifecycle.StartupWithoutThrowsCompletes | src/handlers/lifecycle.handler.ts:101-108 | with no throwing start hook every start hook is called and startup completes |
| Lifecycle.ReadyImpliesAlive | src/handlers/lifecycle.handler.ts:19-25 | readiness implies liveness |
| AppLogger.Position | src/logger/services/logger.service.ts:64-75 | `indexOf`: -1 exactly when absent, otherwise the first position holding the value |
| AppLogger.Rank | src/logger/services/logger.service.ts:47-53 | each level's rank is its place in the order error, warn, log, debug, verbose |
| AppLogger.RankIsPosition | src/logger/services/logger.service.ts:75 | looking a level up in the level order finds its rank |
| AppLogger.ShouldLogIffAsSevere | src/logger/services/logger.service.ts:62-76 | with LOG_LEVEL set to a level, exactly the levels at least as severe are written |
| AppLogger.DefaultLevelIsLog | src/modules/system/logger/services/logger.service.ts:21-24 | without LOG_LEVEL, error, warn and log are written, debug and verbose are not |
| AppLogger.UnknownLevelSilencesAll | src/modules/system/logger/services/logger.service.ts:21-28 | a LOG_LEVEL outside the five names silences every level, errors included |
| AppLogger.FormatMeta | src/logger/services/logger.service.ts:119-129 | metadata formats as nothing exactly when it is absent, an empty string or an empty object; a context string formats as " { context: <name> }"; key/value pairs format as " { " + the "key: value" texts joined with ", " + " }" |
| AppLogger.FormatMetaBraces | src/logger/services/logger.service.ts:121-128 | non-empty metadata is always wrapped as " { … }" |
| AppLogger.FormatMetaSinglePair | src/modules/system/logger/services/logger.service.ts:59-63 | one key/value pair formats as " { key: value }" |
| AppLogger.FormatStack | src/logger/services/logger.service.ts:140-141 | a missing or empty trace formats as nothing |
| AppLogger.HasCharIndexOf | src/logger/services/logger.service.ts:149 | a string contains a character exactly when its first index is inside the string |
| AppLogger.ErrorNameByPosition | src/logger/services/logger.service.ts:147-155 | the error name is the trimmed text before the first ':' (the whole line without one), or "Error" when that is blank |
| AppLogger.ErrorMessageByPosition | src/logger/services/logger.service.ts:148-152 | the message is the trimmed text after the first ':', or empty without one |
| AppLogger.FormatStackByPosition | src/logger/services/logger.service.ts:140-164 | a non-empty trace formats as a newline, the header built from its first line, and the text after the first newline on its own line when it is not empty |
| AppLogger.RestOfLines | src/logger/services/logger.service.ts:143-161 | the lines after the first, rejoined with newlines, are the text after the first newline |
| AppLogger.CopiesDifferOnlyInArrow | src/modules/system/logger/services/logger.service.ts:82-84 | the two copies agree on a missing or empty trace and give different text for every other trace |
| AppLogger.DifferentSeparators | src/modules/system/logger/services/logger.service.ts:84 | headers that differ only in their separators differ |
| AppLogger.ZerosValue | src/logger/services/logger.service.ts:85-88 | a run of zeros reads as 0 |
| AppLogger.ZeroPaddedValue | src/logger/services/logger.service.ts:85-88 | leading zeros do not change a numeral's value |
| AppLogger.PaddedNumeral | src/logger/services/logger.service.ts:85-88 | a zero-padded numeral is all digits and reads back as the number |
| AppLogger.NumeralWidth | src/logger/services/logger.service.ts:85-88 | numbers below 10, 100 and 1000 have at most one, two and three digits |
| AppLogger.Field | src/logger/services/logger.service.ts:85-88 | hours, minutes and seconds pad to exactly two digits and milliseconds to three, each reading back as its value |
| AppLogger.Layout | src/logger/services/logger.service.ts:89 | where the four fields and the separators of "[h:m:s.ms]" land |
| AppLogger.TimestampLayout | src/modules/system/logger/services/logger.service.ts:30-37 | for a valid time of day the timestamp is 14 characters, separators at fixed positions, each field reading back as its value |
| AppLogger.FormatLayout | src/logger/services/logger.service.ts:174-181 | a line is the timestamp, a space, the level label, ": ", the message and the metadata, at fixed places |
| AppLogger.Logger.constructor | src/logger/services/logger.service.ts:62-65 | the level index is computed once from LOG_LEVEL, defaulting to "log"; both streams start empty |
| AppLogger.Logger.WriteOut | src/logger/services/logger.service.ts:193-233 | a standard-output level appends its newline-terminated line exactly when it should be logged, and never touches standard error |
| AppLogger.Logger.Log | src/logger/services/logger.service.ts:193-197 | a written log call prints with the label INFO on standard output |
| AppLogger.Logger.Warn | src/logger/services/logger.service.ts:205-209 | a written warn call prints with WARN on standard output |
| AppLogger.Logger.Debug | src/modules/system/logger/services/logger.service.ts:112-116 | a written debug call prints with DEBUG on standard output |
| AppLogger.Logger.Verbose | src/modules/system/logger/services/logger.service.ts:118-122 | a written verbose call prints with VERBOSE on standard output |
| AppLogger.Logger.Error | src/logger/services/logger.service.ts:242-248 | a written error call appends the line and the formatted stack to standard error, never to standard output |
| AppLogger.LinesEndInNewline | src/modules/system/logger/services/logger.service.ts:100-130 | every written line ends in a newline |
| ItemsService.FirstIndex | src/api/item/services/items.service.ts:20-22 | the index of the first item with that id, every earlier item having another id |
| ItemsService.Find | src/api/item/services/items.service.ts:20-22 | a found item is stored and has the id; nothing is found exactly when no item has it |
| ItemsService.FindByPosition | src/api/item/services/items.service.ts:11-31 | when ids are positions, id n is found at index n - 1 and ids outside 1..n are not found |
| ItemsService.Apply | src/api/item/services/items.service.ts:35 | `Object.assign`: each field present in the update replaces the stored one, the others and the id stay |
| ItemsService.ApplyIdempotent | src/api/item/services/items.service.ts:35 | applying the same update twice is applying it once |
| ItemsService.ApplyEmptyIsIdentity | src/api/item/services/items.service.ts:35 | an empty update changes nothing |
| ItemsService.PatchKeepsIds | src/api/item/services/items.service.ts:33-37 | updating an item in place keeps ids at their positions |
| ItemsService.AppendNextId | src/api/item/services/items.service.ts:24-31 | appending the item with id length + 1 keeps ids at their positions, and that id then finds it |
| ItemsService.SeedIdsArePositions | src/api/item/services/items.service.ts:11-14 | the two seeded items have ids 1 and 2 |
| ItemsService.Items.constructor | src/api/item/services/items.service.ts:11-14 | the store starts with the two seeded items |
| ItemsService.Items.FindAll | src/api/item/services/items.service.ts:16-18 | every stored item, in order |
| ItemsService.Items.FindOne | src/api/item/services/items.service.ts:20-22 | the first item with that id; found exactly when 1 <= id <= the number of items, and then it is the item at index id - 1 |
| ItemsService.Items.Create | src/api/item/services/items.service.ts:24-31 | the new item has id old length + 1 and the request's fields, is appended (the length grows by one) and returned, and can then be found by its id |
| ItemsService.Items.Update | src/api/item/services/items.service.ts:33-37 | an unknown id changes nothing and finds nothing; otherwise only the first item with that id is patched in place and returned, and the length is unchanged |

Definitions that carry no contract of their own, because every property
worth stating relates them to something else, and the rows that state those
properties:

- `BodyLimit.LimitFor` (src/common/middleware/request-size-limit.middleware.ts:11-19): `BodyLimit.SelectLimit`.
- `RateLimit.Key` (src/common/middleware/rate-limit.middleware.ts:21): `RateLimit.RateLimiter.Hit`.
- `Cors.CorsHeaders` (src/common/middleware/cors.middleware.ts:40-66): `Cors.AllowOriginEchoesOrigin`, `Cors.AllowOriginWithoutOrigin`, `Cors.ListsAlwaysSent`, `Cors.OptionalHeaders`, `Cors.OtherHeadersKept`.
- `SecurityHeaders.WithBundle` (src/common/middleware/security-headers.middleware.ts:17-50): `SecurityHeaders.BundleIsSet`, `SecurityHeaders.OthersUntouched`, `SecurityHeaders.SetBundle`.
- `ValidationFormat.Messages` and `ValidationFormat.Walk` (src/helpers/validation.helper.ts:6-18): `ValidationFormat.WalkIsPreOrder`, `ValidationFormat.MessagesAppend`, `ValidationFormat.MessagesOfForest`, `ValidationFormat.MessageCount`, `ValidationFormat.MessagesAreLabelled`.
- `AccessLog.Line`, `AccessLog.MiddlewareEntry` and `AccessLog.InterceptorEntry` (src/common/middleware/logger.middleware.ts:19-26 and src/common/interceptors/http.interceptor.ts:33-39): `AccessLog.LineColumns`, `AccessLog.MiddlewareLevel`, `AccessLog.InterceptorLevel`, `AccessLog.LevelsDifferOnlyBelow400`.
- `ExceptionFilters.NotFoundMessage` (src/common/filters/not-found.filter.ts:22): `ExceptionFilters.NotFoundCatch`, `ExceptionFilters.NotFoundMessageNamesRoute`.
- `AppLogger.ShouldLog` and `AppLogger.CurrentLevelIndex` (src/logger/services/logger.service.ts:62-76): `AppLogger.ShouldLogIffAsSevere`, `AppLogger.DefaultLevelIsLog`, `AppLogger.UnknownLevelSilencesAll`.
- `AppLogger.Timestamp` and `AppLogger.Format`: `AppLogger.TimestampLayout`, `AppLogger.FormatLayout`.
- `AppLogger.ErrorName`, `AppLogger.ErrorMessage` and `AppLogger.StackHeader` (src/logger/services/logger.service.ts:143-164): `AppLogger.ErrorNameByPosition`, `AppLogger.ErrorMessageByPosition`, `AppLogger.FormatStackByPosition`, `AppLogger.DifferentSeparators`.
- `HttpErrors.DefaultMessage` (src/common/exceptions/http.exception.ts:7-88): `HttpErrors.Raise`.
- `Text.Join` (`Array.prototype.join`, as at src/helpers/validation.helper.ts:22 and src/common/middleware/cors.middleware.ts:49-57): `Text.JoinSplit`, `Text.SplitRestJoin`, `ValidationFormat.FormatIssues`, `Cors.ListsAlwaysSent`, `AppLogger.FormatMeta`.
- `Text.StartsWith` (`startsWith`, as at src/common/middleware/content-type.middleware.ts:37 and src/common/middleware/security-headers.middleware.ts:14): `Http.FirstMatch`, `Http.FirstMatchAt`, `BodyLimit.SelectLimit`, `SecurityHeaders.SecurityHeadersFn`.
- `Text.Contains` (`includes` on a string, as at src/common/middleware/header-limit.middleware.ts:75): `HeaderLimit.DefaultsRejectChunked`.
- `Http.Request.FullPath` (`req.originalUrl ?? req.url`, src/common/middleware/security-headers.middleware.ts:12): `SecurityHeaders.SecurityHeadersFn`.
- `SecurityHeaders.Exempt` (src/common/middleware/security-headers.middleware.ts:14): `SecurityHeaders.SecurityHeadersFn`.
- `HeaderLimit.ChunkedRequested` (src/common/middleware/header-limit.middleware.ts:74-75): `HeaderLimit.LimitCheck`, `HeaderLimit.DefaultsRejectChunked`, `HeaderLimit.ArrayTransferEncodingNotChecked`.
- `HeaderSanitization.ValidName` and `HeaderSanitization.HasControlChars` (src/common/middleware/header-sanitization.middleware.ts:47-48, 77 and 89): `HeaderSanitization.EntryError`, `HeaderSanitization.SanitizeAcceptsIff`.
- `RateLimit.WindowSeconds` and `RateLimit.TooMany` (src/common/middleware/rate-limit.middleware.ts:33-37): `Text.ThousandthsToString`, `RateLimit.RateLimiter.Hit`.

## Left out

- I/O and time: the wall clock, `performance.now()` durations, `process.env`, `os.hostname()` and `process.pid` are inputs or left out. The access log takes the duration as already formatted text, the logger takes the time of day, and the filters take the timestamp.
- Colouring (chalk, colorette) is the identity. Writes to standard output and standard error are appends to a list of lines.
- The logger library behind `logger.info/warn/error/debug` in the middleware and the filters: the model returns the level and the line (or the logged message) instead of calling it.
- The event wiring of the body-size gate (`req.on('data')`, `req.on('end')`) and of the access log (`res.on('finish')`), and the interceptor's `next.handle()` stream: the handlers are methods called in event order.
- Process signals, `process.once`/`process.on` handlers and `process.exit` in the lifecycle handler. Its debug and warning log lines are left out too.
- Lifecycle.LifecycleHandler.AreAllServicesHealthy: a check that throws or rejects is not modelled; each check's result is part of the service description.
- Lifecycle.LifecycleHandler.Startup: the awaited start hooks are sequential calls, and a hook that rejects is reported by the `threw` result instead of a rejected promise.
- The routing done by `@Catch(...)` decorators: which filter receives which exception is not modelled. Each filter is applied to the value it is given.
- The structured filter's log metadata: only the status is modelled, not the context name, environment, process id or host name.
- Gate composition: the order in which the application module wires the gates (sanitiser before limiter) is not modelled.
- Text.Lower: `toLowerCase` and `toUpperCase` are modelled on ASCII letters only. Other scripts' case mappings are left out.
- Text.Utf8Length: strings are sequences of Unicode scalar values, so a lone UTF-16 surrogate, which `Buffer.byteLength` would count as a three-byte replacement, cannot occur.
- Text.NatToString: `String(n)` is modelled for natural numbers rendered in plain decimal, which JavaScript does for integers below 1e21; the exponent notation it uses from 1e21 up is not modelled.
- Collections.Sort: strings are ordered by code point, while JavaScript's `sort` compares UTF-16 code units. The two differ only between characters above U+FFFF and characters from U+E000 to U+FFFF.
- AccessLog.ShortenPath: the path length and the slice are counted in characters, not UTF-16 code units (they differ only for characters above U+FFFF).
- NanoidPipe.SixteenAlphabetCharsAccepted: it assumes basic-plane characters. There is no lemma that the 62-character literal equals the ranges 0-9, A-Z, a-z.
- ContentType.Gate: an array-valued `content-type` yields `Crash`, because the code's `contentType.split` is not a function on an array; the resulting TypeError is not modelled further.
- Cors.Handle: it requires the `origin` header not to be an array. The code reads it as a string, which is what the Node HTTP parser delivers for that header.
- Response header names are compared exactly, while Node's `setHeader`/`removeHeader` ignore case. Every call in the modelled code uses one spelling per header.
- RateLimit.RateLimiter.Hit: `windowMs` and `max` are natural numbers. `Retry-After` and the "per Ss." text are `String(windowMs / 1000)` as stated by `Text.ThousandthsToString`. The key generator's result is an input.
- CORS `maxAge` is a natural number rendered by `String`.
- ItemsService: prices are reals, not IEEE doubles. The create and update request classes are not part of this model: they are taken to carry `name`, `price` and `description`, never an `id`.
- ItemsService.Items.FindAll: `findAll` returns the stored array itself and `findOne` returns the stored object, so later updates show through those references. The model returns values, so that aliasing is not captured.
- Validation messages: the constraint object is an ordered list of its values, and an absent constraint object or child list is the empty list (the code's truthiness tests treat them alike).
- `ErrorResponseDto` and `AppException` constructors only store their fields; they are records here.

## Findings

| source | as written | input that shows it | evidently intended | confidence | as-written member | corrected member |
|---|---|---|---|---|---|---|
| src/errors/global-exception.filter.ts:103-104 (and src/core/filters/global-exception.filter.ts:27-28) | an `Error` that is not an HttpException sends its own `message` to the client | `new Error("connect ECONNREFUSED 10.0.0.5:5432")` is answered with that text | as documented at src/errors/global-exception.filter.ts:32-35: a 500 with the generic "Internal server error", the details going only to the log | medium, not executed | ExceptionFilters.StructuredExposesRuntimeMessage | ExceptionFilters.StructuredCatchAsDocumented, with ExceptionFilters.DocumentedHidesRuntimeErrors |
