# directus-endpoint-email: request validation and e-mail assembly

This project models the `email` endpoint extension of a museum's Directus back end (`src/index.js`). The extension has three protected routes:
- `POST /test` reports whether the caller is authenticated.
- `POST /story` takes a JSON body with an e-mail address and the list of sites a visitor saved, and mails that list with the "your-story" template.
- `POST /audio` takes a multipart form with an e-mail address, the question the visitor answered, a minor/adult flag and an MP3 recording. It mails the recording back with the "audio-booth" template.

Every route first checks the caller, then checks its input in a fixed order, and answers with the first failure as a 400 (403 for a missing caller). When all checks pass, it builds one template message and hands it to the e-mail provider. A failed send becomes 400 "Error sending email."; any other provider answer is returned unchanged.

Modules:
- `Wrappers`: `Option` and `Result`.
- `Js`: the JSON values a handler reads (`Json`) and the JavaScript coercions it applies: truthiness, property access, `typeof`, `Object.keys(..).length`, and `String(..)`, which `RegExp.prototype.test` applies to its argument. A number is carried as the text `String` gives for it ("12", "0.5", "1.5e+21"). The string conversion can throw: a plain object with its own "toString" key cannot be converted, and neither can an array that holds one.
- `Text`: the `\s` character class and `String.prototype.trim`.
- `Validate`: `isValidEmail` (the pattern `^[^\s@]+@[^\s@]+\.[^\s@]+$`, read literally) and `isValidUpload`.
- `Mail`: the error taxonomy with its statuses and texts, the outbound message, the provider's send operation, the reply, and `/test`. Each route checks for a caller itself, in the `user.None?` branch of `HandleTest`, `StoryExchange` and `AudioExchange`.
- `Story` and `Audio`: each route has three parts.
  - A specification function (`StoryExchange`, `AudioExchange`) gives the provider call made (if any) and the reply, for every caller, body and provider outcome.
  - An imperative handler method (`HandleStory`, `HandleAudio`) follows the source step by step and is proved equal to it. `HandleStory` has the `for..of` loop with its early exit.
  - Lemmas state the properties of the route.
- `Routes`: a lemma that the three routes all refuse a missing caller in the same way.

In `/story` the body is a real JSON value, so every case where the source throws into its "Invalid JSON data." branch is derived, not assumed:
- an undefined body;
- a `null` body;
- an `email` whose string conversion throws: a plain object with its own "toString" key, or an array holding one;
- `sites: null` (`Object.keys(null)` throws);
- a non-empty plain object as `sites` (`for..of` over a non-iterable);
- a `null` entry reached before any incomplete entry.

In `/audio` the same branch is taken when form parsing fails or when the temporary file cannot be read (the read sits inside the same `try`).

The `isMinor` rule is kept exactly as written. An absent or blank value gives a minor, and so do exactly "true" and "1". Every other value gives an adult, including "false", "0" and " true ".

`isValidEmail` converts its argument to a string before matching. So a JSON `email` that is an array holding one address, such as `["a@b.co"]`, passes the check, and the message's recipient is then the array value. `Story.ArrayWrappedEmailIsSent` states this. Numbers, booleans, `null` and plain objects never pass (`Validate.EmailCoercion`). An array's elements are joined with ",", and a number among them can supply the '.' the pattern needs: `["a@b", 1.5e21]` converts to "a@b,1.5e+21", which passes (`Validate.NumberSuppliesDot`).

## Model

| member | source | states |
|---|---|---|
| `Validate.ValidEmailShape` | src/index.js:10-13 | the pattern accepts a string iff it has no whitespace, exactly one '@' at a position after the first character, and, after the '@', a '.' with at least one character on each side |
| `Validate.EmailSamples` | src/index.js:10-13 | "a@b.co" is accepted; "a@b", "no-at-sign", "a b@c.de" and "a@b@c.de" are rejected |
| `Validate.EmailCoercion` | src/index.js:11-12 | only strings and arrays can pass the check once `test` has converted them to strings; a plain object's conversion throws iff it has its own "toString" key; an array holding one string converts to that string |
| `Js.JoinItemsJoinsTexts` | src/index.js:11-12 | converting an array throws exactly when some element's conversion throws; otherwise the result is the element texts, null as "", separated by "," |
| `Validate.NumberArrayConversion` | src/index.js:11-12 | `test` converts the array `["a@b", 1.5e21]` to "a@b,1.5e+21" |
| `Validate.NumberSuppliesDot` | src/index.js:11-12 | the pattern accepts "a@b,1.5e+21", whose '.' comes from the number's exponent form |
| `Validate.IsValidUpload` | src/index.js:15-17 | an upload passes iff it is present, has at least one property, and its `mimetype` is exactly "audio/mpeg" |
| `Text.TrimStartSuffix` | src/index.js:153-157 | trimming the start leaves the suffix that begins at the first non-whitespace character; everything removed is whitespace |
| `Text.TrimEndPrefix` | src/index.js:153-157 | trimming the end leaves the prefix that ends at the last non-whitespace character; everything removed is whitespace |
| `Text.TrimIsSlice` | src/index.js:157 | `trim()` returns a contiguous piece of its input, with whitespace only before and after it, and it neither starts nor ends with whitespace |
| `Text.TrimEmptyIff` | src/index.js:153 | `trim()` is empty iff the string is whitespace only |
| `Mail.HandleTest` | src/index.js:37-44 | `/test` answers 403 with the permission message iff there is no caller, and 200 "Authorization was successful." otherwise |
| `Mail.DeliverOutcome` | src/index.js:109-121 | the provider is called once with the built request; a thrown send gives 400 "Error sending email.", any other answer is returned unchanged with status 200 |
| `Story.ScanSites` | src/index.js:70-75 | the scan of the site entries passes iff every entry passes, and otherwise stops at the first failing entry in list order, reporting that entry's failure |
| `Story.HandleStory` | src/index.js:49-126 | the step-by-step handler, loop included, makes the same provider call and gives the same reply as the route's specification for every caller, body and provider |
| `Story.StoryAcceptedIff` | src/index.js:60-79 | a story is sent iff there is a caller, the body is an object with a valid e-mail, and `sites` is a non-empty array whose every entry has truthy `siteName`, `locationInfo`, `curatorCollection`, `address` and `thumbnail` |
| `Story.StoryCheckOrder` | src/index.js:52-79 | the first failure is reported in the fixed order: missing caller (403), then an undefined or null body ("Invalid JSON data."), then an invalid e-mail whatever `sites` holds ("Invalid JSON data." when its string conversion throws), then `sites` missing, not an object, or empty (the `sites` error), or `sites` null or a non-empty plain object ("Invalid JSON data.") |
| `Story.StoryFirstBadEntry` | src/index.js:70-75 | with all entries before i complete and entry i incomplete, the reply is the site-entry error (or "Invalid JSON data." for a null entry) and nothing is sent |
| `Story.StoryMessageShape` | src/index.js:81-121 | a sent story uses template "your-story", has exactly one "to" recipient equal to the e-mail, one merge-variable block for that e-mail with `preheader` then `sites` equal to the input list, and no attachments; the send outcome decides the reply |
| `Story.OwnToStringEmailThrows` | src/index.js:60-62 | an `email` object with its own "toString" key makes the pattern test throw, so the reply is "Invalid JSON data." whatever `sites` holds |
| `Story.ArrayWrappedEmailIsSent` | src/index.js:60-64 | a body whose `email` is an array holding one valid address, with a complete site list, is sent with that array as the recipient |
| `Audio.IsMinorTruthTable` | src/index.js:160-164 | `isMinor` is true iff the value is absent, whitespace only, or exactly "true" or "1" |
| `Audio.VisibleValueIsAdult` | src/index.js:160-164 | a value with a non-whitespace character that is neither "true" nor "1" gives an adult |
| `Audio.AdultSamples` | src/index.js:160-164 | "false", "0" and " true " each give an adult |
| `Audio.HandleAudio` | src/index.js:131-252 | the step-by-step handler makes the same provider call and gives the same reply as the route's specification for every caller, form, file store and provider |
| `Audio.AudioAcceptedIff` | src/index.js:146-174 | a recording is sent iff there is a caller, the form parsed, the e-mail is valid, the question is not blank, the upload is present with properties and MIME type "audio/mpeg", and its file can be read |
| `Audio.AudioCheckOrder` | src/index.js:139-174 | the first failure is reported in the fixed order: caller, form parse, e-mail, question, upload, each regardless of the later fields, and then a valid upload whose temporary file cannot be read ("Invalid JSON data.") |
| `Audio.AudioMessageShape` | src/index.js:176-240 | a sent recording uses template "audio-booth" and has one "to" recipient equal to the e-mail. It carries `preheader`, `header`, `p1`, `p2` in that order and exactly one attachment with the upload's MIME type, original file name and base64 text. A minor gets "Thank You for Recording", the trimmed-question sentence as `p1` and the forwarding note as `p2`; an adult gets "Thank You for Sharing", the archive note as `p1` and the sentence as `p2` |
| `Routes.AnonymousCallersAreRefused` | src/index.js:38-137 | at each route's gate (lines 38-41, 52-55 and 134-137), without a caller, `/test`, `/story` and `/audio` all answer 403 "You don't have permission to access this." and none calls the provider |

## Left out

- The provider client (`@mailchimp/mailchimp_transactional`) and its `sendTemplate` call are a network call. They are modelled as a function from the request to "delivered with a response" or "threw", and the fixed `template_content: [{}]` argument is not modelled.
- Multipart parsing (`formidable`, `firstValues`) is a foreign library. Its result is modelled as maps that already hold the first value per name, or a parse failure.
- Reading the temporary file and base64-encoding it (`base64_encode`) is file-system I/O plus a library encoder. It is modelled as a map from path to base64 text; a path missing from the map is a read that throws. The base64 round trip belongs to the library and is not stated.
- The sender address `from_email` comes from the process environment and is not modelled; the fixed sender name is.
- `GET /` (a constant health reply), Express routing and the `res` object, `console.error` logging, and `async`/`await` sequencing are host-framework plumbing.
- `Js.Json`: a number is carried as the text `String` gives for it. The type only bounds the alphabet (digits, sign, '.', 'e', and the letters of "Infinity" and "NaN"), so it also admits texts no number prints, such as "e" or "-0"; for those the model's truthiness and string form are whatever the text gives. The conversion from a numeric value to that text, the Number::toString algorithm of the ECMAScript specification, is not modelled. So the model does not tie a text such as "1.5e+21" to the number 1500000000000000000000. Each route's behaviour is stated for the text, which is all the handlers observe.
- Object key order in the provider payload is not modelled: JSON objects are maps.
- JavaScript strings are UTF-16, while these strings are sequences of Unicode scalar values. `[^\s@]` treats both halves of a surrogate pair as ordinary characters, so acceptance is the same.
- Sending the same valid payload twice is two independent calls with equal requests. That follows from the handlers being functions of their inputs, and no lemma states it.
