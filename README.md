# GREEN-API relay: a Dafny model

The repository is a small demonstration front end for the GREEN-API WhatsApp gateway. A
browser form collects an instance id, an API token and the fields of an action (phone number,
message text, file URL). It checks them and posts one request per action to a local relay.
The relay endpoint `POST /api/green-api/:idInstance/:method/:apiToken` checks the route
parameters and forwards the call to `https://api.green-api.com/waInstance<id>/<method>/<token>`.
It then turns whatever comes back into the status and JSON body it returns to the form.

This project models the decision logic of both halves as pure Dafny functions and proves
what the code promises about them:

- `wrappers.dfy` (module `Wrappers`): `Option` and `Result`.
- `text.dfy` (module `Text`): the JavaScript string operations the code relies on. These are
  `startsWith`, `includes`, `trim`, the class `\d`, and the decimal rendering of a status
  inside a template literal. It also defines splitting and joining on one character. Neither
  program calls these; the model uses them to state how Express matches the route's path
  segments.
- `json.dfy` (module `Json`): JSON values and JavaScript truthiness on them.
- `relay.dfy` (module `Relay`, from `server.js`): the handler. It validates the parameters
  in order (missing parameter, then the placeholder credentials `123` / `asd`). It builds the
  upstream URL, the method and the optional body. It classifies an upstream response as
  JSON or not JSON, and an exception as a malformed body, a network error or an internal
  error. The upstream API is a parameter `fetch: Outbound -> Upstream`, so the model can
  state that a refused request never depends on what upstream would do.
- `client.dfy` (module `Client`, from `script.js`): `formatPhoneNumber`, the `\d{10,15}`
  check, the URL scheme check, the `chatId` suffix, `getInstanceData`, the path built by
  `makeApiRequest`, and the check chains of `sendMessage`, `sendFileByUrl`, `getSettings`
  and `getStateInstance`. The values of the form's input fields are parameters.
- `wiring.dfy` (module `Wiring`): the two halves together. When each parameter is a plain
  path segment, the relay route recovers exactly the parameters the form put into its path.
  A plain segment is non-empty, not `.` or `..`, and free of `/`, `\`, `?`, `#`, `%` and the
  C0 control characters U+0000 to U+001F; the token, which ends the path, also must not end
  in a space. A call the form sends then becomes the request the relay hands to the upstream
  API, for the endpoint, method and body it asked for.

The 500 reply for an unclassified exception carries the exception's message as `message`
and has no `details` field (server.js:127-130). The message of a non-JSON reply
quotes `response.status` as received. The model writes an absent status as 0: the reply's
status is then 500, and the model's message quotes 0 where the program would quote
`undefined`.

## Model

| member | source | states |
|---|---|---|
| `Text.IncludesIff` | server.js:95 | `includes` is true exactly when the needle occurs at some offset of the string |
| `Text.IncludesMiddle` | server.js:102 | a string built around a piece includes that piece |
| `Text.Split` | server.js:55 | splitting yields at least one piece, and no piece contains the separator |
| `Text.JoinSplit` | server.js:55 | joining the pieces of a split with the same separator restores the string |
| `Text.SplitJoin` | server.js:55 | splitting the join of separator-free pieces restores the pieces |
| `Text.DecimalString` | server.js:102 | `${status}` is a non-empty string of ASCII digits without a leading zero |
| `Text.ParseDecimalString` | server.js:102 | reading the rendered digits back gives the status |
| `Text.TrimShape` | script.js:5-6 | `trim` keeps a contiguous middle part and drops only whitespace before and after it |
| `Text.TrimEmptyIff` | script.js:8 | a field is empty after `trim` exactly when it is whitespace only |
| `Text.TrimIdempotent` | script.js:5-6 | trimming twice is trimming once |
| `Text.StartsWith` | script.js:82 | `startsWith` holds exactly when the prefix fits and agrees with the string character by character |
| `Text.Includes` | server.js:95 | a string can include only a needle no longer than itself |
| `Text.Trim` | script.js:5-6 | `trim` never lengthens a string and leaves no whitespace at either end |
| `Json.Truthy` | server.js:86 | a JSON value is falsy exactly when it is `null`, `false`, `0` or `""` |
| `Relay.RouteParams` | server.js:55-57 | every parameter the route yields is a non-empty segment without `/` |
| `Relay.Prepare` | server.js:60-73 | a refusal is a 400 reply without details, of category "invalid request" or "invalid credentials"; an acceptance is the outbound request for the parameters and body |
| `Relay.UpstreamUrl` | server.js:75 | the URL starts with the upstream base, `/waInstance`, the instance id and `/`, and ends with the token |
| `Relay.OutboundMethod` | server.js:80 | the outbound method is never empty, is either `GET` or the method the caller asked for, and is the caller's method whenever that is a non-empty string |
| `Relay.OutboundRequest` | server.js:75-88 | the request goes to the upstream URL with the method `OutboundMethod` chooses and a JSON content type; any body it has is the caller's data, and that data is truthy |
| `Relay.IsJsonContentType` | server.js:93-95 | a response counts as JSON exactly when it has a content type in which `application/json` occurs at some offset |
| `Relay.ClassifyResponse` | server.js:93-109 | a response is relayed exactly when it is JSON, with its own status and text; otherwise the reply is "invalid API response" with a non-zero status and details of at most 203 characters |
| `Relay.ClassifyException` | server.js:110-131 | every exception gives an error reply with status 400, 503 or 500, and the status determines the category |
| `Relay.Handle` | server.js:55-133 | the "invalid request" and "invalid credentials" categories appear exactly when validation refuses; a relayed reply comes only from an accepted request whose upstream response was JSON, and carries that response's status and text |
| `Relay.CategoryTextIdentifies` | server.js:60-131 | no two categories share an `error` text, so the text identifies the category |
| `Relay.NonJsonMessage` | server.js:102 | the non-JSON message contains the decimal upstream status |
| `Relay.Details` | server.js:103 | details have at most 203 characters, equal the text up to 200 characters, else its first 200 plus `...` |
| `Relay.MissingParamsFirst` | server.js:60-65 | an empty id, method or token gives 400 "invalid request", before any other check and whatever upstream would do |
| `Relay.PlaceholderRejected` | server.js:68-73 | with all parameters present, id `123` or token `asd` gives 400 "invalid credentials", whatever the method, body or upstream |
| `Relay.ForwardedIff` | server.js:60-73 | a request goes upstream exactly when all parameters are present and neither placeholder is used |
| `Relay.RefusalIgnoresUpstream` | server.js:60-73 | a refused request gets the same 400 reply for every upstream, so no upstream call matters |
| `Relay.ForwardedReply` | server.js:75-109 | an accepted request is answered by classifying upstream's outcome for exactly the request built from its parameters and body |
| `Relay.UpstreamUrlSegments` | server.js:75 | the upstream URL's path segments are `waInstance<id>`, the method and the token, when none contains `/` |
| `Relay.OutboundMethodChoice` | server.js:80 | the outbound method is the requested one when it is a non-empty string, `GET` when it is absent or empty, and never empty |
| `Relay.OutboundBodyIff` | server.js:79-88 | the content type is always JSON; a body is attached exactly when `data` is truthy, and it is that data |
| `Relay.NonJsonReply` | server.js:95-104 | a response without a JSON content type gives "invalid API response" with the upstream status or 500, a message quoting the status, and truncated details |
| `Relay.JsonReplyVerbatim` | server.js:107-109 | a JSON response is relayed unchanged with its own status, success or error |
| `Relay.CharsetIsJson` | server.js:95 | `application/json; charset=utf-8` counts as JSON |
| `Relay.UpperCaseIsNotJson` | server.js:95 | the content-type test is case-sensitive: `Application/JSON` counts as not JSON |
| `Relay.DetailsPrefix` | server.js:103 | the details start with the first min(200, length) characters of the text, and add 3 characters exactly when the text is longer than 200 |
| `Relay.ExceptionClassification` | server.js:114-131 | every exception maps to exactly one of 400 / 503 / 500. An invalid-JSON message wins over the code; only then do ENOTFOUND and ECONNREFUSED give a network error with the message as details |
| `Relay.ConnectionRefused` | server.js:120-125 | a refused connection whose message does not mention invalid JSON gives 503 "network error" |
| `Client.GetInstanceData` | script.js:4-14 | credentials are the trimmed fields, both non-empty and already trimmed |
| `Client.ProxyPath` | script.js:39 | when no parameter contains `/`, the path's segments are empty, `api`, `green-api`, the id, the endpoint and the token |
| `Client.MakeApiRequest` | script.js:34-53 | a call is made exactly when credentials exist; it carries the requested method and data to the path for those credentials |
| `Client.GetSettings` | script.js:68-70 | the only failure is missing credentials; a sent call is a GET with null data |
| `Client.GetStateInstance` | script.js:72-74 | the only failure is missing credentials; a sent call is a GET with null data |
| `Client.FormatPhoneNumber` | script.js:76-94 | the formatted number is all digits, never exactly 10 long, and at most one digit longer than the input's digits |
| `Client.IsValidPhone` | script.js:109 | an accepted number is non-empty and consists of digits only, so stripping non-digits leaves it unchanged |
| `Client.ChatId` | script.js:115 | a chat id built from a phone without `@` splits at `@` into the phone and `c.us` |
| `Client.HasHttpScheme` | script.js:141 | an accepted URL is at least 7 characters long and starts with `http` |
| `Client.SendMessage` | script.js:96-120 | a message is sent only for a valid formatted phone and a non-empty text, and always as a POST |
| `Client.SendFileByUrl` | script.js:122-153 | a file is sent only for a valid formatted phone and an http(s) URL, and always as a POST |
| `Client.StripNonDigits` | script.js:78 | removing non-digits leaves only ASCII digits and never lengthens the string |
| `Client.StripNonDigitsAppend` | script.js:78 | the digits of a concatenation are the digits of each part in order, so relative order is kept |
| `Client.StripNonDigitsChar` | script.js:78 | a single character survives exactly when it is a digit |
| `Client.StripNonDigitsOfDigits` | script.js:78 | a digit string is left unchanged |
| `Client.StripPunctuated` | script.js:78 | the digits of a number written `+C (AAA) EEE-LLLL` are `CAAAEEELLLL`, for any digit groups |
| `Client.StripNonDigitsCounts` | script.js:78 | each digit is kept as often as it occurs, and nothing else is kept |
| `Client.LeadingDoubleZeroDroppedOnce` | script.js:82-93 | a leading `00` is removed once: what followed it, further zeros included, ends the result. With 12 cleaned digits the result is `1` followed by the last 10; otherwise it is the cleaned digits without the `00` |
| `Client.CountryCodeForTenDigits` | script.js:86-93 | without a leading `00`, a 10-digit number gets a leading `1` (length 11); other lengths are unchanged |
| `Client.AcceptedFormattedLengths` | script.js:106-112 | the `\d{10,15}` check accepts a formatted number exactly when it has 11 to 15 digits |
| `Client.TenDigitNumberAccepted` | script.js:88-112 | a 10-digit number typed without a prefix passes the check once formatted |
| `Client.FormatTenDigits` | script.js:88-91 | `2345678901` becomes `12345678901` |
| `Client.FormatPunctuated` | script.js:76-94 | `+1 (234) 567-8901` becomes `12345678901` |
| `Client.FormatInternationalPrefix` | script.js:82-84 | `0012345678901` becomes `12345678901` |
| `Client.FormatDoubleZeroOnce` | script.js:82-84 | `0000123` becomes `00123`, not `123` |
| `Client.ChatIdSplits` | script.js:115 | the chat id of a digit string splits at `@` into the phone and `c.us` |
| `Client.InstanceDataIff` | script.js:4-14 | credentials exist exactly when both fields hold a non-whitespace character, and they are the trimmed fields |
| `Client.SendMessageChain` | script.js:96-120 | checks run in order: fields present, then phone 11-15 digits, then credentials. Each of the three errors occurs exactly when its check is the first to fail. A sent call is a POST to `sendMessage` with the chat id and the trimmed text |
| `Client.SendFileByUrlChain` | script.js:122-153 | as for messages, with the http/https URL check between the phone check and the credentials. A sent call carries the chat id, the URL and `file.png` |
| `Client.ReadActions` | script.js:68-74 | `getSettings` and `getStateInstance` send a GET with null data exactly when credentials exist |
| `Client.HttpSchemes` | script.js:140-144 | URLs starting `http://` or `https://` pass whatever follows; `ftp://` and upper-case `HTTPS://` do not |
| `Wiring.ProxyPathRoutes` | script.js:39 | the relay route recovers id, endpoint and token from the form's path when each is a plain segment and the token does not end in a space |
| `Wiring.RoutedPathIsProxyPath` | server.js:55 | every path the relay route accepts is one the form builds |
| `Wiring.RoutedRequestHasParams` | server.js:55-65 | a routed request always has its parameters, so it never gets the missing-parameter reply |
| `Wiring.CallReachesUpstream` | script.js:34-53 | a form call with real credentials, each parameter a plain segment, becomes the request the relay hands to `fetch` for the named upstream endpoint, with its method. Its data becomes the body when truthy: a send action's object travels as a POST body, a read action's null leaves a GET without body |

## Left out

- The upstream HTTP call (server.js:90) and the form's call to the relay (script.js:55-65) are network I/O. The upstream is the `fetch` parameter with an abstract outcome. The form's handling of the relay's reply is not modelled.
- JSON parsing and serialisation are library calls. A JSON reply relays the upstream body text, meaning the value parsed from it. A body that fails to parse is given to the model as an `Exception` carrying the parser's message.
- Wiring.ProxyPathRoutes and Wiring.CallReachesUpstream: the browser's resolution of the form's path into a URL and Express's percent-decoding of parameters are not modelled. The browser removes dot segments (also written `%2e`), treats `\` as `/`, cuts the path at `?` and `#`, deletes tab, line feed and carriage return anywhere, and strips the other C0 control characters and spaces from the ends of the URL; Express decodes `%` escapes. So these lemmas require plain segments and promise nothing for other parameters.
- Relay.OutboundRequest: the relay's HTTP client refuses a body on a GET or HEAD request. For a truthy `data` with the method absent or `GET`, the program's `fetch` throws a `TypeError` without a `code` and the reply is 500 "internal server error" (server.js:126-130), with no upstream call. The model builds that request and leaves its fate to the `fetch` parameter. The form never sends this combination.
- Json.Truthy: a JSON number is an exact decimal here. JavaScript parses it to a double, so `1e-400` becomes `0` and is falsy at server.js:86, while the model counts it truthy.
- Relay.RouteParams: Express route matching is modelled as a split on `/` into exactly six segments. Case-insensitive matching, an optional trailing slash and percent-decoding of parameters are not modelled: a parameter `a%41` arrives as `aA` in the program, and one with a malformed escape such as `a%zz` is refused with 400 before the handler runs.
- `Relay.Details` counts Unicode characters; JavaScript's `substring` counts UTF-16 code units, so the two differ on text with characters outside the Basic Multilingual Plane.
- A `httpMethod` that is not a string, a `data` value holding `NaN`, and an exception without a string `message` are not modelled.
- The form's error texts are the four `ClientError` values, not the messages shown. `updateResponse`, the DOM reads and the `DOMContentLoaded` handler are UI only.
- Relay.ClassifyResponse: Node refuses to write a status outside 100-999, so for such an upstream status `res.status(...).json(...)` (server.js:100 and 109) throws, and the catch answers 500 "internal server error" with the thrown message (server.js:126-130). The model instead writes the status as it is, in both the JSON and the non-JSON branch.
- Logging, CORS and body parsing, the static file routes, `/`, `/health`, `/debug/files`, `app.listen` and build.js are plumbing and filesystem I/O.
