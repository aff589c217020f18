# Portfolio manager: client–server request contract

A model, in Dafny, of the request/response contract between a React Native
portfolio client and its Flask backend.

**Client side**
- The credential store: the single `authToken` slot of the device's key-value storage.
- `login`, `registerUser`, `getToken` and `logout`.
- The two protected calls, `getRecommendation` and `getHistory`. Each always sends `Authorization: Bearer <token>`.
- How each call reads the decoded reply: JavaScript truthiness of one member, with `data.error || default` as the message.
- The home screen's `getPortfolio`:
  - the ticker field is split on commas, then trimmed, then empties are dropped;
  - two validation exits;
  - the updates to `loading`, `portfolio` and `projectedProfit`.

**Server side**
- The `token_required` decorator: strict parsing of the `Authorization` header, then the token decode.
- `register` and `login` over a `users` table with unique usernames.
- Input validation in `/api/portfolio` and its insert into `portfolio_history`.
- `/api/get_history`, in three steps:
  - select the caller's rows, newest first;
  - decode each row in a `for` loop: `json.loads`, with a comma-split fallback for tickers and `{}` for recommendations;
  - return the list.

**JSON, shared by both ends**
- JSON values are modelled once, with one printer and one parser.
- The printer covers Python's `json.dumps` and JavaScript's `JSON.stringify`.
- The parser follows the grammar `json.loads` and `JSON.parse` share.
- Proved: `Loads(Print(style, v)) == Some(v)` for every well-formed value, and everything `Loads` returns is well-formed.
- That round trip is what makes the end-to-end lemmas work: a response the server writes is the value the client reads, and a request the client sends is the body the server reads.

**What becomes a parameter**
- I/O becomes values:
  - `fetch` followed by `response.json()` is a `Fetched` result (the decoded value, or the error raised);
  - AsyncStorage is a `TokenStore` object;
  - the SQLite tables are sequences held by a `Backend`.
- The foreign libraries become function parameters: JWT signing and decoding, password hashing and checking, the optimiser, the profit formula, `parseFloat(budget) || 0` and the clock.

Modules:
- `Wrappers`: `Option`, `Result`.
- `Text`: whitespace classes, trim, split, Python `str.split()`, SQLite text order.
- `Json`: values, truthiness, property access.
- `JsonCodec`, `JsonRoundTrip`, `JsonDecoded`: printer, parser and their proofs.
- `Http`: requests, replies, client errors.
- `AuthService`, `PortfolioService`, `HomeScreen`: the client.
- `Gate`, `History`, `Server`: the backend.
- `EndToEnd`: the two sides together.

Behaviour of the code worth knowing:
- With no token stored, the protected calls still send an `Authorization` header. Its value is `Bearer null`. The backend then reads `null` as the token, and the answer is the 403 for an invalid token.
- `getRecommendation` does not check the ticker list itself. Only the screen does.
- The HTTP status of a reply is never looked at by the client. A non-JSON body fails in `response.json()`. Otherwise success depends only on the expected member being truthy.
- The period is any string, not one of three values. The budget is whatever value the screen computed.
- Every client call classifies its reply with the same test (`Http.Check`). A fetch failure, a body that is not JSON, a `null` body and a falsy expected member are all thrown as errors from that one place.

## Model

| member | source | states |
|---|---|---|
| Text.JsTrim | screens/HomeScreen.js:26 | JavaScript `trim()`: `Trim` over the ECMAScript whitespace and line terminators; its meaning is Text.Trim |
| Text.PyStrip | app.py:211 | Python `strip()`: `Trim` over the characters `str.isspace` accepts; its meaning is Text.Trim |
| Text.Trim | screens/HomeScreen.js:26 | the trimmed text is the part of the input that starts right after its leading space characters; every character before and after that part is a space, and the part neither starts nor ends with one |
| Text.TrimIdempotent | screens/HomeScreen.js:26 | trimming an already trimmed text changes nothing |
| Text.TrimEmpty | screens/HomeScreen.js:26 | trimming yields the empty text exactly when every character is a space |
| Text.Split | screens/HomeScreen.js:26 | `split(sep)` for one separator character, which JavaScript and Python agree on; gives at least one piece; what the pieces are is stated by Text.SplitJoin, Text.SplitCount and Text.SplitPiecesFree |
| Text.SplitJoin | screens/HomeScreen.js:26 | joining the pieces of `split(sep)` with `sep` gives the input back |
| Text.SplitCount | app.py:211 | `split(sep)` gives exactly one piece more than there are separators |
| Text.SplitPiecesFree | app.py:211 | no piece of `split(sep)` contains the separator |
| Text.SplitAppend | screens/HomeScreen.js:26 | splitting `a + sep + b` gives the pieces of `a` followed by the pieces of `b` |
| Text.SplitNone | screens/HomeScreen.js:26 | a text without the separator splits into itself alone |
| Text.PySplit | app.py:87 | every word of Python `str.split()` is non-empty and holds no whitespace; that they are all the maximal runs, in order, is Text.PySplitCovers with Text.PySplitInterleave |
| Text.PySplitSkipsSpaces | app.py:87 | leading whitespace does not change what `str.split()` returns |
| Text.PySplitTwoWords | app.py:87 | a word, a run of whitespace and a word split into exactly those two words |
| Text.PySplitInterleave | app.py:87 | words separated by whitespace runs, with optional whitespace at either end, split into exactly those words, in order |
| Text.PySplitCovers | app.py:87 | every text is the words `str.split()` returns with whitespace runs between them (non-empty between two words) and possibly at either end, so no character other than whitespace is dropped |
| Text.NatText | app.py:218 | the decimal text of an id is made of digits, denotes the id, and has no leading zero |
| Text.IntText | app.py:218-219 | Python `str(n)` of an integer: `-` and the digits of the magnitude when negative; its use as a JSON number is History.IntTextValid |
| Text.TextLeTotal | app.py:202 | any two `created_at` texts are ordered one way or the other |
| Text.TextLeTrans | app.py:202 | the text order is transitive |
| Json.Lookup | app.py:104 | a member is found exactly when some member has that name, and the value found is that member's value |
| Json.LookupMember | app.py:104 | with distinct names, looking up a member's name finds that member's value |
| Json.StringObject | services/AuthService.js:9 | the object has one string member per given pair, in order |
| Json.StringArray | services/PortfolioService.js:13 | the array holds the given strings, in order, as JSON strings |
| Json.JsProp | services/AuthService.js:12 | `data.key` on a non-null value: for an object, the member of that name when there is one, else `undefined`; for any other value, `undefined` |
| Json.JsTruthy | services/AuthService.js:12 | JavaScript truthiness: `undefined`, `null`, `false`, zero and the empty string are falsy, every array and object is truthy; compared with Python in Json.TruthinessDiffers |
| Json.JsToString | services/AuthService.js:16 | JavaScript `String(v)`, used by the error message and the bearer header; stated through Json.ErrorText and PortfolioService.AuthorizationValue |
| Json.ErrorText | services/AuthService.js:16 | `data.error`, or the fallback: the error member's string form when it is truthy, else the fallback |
| Json.PyGet | app.py:104 | `dict.get`: the member's value when present, else the default |
| Json.PyTruthy | app.py:106 | Python truthiness: `None`, `False`, zero and empty strings, lists and dicts are false; compared with JavaScript in Json.TruthinessDiffers |
| Json.TruthinessDiffers | services/PortfolioService.js:31 | JavaScript and Python truthiness disagree on exactly the empty array and the empty object |
| JsonCodec.Print | app.py:186 | the JSON text of a value in either style (`json.dumps` or `JSON.stringify`); its meaning is JsonRoundTrip.RoundTrip |
| JsonCodec.Loads | app.py:209 | `json.loads` and `JSON.parse`: a whole text is one value, with surrounding whitespace; its meaning is JsonRoundTrip.RoundTrip and JsonDecoded.LoadsWellFormed |
| JsonRoundTrip.RoundTrip | app.py:186 | parsing what either printer writes for a well-formed value gives that value back |
| JsonDecoded.LoadsWellFormed | app.py:209 | every value the parser returns is well-formed: a repeated key keeps one member, and number literals are valid |
| JsonDecoded.ReencodeDecoded | app.py:213 | decoding, re-encoding in either style and decoding again gives the same value |
| Http.Header | services/PortfolioService.js:9-12 | a header value is found exactly when a header of that name was written, and it is that header's value |
| Http.Decode | services/AuthService.js:11 | `response.json()`: fails when there is no response, and fails on text the parser rejects; otherwise it is the parsed value |
| Http.Check | services/AuthService.js:11-17 | the shared reply test: success exactly when the decoded value is non-null and the tested member is truthy, returning the whole value; a decoded `null` throws on the property read; otherwise the message is `data.error` when truthy, else the fallback |
| Http.JsonBody | services/AuthService.js:9 | the request body `JSON.stringify` writes; read back on the server by PortfolioService.RecommendationBodyReadBack and AuthService.CredentialsRequest |
| AuthService.TokenStore.constructor | services/AuthService.js:34-35 | a new store holds no item |
| AuthService.TokenStore.SetItem | services/AuthService.js:13 | the slot holds the value written |
| AuthService.TokenStore.GetItem | services/AuthService.js:35 | reading returns what the slot holds and changes nothing |
| AuthService.TokenStore.RemoveItem | services/AuthService.js:39 | the slot is empty afterwards |
| AuthService.Credentials | services/AuthService.js:9 | the body object has exactly two members, `username` and `password`, holding the two strings |
| AuthService.CredentialsRequest | services/AuthService.js:6-10 | a POST to the API base plus the path, with JSON content type, no Authorization header, and a body that parses back to the credentials object |
| AuthService.LoginRequest | services/AuthService.js:6-10 | the credential POST to `/api/login`; stated by AuthService.CredentialsRequest |
| AuthService.RegisterRequest | services/AuthService.js:21-25 | the credential POST to `/api/register`; stated by AuthService.CredentialsRequest |
| AuthService.ClassifyLogin | services/AuthService.js:11-16 | success exactly when `data.token` is truthy, returning that token; a fetch or parse error is passed on; a decoded `null` throws on reading `token`; otherwise the message is `data.error` if truthy, else 'Login failed' |
| AuthService.ClassifyRegister | services/AuthService.js:26-30 | `true` exactly when `data.status` is truthy; a fetch or parse error is passed on; a decoded `null` throws on reading `status`; otherwise the message is `data.error` if truthy, else 'Registration failed' |
| AuthService.Login | services/AuthService.js:5-18 | sends the credential POST; on success the store holds exactly the returned token; on failure the store is unchanged |
| AuthService.RegisterUser | services/AuthService.js:20-32 | sends the credential POST to the register path; the result is the reply's classification and is only ever `true`; no store is involved |
| AuthService.GetToken | services/AuthService.js:34-36 | returns what the store holds; the store is not modified |
| AuthService.Logout | services/AuthService.js:38-40 | the store is empty afterwards, whatever it held |
| AuthService.LoginThenGetToken | services/AuthService.js:13-14 | after a successful login `getToken` returns the token login returned; after a failed one, what was stored before |
| AuthService.LogoutTwice | services/AuthService.js:38-40 | logging out twice leaves the store empty, and `getToken` then returns nothing |
| PortfolioService.AuthorizationValue | services/PortfolioService.js:11 | always `Bearer ` followed by the string form of the stored token; `Bearer null` when nothing is stored; `Bearer T` for a stored string T |
| PortfolioService.RecommendationBody | services/PortfolioService.js:13 | the body object has exactly three members, `tickers`, `period` and `budget`, holding the three inputs unchanged |
| PortfolioService.RecommendationRequest | services/PortfolioService.js:6-14 | a POST to `/api/portfolio` with JSON content type, the Authorization value for the stored token, and the JSON text of the body |
| PortfolioService.RecommendationBodyReadBack | services/PortfolioService.js:13 | the body text parses back to the body object |
| PortfolioService.HistoryRequest | services/PortfolioService.js:24-29 | a GET to `/api/get_history` with the Authorization value for the stored token, no content type and no body |
| PortfolioService.ClassifyRecommendation | services/PortfolioService.js:15-19 | success exactly when `data.recommendation` is truthy, returning the whole decoded object unchanged; a fetch or parse error is passed on; a decoded `null` throws on reading `recommendation`; otherwise the message is `data.error` if truthy, else 'Failed to fetch recommendation' |
| PortfolioService.ClassifyHistory | services/PortfolioService.js:30-34 | success exactly when `data.history` is truthy, returning it unchanged; a fetch or parse error is passed on; a decoded `null` throws on reading `history`; otherwise the message is `data.error` if truthy, else 'Failed to load history' |
| PortfolioService.EmptyHistoryIsSuccess | services/PortfolioService.js:31-34 | `{history: []}` succeeds with the empty list, while `{error: m}` fails with message m |
| PortfolioService.GetRecommendation | services/PortfolioService.js:5-21 | sends the recommendation request for the stored token; the result is the reply's classification; the store is only read |
| PortfolioService.GetHistory | services/PortfolioService.js:23-36 | sends the history request for the stored token; the result is the reply's classification; the store is only read |
| HomeScreen.TrimAndDrop | screens/HomeScreen.js:26 | the kept list is no longer than the piece list |
| HomeScreen.TrimAndDropPieces | screens/HomeScreen.js:26 | every kept string is non-empty and is the trim of some piece |
| HomeScreen.TrimAndDropAppend | screens/HomeScreen.js:26 | trimming and dropping distributes over concatenation, so order is kept |
| HomeScreen.ParseTickers | screens/HomeScreen.js:26 | split on commas, trim each piece, drop the empty ones; its meaning is HomeScreen.TickersAreClean, HomeScreen.TickersAppend, HomeScreen.TickersOnePiece and HomeScreen.TickersBlank |
| HomeScreen.TickersAreClean | screens/HomeScreen.js:26 | every parsed ticker is non-empty, comma-free and has no space at either end; there are at most one more tickers than commas |
| HomeScreen.TickersAppend | screens/HomeScreen.js:26 | the tickers of `a,b` are those of `a` followed by those of `b`, so order and duplicates are kept |
| HomeScreen.TickersOnePiece | screens/HomeScreen.js:26 | comma-free text gives its trimmed self, or nothing when that is empty |
| HomeScreen.TickersBlank | screens/HomeScreen.js:26-27 | the parsed list is empty exactly when the field holds only commas and whitespace |
| HomeScreen.ErrorMessage | screens/HomeScreen.js:39 | for an error the code threw, the alert shows its message |
| HomeScreen.ShowOutcome | screens/HomeScreen.js:36-42 | the `try`/`catch`/`finally` updates once the call settled; stated by HomeScreen.CallMade and HomeScreen.Screen.Settle |
| HomeScreen.SubmitEffect | screens/HomeScreen.js:33-42 | the request sent and the settled state for a non-empty ticker list; stated by HomeScreen.CallMade |
| HomeScreen.GetPortfolioEffect | screens/HomeScreen.js:18-43 | the whole of `getPortfolio` on the screen state; its three paths are HomeScreen.NoTickerExit, HomeScreen.BlankTickersExit and HomeScreen.CallMade |
| HomeScreen.NoTickerExit | screens/HomeScreen.js:19-22 | an empty field: the first alert, no request, and nothing else changes, `loading` included |
| HomeScreen.BlankTickersExit | screens/HomeScreen.js:27-31 | a non-empty field of commas and whitespace: the second alert, no request, `loading` false, results untouched |
| HomeScreen.CallMade | screens/HomeScreen.js:33-42 | any other field: the request carries the parsed non-empty list; on success both results come from the reply; on failure they keep their values and an alert shows the message; `loading` ends false |
| HomeScreen.CallsOnlyWithTickers | screens/HomeScreen.js:27-41 | a request is sent only with a non-empty list of clean tickers, and `loading` is false at the end of every path past the first check |
| HomeScreen.Screen.constructor | screens/HomeScreen.js:11-16 | the initial state hooks: empty fields, period "1y", results `null`, not loading, no alerts |
| HomeScreen.Screen.GetPortfolio | screens/HomeScreen.js:18-43 | the new screen state and the request sent are those of the `getPortfolio` effect for the stored token and the reply |
| HomeScreen.Screen.Settle | screens/HomeScreen.js:36-42 | on success the two results are set from the reply; on failure an alert is added; `loading` is false afterwards |
| Gate.Failure | app.py:91 | a `{error: message}` response with the given status |
| Gate.ExtractToken | app.py:84-89 | a token exactly when the header splits on whitespace into exactly two words, the first exactly `Bearer`; the token is the second word |
| Gate.TokenRequired | app.py:81-96 | the handler's user id exactly when a token is extracted and decodes to a non-zero id; no token gives 403 'Token is missing!', and a bad token gives 403 'Invalid or expired token!' |
| Gate.BearerAccepted | app.py:87-89 | `Bearer`, any run of whitespace and a word: that word is the token |
| Gate.RfcCredentialsAccepted | app.py:88 | credentials written as section 2.1 of RFC 6750 shows them (`Bearer`, one space, a b64token) give that token |
| Gate.LowercaseSchemeRejected | app.py:88 | `bearer` in lower case gives no token, though section 2.1 of RFC 7235 makes schemes case-insensitive |
| Gate.ExtraWordRejected | app.py:88 | a third word after the token gives no token |
| History.OwnRows | app.py:202 | the selection keeps only rows of the user, all of them from the table |
| History.OwnRowsCount | app.py:202 | every row of the user is kept as often as the table holds it, and no other row |
| History.Insert | app.py:202 | insertion adds exactly the new row |
| History.SortNewestFirst | app.py:202 | sorting is a permutation |
| History.InsertNewestFirst | app.py:202 | inserting into a newest-first list keeps it newest first |
| History.SortIsNewestFirst | app.py:202 | the sorted rows are in non-increasing `created_at` order |
| History.SelectHistory | app.py:201-204 | `WHERE user_id = ? ORDER BY created_at DESC`; its meaning is History.SelectHistoryRows |
| History.SelectHistoryRows | app.py:201-204 | the selection is newest first, holds exactly the user's rows with their multiplicities, and only those |
| History.StrippedPieces | app.py:211 | one stripped string per comma-separated piece, in order |
| History.DecodeTickers | app.py:208-211 | NULL or empty text gives `[]`; JSON text gives its value; other text gives the stripped pieces |
| History.DecodeRecommendation | app.py:212-215 | JSON text gives its value; NULL, empty or non-JSON text gives `{}` |
| History.StoredTickersComeBack | app.py:209 | a ticker list written by `json.dumps` reads back equal |
| History.StoredRecommendationComesBack | app.py:213 | a recommendation written by `json.dumps` reads back equal |
| History.StrippedPieceClean | app.py:211 | a stripped comma-free piece is its own strip and is comma-free |
| History.TickersFallback | app.py:210-211 | non-JSON ticker text gives one more string than it has commas, each stripped and comma-free |
| History.PeriodValue | app.py:221 | a NULL period is `null`; otherwise it is the stored string |
| History.EntryOf | app.py:217-224 | the dictionary appended for one row; its members are stated by History.EntryMembers and its JSON shape by History.EntryWellFormed |
| History.Entries | app.py:206-224 | one entry per row, in row order, each the decoding of its row |
| History.EntryKeysDistinct | app.py:217-224 | an entry is a dictionary with distinct member names |
| History.EntryMembers | app.py:217-224 | an entry has exactly six members, with distinct names: `id`, `user_id`, `tickers`, `period`, `recommendation` and `created_at`. Each holds its row's value, read back |
| History.IntTextValid | app.py:218-219 | an integer id is written as a valid JSON number literal |
| History.EntryWellFormed | app.py:206-224 | every history entry is well formed: distinct member names, valid numbers, and well-formed decoded columns, whatever text the table holds |
| Server.FindUser | app.py:109 | a user is found exactly when some row has the username, and the found row is from the table and has it |
| Server.ReadCredentials | app.py:103-107 | credentials are read exactly when the body is a JSON object with non-empty string `username` and `password`; non-JSON gets the 400 page; a falsy field gets 400 'Username and password required' |
| Server.RegisterEffect | app.py:101-115 | the response of `register` and the `users` table after it; its meaning is Server.RegisterOutcome and Server.RegisterKeepsUnique |
| Server.RegisterOutcome | app.py:106-115 | 201 exactly when the credentials are present and the name is new, and then exactly one row is added; a taken name gives 'Username already exists'; every other answer leaves the table unchanged |
| Server.RegisterKeepsUnique | app.py:109-113 | `register` keeps usernames unique |
| Server.RegisterTwice | app.py:109-111 | registering the same body again is refused as taken and changes nothing |
| Server.LoginResponse | app.py:117-130 | the response of `login`; its meaning is Server.LoginOutcome |
| Server.LoginOutcome | app.py:125-130 | a token exactly when the user exists and the password checks against the stored hash, signed for that user's id; every other case with credentials present gets the same 401 |
| Server.RegisterThenLogin | app.py:125-128 | after a successful register, login with the same body is signed for the new row's id when the hash check accepts |
| Server.ReadPortfolioInput | app.py:157-162 | input is read exactly when the body is an object whose `tickers` is a non-empty list; `tickers` is that list, and `period` and `budget` are the members given, with "1y" and 0 when absent; a body that is not JSON gets the 400 page and JSON that is not an object the 500 page; otherwise the 400 'Tickers (as a list) are required' |
| Server.PeriodColumn | app.py:187 | a string period is stored as is and `null` as NULL; a list or dictionary cannot be stored |
| Server.NewRow | app.py:180-189 | the row inserted: the caller, the tickers and the recommendation as `json.dumps` writes them, the period column and the timestamp; stated by Server.PortfolioOutcome |
| Server.Recommended | app.py:192-195 | the 200 answer with the recommendation and the projected profit |
| Server.PortfolioFor | app.py:156-195 | the `portfolio` handler: its response and the history table after it; its meaning is Server.PortfolioOutcome, Server.PeriodDefault and Server.StoredTickersReadBack |
| Server.PortfolioEffect | app.py:154-195 | `/api/portfolio`: the gate, then the handler; its meaning is Server.PortfolioGuarded |
| Server.PortfolioOutcome | app.py:157-190 | a bad body gets its 400 with no row stored; a row is stored exactly on a 200, for the caller, holding the tickers as `json.dumps` wrote them |
| Server.PortfolioGuarded | app.py:154-156 | without a usable token the route answers the gate's 403 and stores nothing |
| Server.PeriodDefault | app.py:159 | without a `period` member the stored period is "1y" |
| Server.StoredTickersReadBack | app.py:186 | the tickers a successful call stores decode back to the list the request held |
| Server.PortfolioThenHistory | app.py:180-224 | after a successful call, the caller's history holds an entry whose `tickers` is the list the request held |
| Server.HistoryFor | app.py:199-225 | the `get_history` handler's response; its meaning is Server.HistoryOutcome and Server.HistoryAnswerWellFormed |
| Server.HistoryResponse | app.py:197-225 | `/api/get_history`: the gate, then the handler; stated by Server.HistoryOutcome |
| Server.HistoryAnswerWellFormed | app.py:206-225 | the history answer is a well-formed JSON value for every table, so the client reads it back whole |
| Server.HistoryOutcome | app.py:197-225 | the gate's 403 without a usable token; otherwise 200 with one entry per row of the caller, newest first, and no other user's row |
| Server.Backend.constructor | app.py:44-61 | both tables start empty and the table invariant holds |
| Server.Backend.Register | app.py:101-115 | the response and the new `users` table are the register effect; the invariant (unique names, increasing ids) is kept; history is untouched |
| Server.Backend.Login | app.py:117-130 | the response is the login response over the current table |
| Server.Backend.PortfolioRoute | app.py:154-195 | the response and the new history are the gate followed by the portfolio handler; the invariant is kept; users are untouched |
| Server.Backend.Portfolio | app.py:156-195 | the response and the new history are the handler's effect for the caller; the row id advances exactly when a row is stored |
| Server.Backend.HistoryRoute | app.py:197-199 | the response is the gate followed by the history handler |
| Server.Backend.GetHistory | app.py:199-225 | the loop's list is exactly one decoded entry per selected row, and the response carries it |
| EndToEnd.Wire | app.py:192-195 | the client receives the status, and for a `jsonify` body the printed JSON of the value |
| EndToEnd.ClientDecodesResponse | services/AuthService.js:11 | the client decodes a well-formed `jsonify` body to the value the server gave |
| EndToEnd.ErrorPageIsBadJson | services/AuthService.js:11 | an HTML error page fails `response.json()` |
| EndToEnd.ServerMessageShown | services/AuthService.js:16 | a server `{error: m}` with non-empty m surfaces on the client as an error with message m |
| EndToEnd.RegistrationSeen | services/AuthService.js:26-28 | registering a new name adds the user row and `registerUser` returns true |
| EndToEnd.RegisteredSeen | services/AuthService.js:27 | the 201 `register` answer reads as success on the client |
| EndToEnd.CredentialsReachServer | services/AuthService.js:9 | the credential body the client sends reads back on the server as the two strings |
| EndToEnd.LoginTokenAccepted | services/AuthService.js:12-14 | an accepted login: the client gets the signed token, and the next protected request carries it in a header the gate accepts |
| EndToEnd.BearerCarried | services/PortfolioService.js:11 | a stored whitespace-free token comes out of the protected request's header unchanged |
| EndToEnd.MissingTokenRejected | services/PortfolioService.js:27 | with nothing stored the client sends `Bearer null`, and the gate rejects it as an invalid token; this holds for a `decode` that rejects the text `null`, as PyJWT does for a string that is not a JWT |
| EndToEnd.RecommendationReachesServer | services/PortfolioService.js:13 | the server reads the screen's tickers, period and budget from the body; a non-empty list passes validation, and an empty one gets the 400 |
| EndToEnd.ScreenRequestsPassValidation | screens/HomeScreen.js:35 | every request the screen sends passes the server's `tickers` check, with the parsed list |
| EndToEnd.HistorySeen | services/PortfolioService.js:23-35 | whatever the table holds, `getHistory` returns exactly the caller's entries, newest first, the empty list included; without a usable token it throws the gate's message |

## Left out

- Floating point. JSON numbers are held as their literal text. The budget number `parseFloat` gives (or 0), the projected-profit formula, `float(period.strip('y'))` and weight rounding are parameters (`budgetValue`, `profit`, `optimize`) or are not modelled.
- The optimiser, JWT, hashing and the clock. Price download and mean-variance optimisation are one `optimize` parameter; its failure carries the `str(e)` text. The JWT library is `sign` and `decode`. Password hashing is `hash` and `verify`. `CURRENT_TIMESTAMP` is `now`.
- Gate.TokenRequired: `decode` returns an optional integer id, so a payload without `user_id` (a `KeyError`, hence a 500) and a non-integer `user_id` are not modelled.
- I/O and asynchrony. `fetch`, `response.json()`, AsyncStorage and SQLite connections are values. Calls are sequential; concurrent requests, and a logout racing a request, are not modelled.
- Engine wording of runtime errors (`fetch` failure, JSON syntax error, a property read on `null`) is not modelled. The alert carries the error kind instead of its text.
- AsyncStorage stores strings. The slot here holds the JSON value login was given, so a non-string token is not converted to text.
- Python's and JavaScript's parsers accept lone surrogate escapes, and Python's accepts `NaN` and `Infinity`. The model's parser rejects them all, so in those cases the fallback paths apply.
- EndToEnd.Wire: the body is the output of one of the two printing styles. Flask's `jsonify` key sorting and spacing are not modelled. Member order does not affect any property read the client makes.
- EndToEnd.Wire: only the first line of Flask's HTML error page is modelled. That is enough to show it is not JSON.
- Flask's content-type requirement on `request.get_json()` (the 415 answer for a non-JSON content type) is not modelled. Every body is parsed.
- Server.ReadCredentials: in the model, a truthy username or password that is not a string gets the 500 page. The code does that only for some such values:
  - A number or boolean username with a string password is stored and compared as text by SQLite (`True` as `1`). Register then answers 201, and login answers 200 or 401.
  - A list or dictionary username fails when SQLite binds it, so the answer is 500.
  - A non-string password fails in the hash function, so register answers 500. Login answers 500 only when the user exists; otherwise it answers 401 without hashing.
- Server.PeriodColumn: a boolean period is stored as `1` or `0`, and a number as its literal. SQLite's text conversion of a float may write a number differently.
- History.SortNewestFirst: rows with equal `created_at` come out later-inserted first. SQLite leaves that order unspecified.
- JsonCodec: `json.dumps` on a recommendation is modelled for the JSON values that reach it; Python objects that are not JSON values are not.
- The presentation layer is not modelled: `App.js`, `index.js`, the login, register and history screens, the chart and all JSX and styles.
