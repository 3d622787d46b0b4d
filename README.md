# NSE live-quote dashboard: a Dafny model of its front-end logic

The dashboard is a React front end. Users sign up or sign in. The live table is fed by a quote stream
(the LTP view). A sidebar lists four "top 20" categories. A chart page shows one stock's price history.
Most of the code is presentation. This project models the parts that carry logic:

- **Live quote table** (`liveltp.dfy`, module `LiveLtp`). Each stream message is a full snapshot. It is
  merged against the stored rows (all of `stockData`, not only the filtered rows the table shows):
  each row gets `prevLivePrice`, taken from the first stored row with the same symbol, or else its
  own `livePrice`. The rows are then filtered by a
  case-insensitive search on name or symbol. Each price is classified as rising, falling or unchanged.
  The view's state is a class: the rows, the search text and whether a stream is open. Messages and
  token changes are methods on it.
- **Form rules** (`formrules.dfy`, `signup.dfy`, `signin.dfy`). The rules the forms give react-hook-form
  are written as data: required, minimum length, pattern, and equality with another field. They are
  applied in that library's order, and the first failure's message is the field's error. On top of
  this: the sign-up form's six fields, the sign-in form's two fields, the sign-in e-mail pattern
  `^\S+@\S+\.\S+$`, the browser's own check of the `type="email"` inputs (which runs before
  react-hook-form, since neither form sets `noValidate`), and the requests each form sends.
- **Session** (`browser.dfy`, `context.dfy`, `signin.dfy`, `sidebar.dfy`). `localStorage` is a class
  over a string map. `DataContext` is a class whose token and role are read from the store when it is
  created. Sign-in success writes the role and the token and sets the context token. Logout empties
  the store.
- **Sidebar** (`sidebar.dfy`). Default category, menu clicks, the highlighted item, the heading
  (`replace("top20", "")`) and the listed entries.
- **Chart hand-off** (`chartpage.dfy`). The live table stores the chart response only after its own
  guard; the chart page applies a different guard. The chart page then maps candles to points with
  `price = close`, and its back button removes only `chartData`.

Prices are JavaScript numbers. The code only compares and copies them, so they are `int` here.

Behaviour worth knowing:
- `setToken` only updates memory. The sign-in page writes the token to the store itself.
- Logout clears only the store. The context token stays in memory until the page is reloaded.
- The sign-up request body is the whole form, `confirmPassword` included.
- When a sign-in succeeds but its token is missing or does not decode, `jwtDecode` throws before
  the first write. Nothing catches the exception: the effect has no `try`, and the app has no error
  boundary.

## Model

| member | source | states |
|---|---|---|
| `Strings.ContainsIff` | src/pages/LiveLtp.jsx:96-97 | `includes` holds exactly when the needle occurs at some offset of the text |
| `Strings.ContainsTransitive` | src/pages/LiveLtp.jsx:96-97 | substring containment is transitive (used for the narrowing search) |
| `Strings.LowerAppend` | src/pages/LiveLtp.jsx:96-97 | lower-casing distributes over concatenation |
| `Strings.ReplaceFirstOccurrence` | src/pages/Sidebar.jsx:67 | `replace` with a string pattern and a replacement without `$` patterns (here "") replaces the first occurrence and nothing else |
| `Strings.ReplaceFirstAbsent` | src/pages/Sidebar.jsx:67 | without an occurrence `replace` returns the text unchanged |
| `Browser.JsString` | src/Auth/SignIn.jsx:41 | `setItem` stores a string as itself, `undefined` as "undefined" and `null` as "null" |
| `Browser.Lookup` | src/hooks/DataContext.jsx:9 | `getItem` yields the stored text exactly when the key is present, else null |
| `Browser.LocalStorage.SetItem` | src/Auth/SignIn.jsx:41 | `setItem` overwrites one key and keeps every other |
| `Browser.LocalStorage.RemoveItem` | src/pages/ChartPage.jsx:66 | `removeItem` drops one key and keeps every other |
| `Browser.LocalStorage.Clear` | src/pages/Sidebar.jsx:28 | `clear` leaves the store empty |
| `Context.InitialSession` | src/hooks/DataContext.jsx:8-17 | token and role are the stored `encoded_token`/`userRole` or null; `empNo` is "" and `positionStreamData` empty |
| `Context.NoStoredTokenNoSession` | src/hooks/DataContext.jsx:8-11 | a store without `encoded_token` yields an unauthenticated session |
| `Context.DataContext.constructor` | src/hooks/DataContext.jsx:8-17 | the context starts as the initial session of the store's contents |
| `Context.DataContext.SetToken` | src/hooks/DataContext.jsx:8-11 | the token changes; role, `empNo` and `positionStreamData` do not |
| `Context.DataContext.SetUserRole` | src/hooks/DataContext.jsx:12-15 | the role changes; every other field stays |
| `Context.DataContext.SetEmpNo` | src/hooks/DataContext.jsx:16 | `empNo` changes; every other field stays |
| `Context.DataContext.SetPositionStreamData` | src/hooks/DataContext.jsx:17 | `positionStreamData` changes; every other field stays |
| `LiveLtp.FindBySymbol` | src/pages/LiveLtp.jsx:31-33 | `find` yields the first row with the symbol, or reports that no row has it |
| `LiveLtp.MergeLength` | src/pages/LiveLtp.jsx:30 | the merged list is as long as the snapshot |
| `LiveLtp.MergeAt` | src/pages/LiveLtp.jsx:30-40 | the i-th merged row is the i-th snapshot quote tagged against the stored rows |
| `LiveLtp.MergeKeepsSnapshot` | src/pages/LiveLtp.jsx:29-41 | the merged list has the snapshot's length and order, and each row keeps every field of its incoming quote |
| `LiveLtp.MergeHit` | src/pages/LiveLtp.jsx:31-38 | a symbol stored before takes the first matching row's `livePrice` as `prevLivePrice`; its direction compares with that price |
| `LiveLtp.MergeMiss` | src/pages/LiveLtp.jsx:36-38 | a symbol not stored before takes its own `livePrice` as `prevLivePrice` and shows no direction |
| `LiveLtp.MergeDropsStale` | src/pages/LiveLtp.jsx:29-41 | a symbol absent from the snapshot never appears in the merged list |
| `LiveLtp.MergeFromEmpty` | src/pages/LiveLtp.jsx:29-41 | merging against an empty table gives `prevLivePrice == livePrice` for every row |
| `LiveLtp.RemergeIsFlat` | src/pages/LiveLtp.jsx:29-41 | a snapshot with unique symbols received twice shows every row flat the second time |
| `LiveLtp.RepeatedSymbolFlickers` | src/pages/LiveLtp.jsx:31-33 | with a repeated symbol the second copy compares with the first copy's price (first match wins) |
| `LiveLtp.MergeExample` | src/pages/LiveLtp.jsx:29-41 | TCS 100 then [TCS 105, INFY 50] merges to [TCS 105 prev 100, INFY 50 prev 50] |
| `LiveLtp.DirectionOf` | src/pages/LiveLtp.jsx:135-140 | a price is exactly one of rising (`>`), falling (`<`) or unchanged |
| `LiveLtp.PriceColorOfRow` | src/pages/LiveLtp.jsx:135-140 | a price is green exactly when it rose, red exactly when it fell, white otherwise |
| `LiveLtp.SubsequenceCons` | src/pages/LiveLtp.jsx:94 | adding an element in front keeps a subsequence a subsequence |
| `LiveLtp.FilterCounts` | src/pages/LiveLtp.jsx:94-98 | every copy of a matching row is kept and no copy of another row |
| `LiveLtp.FilterMembership` | src/pages/LiveLtp.jsx:94-98 | a row is shown exactly when it is in the table and its lower-cased name or symbol contains the lower-cased query |
| `LiveLtp.FilterSubsequence` | src/pages/LiveLtp.jsx:94-98 | the shown rows are an order-preserving subsequence of the table |
| `LiveLtp.FilterEmptyQuery` | src/pages/LiveLtp.jsx:94-98 | an empty search shows the whole table |
| `LiveLtp.MatchesNarrows` | src/pages/LiveLtp.jsx:96-97 | a row matching a query also matches every query the first one's lower-cased form contains |
| `LiveLtp.FilterNarrows` | src/pages/LiveLtp.jsx:94-98 | a query containing another (lower-cased) shows a subsequence of what the other shows |
| `LiveLtp.TypingNarrows` | src/pages/LiveLtp.jsx:94-98 | typing more characters into the search only removes rows |
| `LiveLtp.LiveQuoteView.constructor` | src/pages/LiveLtp.jsx:8-9 | the view starts with no rows, an empty search and no stream |
| `LiveLtp.LiveQuoteView.OnTokenChange` | src/pages/LiveLtp.jsx:14-22 | a stream is open exactly for a truthy token; a falsy token opens none; the rows are untouched |
| `LiveLtp.LiveQuoteView.OnMessage` | src/pages/LiveLtp.jsx:26-45 | a parsed snapshot replaces the rows by its merge against them; a failed parse changes nothing |
| `LiveLtp.LiveQuoteView.SetSearchQuery` | src/pages/LiveLtp.jsx:113 | the search text changes; the rows do not |
| `FormRules.IndexOfFrom` | src/Auth/SignIn.jsx:97 | finds the first occurrence of a character at or after an offset, or reports none |
| `FormRules.LastIndexOf` | src/Auth/SignIn.jsx:97 | finds the last occurrence of a character, or reports none |
| `FormRules.EmailMatchIsRegex` | src/Auth/SignIn.jsx:96-99 | the matcher accepts exactly non-empty, white-space-free runs split as `x@y.z` |
| `FormRules.DomainOf` | src/Auth/SignIn.jsx:104 | the domain of an address is the text after its first '@' ("" without one) |
| `FormRules.DomainChars` | src/Auth/SignIn.jsx:104 | a browser-valid domain is non-empty, has no dot at either end and holds only letters, digits, '-' and '.' |
| `FormRules.AddressChars` | src/Auth/SignUp.jsx:117 | a browser-valid e-mail address has exactly one '@' and no white space |
| `FormRules.ValidAddressRegexIff` | src/Auth/SignIn.jsx:97-104 | for a browser-valid address, `^\S+@\S+\.\S+$` holds exactly when its domain has a dot |
| `FormRules.ErrorKeysRegistered` | src/Auth/SignUp.jsx:69-167 | errors are reported only under registered field names |
| `FormRules.ErrorOfField` | src/Auth/SignUp.jsx:69-167 | a field has an error exactly when one of its rules fails, and the error is the first failing rule's message |
| `FormRules.ErrorsEmptyIff` | src/Auth/SignUp.jsx:61 | a form passes exactly when every field passes its rules |
| `SignUp.RegistryDistinct` | src/Auth/SignUp.jsx:69-167 | the six fields are registered under distinct names |
| `SignUp.NameRules` | src/Auth/SignUp.jsx:69-88 | first and last name are rejected with their messages exactly when empty |
| `SignUp.MobileRule` | src/Auth/SignUp.jsx:99-105 | the mobile number passes exactly when it is ten characters, all '0'..'9'; empty and malformed get their messages |
| `SignUp.EmailRule` | src/Auth/SignUp.jsx:118 | the e-mail address has only a required rule: any non-empty text passes |
| `SignUp.PasswordRule` | src/Auth/SignUp.jsx:132-138 | the password passes exactly at six characters or more; empty and short get their messages |
| `SignUp.ConfirmPasswordRule` | src/Auth/SignUp.jsx:163-167 | the confirmation passes exactly when non-empty and equal to the current password |
| `SignUp.SignUpAcceptedIff` | src/Auth/SignUp.jsx:61-167 | the form passes exactly when all six field rules hold |
| `SignUp.HandleSubmit` | src/Auth/SignUp.jsx:35-38 | a request is sent exactly when the browser accepts the e-mail input and every field rule holds: one POST of the whole form to `/api/auth/signup`, then the form is reset; a browser refusal leaves values and errors as they were; a rule failure keeps the values and reports the errors |
| `SignUp.ShownIncludes` | src/Auth/SignUp.jsx:72-73 | a message stored under a displayed key is rendered |
| `SignUp.ShownNothing` | src/Auth/SignUp.jsx:72-73 | with no error under any displayed key nothing is rendered |
| `SignUp.NameMessagesNeverShownAsWritten` | src/Auth/SignUp.jsx:72-88 | as written, the first- and last-name keys never contribute a message, for every input |
| `SignUp.BlankFirstNameBlocksSilently` | src/Auth/SignUp.jsx:69-89 | a blank first name with all else valid (the e-mail address also to the browser) blocks submission with only the first-name error, while no message is rendered |
| `SignUp.BlankFirstNameExample` | src/Auth/SignUp.jsx:69-89 | one concrete such form |
| `SignUp.RegisteredKeysShowAll` | src/Auth/SignUp.jsx:69-167 | display keys equal to the registered names render every reported error |
| `SignUp.ExampleAddressValid` | src/Auth/SignUp.jsx:117 | "a@b.in" passes the browser's e-mail check |
| `SignUp.EveryErrorShown` | src/Auth/SignUp.jsx:69-167 | reading the registered names, every reported error is rendered |
| `SignIn.RegistryDistinct` | src/Auth/SignIn.jsx:91-124 | the two fields have distinct names |
| `SignIn.EmailRule` | src/Auth/SignIn.jsx:94-100 | the e-mail address passes exactly when it matches `^\S+@\S+\.\S+$`; empty and malformed get their messages |
| `SignIn.PasswordRule` | src/Auth/SignIn.jsx:124 | the password has only a required rule |
| `SignIn.DefaultsRejected` | src/Auth/SignIn.jsx:31-34 | the default empty fields both fail with their required messages |
| `SignIn.Payload` | src/Auth/SignIn.jsx:57-61 | the payload holds exactly the form's e-mail address and password |
| `SignIn.HandleSubmit` | src/Auth/SignIn.jsx:57-63 | a POST of the payload to `/api/auth/signin` is sent exactly when the browser accepts the e-mail input and both field rules pass |
| `SignIn.SentAddressIff` | src/Auth/SignIn.jsx:91-104 | a request is sent exactly when the e-mail address is browser-valid with a dotted domain and the password is non-empty |
| `SignIn.UndottedDomainRejectedByPattern` | src/Auth/SignIn.jsx:97-104 | "a@b" passes the browser's check but not the pattern |
| `SignIn.SecondAtRejectedByBrowser` | src/Auth/SignIn.jsx:97-104 | "a@b@c.d" matches the pattern but fails the browser's check |
| `SignIn.DomainPunctuationRejectedByBrowser` | src/Auth/SignIn.jsx:97-104 | "a@b.c!" matches the pattern but fails the browser's check |
| `SignIn.Decode` | src/Auth/SignIn.jsx:40 | claims come back only for a string token containing a '.'; anything else throws |
| `SignIn.AbsentTokenNotDecoded` | src/Auth/SignIn.jsx:40 | a response without a token throws in `jwtDecode` |
| `SignIn.DecodedTokenTruthy` | src/Auth/SignIn.jsx:40 | a token that decodes is a non-empty string |
| `SignIn.SignInWrites` | src/Auth/SignIn.jsx:41-47 | the store gains `userRole` (the role claim as text) and `encoded_token` (the token); every other key stays |
| `SignIn.OnQueryChange` | src/Auth/SignIn.jsx:38-55 | on success with a decodable token: role and token stored, form reset, context token set, navigation to "/layout"; on success with a token that does not decode (always so for an absent one) the exception escapes before any write; otherwise nothing is written |
| `SignIn.ReloadAfterSignIn` | src/Auth/SignIn.jsx:41-47 | a fresh context after sign-in reads back the written token and role |
| `SignIn.ReloadKeepsToken` | src/hooks/DataContext.jsx:8-11 | a token the effect accepted survives a reload unchanged and authenticates |
| `SignIn.MissingRoleStoredAsText` | src/Auth/SignIn.jsx:41 | a missing role claim is stored as "undefined", a null one as "null", and read back as such |
| `Sidebar.ExactlyOneHighlighted` | src/pages/Sidebar.jsx:54-55 | for a menu key exactly one item is highlighted |
| `Sidebar.HeadingOfMenuKey` | src/pages/Sidebar.jsx:67 | the heading of each menu key is the key without its leading "top20" |
| `Sidebar.DefaultHeading` | src/pages/Sidebar.jsx:10 | the default heading is "High_Volumes" |
| `Sidebar.HeadingWithoutPrefix` | src/pages/Sidebar.jsx:67 | a category without "top20" is its own heading |
| `Sidebar.Shown` | src/pages/Sidebar.jsx:70-78 | the list is the category's entries, in order, when non-empty; otherwise the placeholder |
| `Sidebar.SidebarView.constructor` | src/pages/Sidebar.jsx:9-10 | no data, category "top20High_Volumes" |
| `Sidebar.SidebarView.OnData` | src/pages/Sidebar.jsx:16-20 | a truthy response replaces the data wholesale; a null one changes nothing |
| `Sidebar.SidebarView.HandleMenuClick` | src/pages/Sidebar.jsx:34-43 | a click selects that item's key, always one of the four menu keys |
| `Sidebar.HandleClickLogout` | src/pages/Sidebar.jsx:22-31 | the store ends empty and navigation goes to "/signin" |
| `Sidebar.ReloadAfterLogout` | src/pages/Sidebar.jsx:22-29 | after logout a fresh context has no token and no role |
| `ChartPage.ReaderAcceptedWasWritable` | src/pages/ChartPage.jsx:37-41 | whatever the chart page accepts, the live table's guard let through |
| `ChartPage.GuardsDisagree` | src/pages/LiveLtp.jsx:76-79 | a non-empty candle array, or an object with missing or empty `data`, passes the table's guard and is rejected by the chart page |
| `ChartPage.FormatCandles` | src/pages/ChartPage.jsx:50-57 | one point per candle in the same order, `price` equal to the candle's `close` |
| `ChartPage.XAxisFindsNothing` | src/pages/ChartPage.jsx:89-94 | no chart point has a `time` value, the key the X axis reads (points hold only `dateTime` and `price`) |
| `ChartPage.ChartView.constructor` | src/pages/ChartPage.jsx:30-31 | no points and no stock |
| `ChartPage.ChartView.Load` | src/pages/ChartPage.jsx:33-60 | missing stock or rejected chart data: redirect to "/" with nothing set; otherwise the stock is set and the candles become the points |
| `ChartPage.ChartView.Back` | src/pages/ChartPage.jsx:65-68 | only `chartData` is removed from the store; navigation goes to "/layout" |

## Left out

- The WebSocket lifecycle (src/pages/LiveLtp.jsx:14-54) is I/O. A message is the already parsed snapshot, or `None` when `JSON.parse` throws.
- A message that parses but is not an array of quotes (or holds `null`) makes `receivedData.map` throw inside the `setStockData` updater, which React runs outside the handler's `try` (src/pages/LiveLtp.jsx:29-41). That render error is not modelled; payloads are well-formed arrays of quotes.
- LiveLtp.LiveQuoteView.OnTokenChange: does not model a `new WebSocket` that throws (src/pages/LiveLtp.jsx:51-53). Such a socket is network I/O; the model treats it as an open stream.
- The chart-data `fetch` in `handleRowClick` (src/pages/LiveLtp.jsx:56-91) is network I/O. Only its guard at line 76 is modelled, as `ChartPage.WriterAccepts`.
- `useCustomQuery` is not part of this model. Its request state is an input (`SignIn.QueryState`), and requests are values (`FormRules.Request`).
- SignIn.OnQueryChange: does not model what an exception escaping the effect does. When `jwtDecode` throws (src/Auth/SignIn.jsx:40), React unmounts the whole app (src/App.jsx has no error boundary). The model reports the throw as `thrown` and shows only that store, context, form and navigation stay as they were.
- `jwtDecode` is a foreign library. `SignIn.Decode` models its first checks (a non-string or a string without a '.' throws). Decoding the payload part of other strings (base64url and JSON) is a function parameter that may throw or give claims.
- A role claim that is a number, a boolean or an object (stored as its `String` form) is not modelled; a role is a string, `null` or `undefined`.
- The browser's `type="email"` check is modelled for ASCII addresses. The conversion of non-ASCII domains to punycode, and the browser's own error bubble, are left out. Values are the sanitised input values: the browser strips line breaks and surrounding white space from an e-mail input before anyone reads it.
- `toast`, `console`, framer-motion, recharts, react-zoom-pan-pinch and all JSX rendering and styling are left out. Navigation targets are returned as values.
- `toFixed`, `toLocaleString` and `new Date(...).toLocaleString()` are locale and floating-point formatting. The date text of a chart point comes from a function parameter.
- JSON serialisation of `selectedStock`/`chartData` is left out. The chart page receives the parsed values.
- `toLowerCase` is modelled for ASCII letters only; JavaScript folds every Unicode letter.
- String lengths (`minLength`) count characters; JavaScript counts UTF-16 code units.
- `\s` is modelled as ECMAScript's fixed list of white-space and line-terminator code points.
- The react-hook-form engine is reduced to its rule order and first-error reporting. Validation mode, re-validation timing and `criteriaMode` are left out.
- The show/hide password toggles of both forms are presentation.
- src/pages/LandingPage.jsx, src/pages/LayoutPage.jsx and src/App.jsx are static content, a menu toggle and a route table.
- All commented-out components (src/Auth/SignUp.jsx:202-408, src/Auth/SignIn.jsx:176-372, src/pages/LiveLtp.jsx:207-360) are dead code. This includes the sign-up e-mail pattern at src/Auth/SignUp.jsx:310.
- The sign-up success effect (src/Auth/SignUp.jsx:26-33) only notifies and navigates.

## Findings

| source | as written | input that shows it | evidently intended | confidence | as-written member | corrected member |
|---|---|---|---|---|---|---|
| src/Auth/SignUp.jsx:72-73, 87-88 | the page reads `errors.firstName` and `errors.lastName`, but the fields are registered as `firstname` and `lastname`, so these messages never render | firstname "", lastname "Rao", mobile "9876543210", email "a@b.in", password and confirmPassword "secret": the submit is blocked and no message is shown | read `errors.firstname` and `errors.lastname` | high (not executed) | `SignUp.BlankFirstNameBlocksSilently` | `SignUp.EveryErrorShown` |
