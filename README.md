# capchain-backend gateway core, modelled in Dafny

The gateway in `app.js` is an Express server that proxies CoinGecko market
data and relays text messages through Mailjet. Most of the file is wiring.
This project models the pure logic inside its route handlers and proves
properties of it:

- **SMS normalisation** (`SmsText`). `/send-sms` rewrites the message with
  `sms.trim().replace(/\n\s*\n/g, '\n')`. `JsString` defines JavaScript's
  white-space class, the one shared by `trim` and `\s`: WhiteSpace plus
  LineTerminator, with `'\n'` included. It also defines `trim` itself.
  `SmsText.CollapseBlankLines` is the global replace, written as the
  left-to-right scan the regular-expression engine performs. The greedy
  `\s*` backs off until a line break follows, so a match ends at the last
  line break of its white-space run.
- **Upstream URLs** (`CoinGecko`). These are the four template-literal URLs
  of `/coins`, `/singlecoin`, `/coin` and `/coinmarketchart`.
  `QueryString` gives the independent reading they are proved against: the
  path, and the `key=value` parameters of the query.
- **Replies** (`Gateway`). The awaited upstream call becomes a parameter of
  type `Outcome`: `Resolved(status, body)` or `Thrown`. Each handler becomes
  a total function from that outcome to the `(status, payload)` it writes
  into `{ response: payload }`. The error middleware is modelled the same
  way.

Behaviours of the code worth knowing:

- The listing passes the upstream body through only when upstream answers
  with status 200.
- On another resolved status the listing answers with the whole bundled
  `data` module. When the call throws, it answers with `data.coins`.
- `per_page` falls back to 6 only when `no` is the empty string. Express
  never matches an empty `:no` route parameter, so through routing the
  default is never used. `"0"` and negative numbers are forwarded as given.
- No route parameter is validated or escaped before it goes into a URL.
- The SMS provider is chosen by a literal `if (false)`, so Mailjet is
  always used.
- `/send-sms` answers status 200 with the text `'An error occurred'` once
  the post resolves, and 500 with the same text when anything before or
  during the post throws.

## Model

| member | source | states |
|---|---|---|
| JsString.Trim | app.js:129 | `trim` yields the slice of the input that starts at its first non-white-space character and has no white-space margins; everything outside the slice is white space |
| JsString.TrimKeepsVisible | app.js:129 | trimming removes white space only: the visible characters are unchanged and in order |
| JsString.ToLowerAscii | app.js:97 | the lower-cased id has the same length and maps every character through ASCII lower-casing |
| JsString.LowerCharEqualIff | app.js:97 | two characters lower-case alike exactly when they are equal or are the same ASCII letter with codes 32 apart |
| JsString.LowerEqualIff | app.js:97 | two ids lower-case to the same text exactly when they have the same length and, position by position, the same character or the same ASCII letter in the other case |
| SmsText.LastNewline | app.js:129 | the backtracking of the greedy `\s*` finds the last line break before the limit, or reports that there is none |
| SmsText.BlankRunMatch | app.js:129 | a match of `/\n\s*\n/` is white space only, starts and ends with a line break and is at least two long; what follows it starts with white space free of line breaks; where a line break does not start a match, the white space after it holds no other line break |
| SmsText.CollapseLeavesNoBlankLines | app.js:129 | after the global replace, no two line breaks are separated by white space only |
| SmsText.CollapseFixesClean | app.js:129 | text without blank lines is left unchanged by the replace |
| SmsText.CollapseKeepsVisible | app.js:129 | the replace removes white space only |
| SmsText.CollapseKeepsFirst | app.js:129 | a text starting with a visible character still starts with it after the replace |
| SmsText.CollapseKeepsLast | app.js:129 | a text ending with a visible character still ends with it after the replace |
| SmsText.CollapseBlankLines | app.js:129 | the global replace; its contract is stated by `BlankRunMatch` and the `Collapse*` lemmas below |
| SmsText.Normalise | app.js:129 | `trim` followed by the global replace; its contract is stated by the `Normalise*` lemmas below and by `Gateway.PostedTextIsNormal` |
| SmsText.NormaliseShape | app.js:129 | the normalised message has no leading or trailing white space and no two line breaks separated by white space only |
| SmsText.NormaliseKeepsVisible | app.js:129 | normalisation keeps every visible character of the message, in order |
| SmsText.NormaliseFixedPoints | app.js:129 | a message is left unchanged by normalisation exactly when it has no white-space margins and no blank lines |
| SmsText.NormaliseIdempotent | app.js:129 | normalising twice gives the same text as normalising once |
| SmsText.NormaliseExample | app.js:129 | `"Hello\n\n\nWorld"` normalises to `"Hello\nWorld"` |
| CoinGecko.PerPage | app.js:65 | `no \|\| 6` is `no` when it is non-empty and `"6"` when it is empty |
| CoinGecko.MarketsUrl | app.js:65 | the `/coins` upstream URL; its contract is stated by `MarketsUrlReadsBack` |
| CoinGecko.SingleCoinUrl | app.js:81 | the `/singlecoin` upstream URL; its contract is stated by `SingleCoinUrlReadsBack` and `SingleCoinUrlKeepsCase` |
| CoinGecko.CoinUrl | app.js:97 | the `/coin` upstream URL; its contract is stated by `CoinUrlReadsBack` and `CoinUrlIgnoresCase` |
| CoinGecko.MarketChartUrl | app.js:112 | the `/coinmarketchart` upstream URL; its contract is stated by `MarketChartUrlReadsBack` and `MarketChartUrlIgnoresCase` |
| CoinGecko.MarketsUrlReadsBack | app.js:65 | for `no` and `pageNumber` without `&` or `#`, the `/coins` URL has the markets path and exactly the parameters `vs_currency=usd`, `order=market_cap_desc`, `per_page` = `no` or 6, `page` = `pageNumber` verbatim, `sparkline=false` and `price_change_percentage=24h`, in that order |
| CoinGecko.SingleCoinUrlReadsBack | app.js:81 | for an id without `?` or `#`, the `/singlecoin` URL is the coin path with the id as given, and it has no query |
| CoinGecko.CoinUrlReadsBack | app.js:97 | for an id without `?` or `#`, the `/coin` URL is the coin path with the lower-cased id, plus the six fixed parameters (localization, tickers, market_data, community_data, developer_data, sparkline) |
| CoinGecko.MarketChartUrlReadsBack | app.js:112 | for an id without `?` or `#` and a range without `&` or `#`, the chart URL is the lower-cased coin's `market_chart` path, with exactly `vs_currency=usd`, `days` = `range` and `interval=hourly` |
| CoinGecko.CoinUrlIgnoresCase | app.js:97 | two ids give the same `/coin` request exactly when they differ only in ASCII case |
| CoinGecko.MarketChartUrlIgnoresCase | app.js:112 | with the same range, two ids give the same chart request exactly when they differ only in ASCII case |
| CoinGecko.SingleCoinUrlKeepsCase | app.js:81 | two ids give the same `/singlecoin` request exactly when they are equal, case included |
| CoinGecko.BtcExample | app.js:81-112 | `BTC` and `btc` give the same `/coin` and chart requests but different `/singlecoin` requests |
| Gateway.CoinsReply | app.js:62-75 | status is always 200; the payload is the upstream body on status 200, the whole `data` module on any other resolved status, and `data.coins` when the call throws |
| Gateway.CoinsNeverFails | app.js:66-74 | the listing never answers with an error message; anything but a 200 from upstream is answered from the bundled data |
| Gateway.MarketReply | app.js:82-90 | for `/singlecoin` (and identically `/coin`, lines 98-105, and `/coinmarketchart`, lines 113-120): a resolved 200 gives 200 with the upstream body, another resolved status gives 300 with `'An error occurred'`, and a throw gives 500 with `'An error occurred'` |
| Gateway.MarketStatusTellsOutcome | app.js:113-120 | a market reply's status is 200, 300 or 500 exactly when the upstream resolved with 200, resolved otherwise, or threw; only a 200 carries upstream data |
| Gateway.Interpolate | app.js:164-168 | `${v}` is the string itself for a string, `"undefined"` for an absent field and `"null"` for null; it throws exactly for a value whose ToString throws |
| Gateway.SendSms | app.js:124-177 | a payload is posted exactly when `sms` is a string and `${phone}` and `${from}` do not throw; it is the normalised `sms` with `phone` and `from` as text, sent to the Mailjet SMS endpoint; the status is 200 exactly when the payload was posted and the post resolved, otherwise 500; the message is always `'An error occurred'` |
| Gateway.SmsReplyIgnoresProvider | app.js:170-172 | the `/send-sms` result depends on the provider's answer only through whether the post resolved |
| Gateway.PostedTextIsNormal | app.js:129-168 | for a string `sms` and a phone and sender that interpolate, the posted `Text` has no white-space margins and no blank lines, keeps every visible character, and is already normalised |
| Gateway.ErrorReply | app.js:180-184 | for an error object, the middleware always answers status 300, with the error's message when it is non-empty and `'An error occurred on the server'` otherwise |
| Gateway.ErrorReplyNeverEmpty | app.js:182-183 | for an error object, the middleware's message is never empty |

## Left out

- The MongoDB connection, multer upload storage, static serving, CORS, body parsing and compression are I/O and configuration.
- The admin and user routes are not modelled. `routes/admin` and `routes/user` are not part of this model.
- Starting the server and its port default are process bootstrap.
- The HTTP clients (axios, request, node-fetch) appear only as an `Outcome` value. Which statuses axios resolves and which it rejects is the client's policy, so it is left open.
- The Mailjet request headers, the bearer token, all environment variables and the `console.log` calls are not modelled.
- The Termii branch under `if (false)` never runs, so it is not modelled.
- The contents of `./data` are not part of this model; `Dataset` carries the module and its `coins` field as opaque values.
- JsString.ToLowerAscii: does not model Unicode case mapping; only `A`-`Z` are lower-cased, whereas `toLowerCase` also maps non-ASCII letters.
- JsString.IsSpace: the Unicode space separators are those of current Unicode data; older engines differ, for example on U+180E.
- JsString: strings are sequences of Unicode scalar values, whereas JavaScript strings are UTF-16 code units. A lone surrogate such as a parsed `"\ud800"` cannot be written as an input. `trim`, `\s` and ASCII lower-casing act only on non-surrogate characters, so no modelled behaviour depends on this, but the input domain is narrower.
- CoinGecko.MarketsUrlReadsBack: proved only for `no` and `pageNumber` without `&` or `#`. Express percent-decodes route parameters and the builders do not escape them, so such values reach the URL and add parameters or cut the query short.
- CoinGecko.SingleCoinUrlReadsBack: proved only for an id without `?` or `#`. A decoded `%3F` or `%23` in the id reaches the URL and starts a query or a fragment.
- CoinGecko.CoinUrlReadsBack: proved only for an id without `?` or `#`, for the same reason.
- CoinGecko.MarketChartUrlReadsBack: proved only for an id without `?` or `#` and a range without `&` or `#`, for the same reason.
- QueryString does not model percent-decoding. The parameters are read raw, which matches decoded values only when the values hold no `%` or `+`.
- Gateway.Interpolate: for a non-string JSON value, the ToString text, or whether ToString throws, is taken as given (the `shown` field), not computed.
- Gateway.ErrorReply: models only an `err` that is an object, with `err.message` as an optional string. A thrown or passed primitive (`next('boom')`) is not modelled: the assignments to it are ignored, and `res.status(undefined)` makes the response write throw, so Express's default handler answers 500 with its own body instead of the middleware. Falsy non-string messages such as `0` or `false` are not modelled either, and neither is the handler's change to the `err` object.
- Gateway.ErrorReplyNeverEmpty: holds for an error object only; a primitive `err` gets neither status 300 nor the default message, because Express's default handler answers instead.
- A failure of `res.json` itself inside a handler's `try` block is not modelled.
