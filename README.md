# suterana2 message board and Hero section, modelled in Dafny

This project models the two pieces of logic in the site:

- **The `/board` handler of `main.ts`.** A request whose path is exactly `/board`
  reads or updates one message kept in a key/value store under the key
  `["current_message"]`; any other request goes to the page renderer. Without a
  store handle, `/board` answers the text `KVなし`. A `GET` with a `txt` query value
  trims it, stores it if it is not empty, and always redirects (302) to
  `origin + "/board"`. Anything else on `/board` reads the message, or
  `メッセージはありません` when none is stored, as plain text that no cache may keep.
- **The Hero section of `sections/Hero.tsx`.** `currentPlatform` maps the host's
  platform and architecture (and, on 64-bit Linux, whether the process report shows
  glibc) to a target triple or an `unsupported: …` message. A call-to-action link opens
  in a new tab exactly when its href contains `http`. The main row's layout class
  comes from the `PLACEMENT` table (placement defaulting to `left`) when an image is
  shown, and is the centred class string otherwise.

Files:

- `Wrappers.dfy`: `Option`, standing for JavaScript's `null`/`undefined`.
- `JsString.dfy`: `String.prototype.trim` (`Trim`, over the ECMAScript WhiteSpace and
  LineTerminator characters) and `String.prototype.includes` (`Includes`), as pure
  functions with their characterisations.
- `Board.dfy`: the handler. `Handle` is the specification: from the request, whether
  a store handle exists and the store's entries, it gives the response and the store
  operations (`Get`/`Set` on a key). `Apply` performs operations on the entries, and
  `Run` serves a sequence of requests. `BoardServer` holds the store in a `map`
  field. Its `Serve` method is the handler written step by step, updating that field
  in place, and it is proved to follow `Handle` and to keep the store invariant
  `WellFormed`: a stored message is non-empty and has no whitespace at either end.
- `Hero.dfy`: `JsValue` (enough of a JavaScript value for `typeof`, truthiness and
  `in`), `IsGlibc`, `CurrentPlatform`, `LinkTarget` and `LayoutClass`.

A `/board` request that has `txt` but a method other than `GET` is served as a read
(main.ts:30); see `Board.ReadAnswersStoredOrDefault`.

## Model

| member | source | states |
|---|---|---|
| `JsString.TrimStart` | main.ts:31 | the result is a suffix of the input, everything dropped is whitespace, and it is empty or starts with a non-whitespace character (the longest whitespace prefix is removed) |
| `JsString.TrimEnd` | main.ts:31 | the result is a prefix of the input, everything dropped is whitespace, and it is empty or ends with a non-whitespace character (the longest whitespace suffix is removed) |
| `JsString.Trim` | main.ts:31 | `trim()` leaves no whitespace at either end of the text |
| `JsString.TrimIsWhitespaceBounded` | main.ts:31 | `trim(s)` is the slice of `s` that starts after its leading whitespace and has only whitespace after it |
| `JsString.TrimIsUniqueSlice` | main.ts:31 | any slice `s[i..j]` that drops only whitespace on both sides and keeps none at its ends is exactly `trim(s)` |
| `JsString.TrimEmptyIff` | main.ts:31-32 | the trimmed text is empty (the `if (trimmedMessage)` test fails) exactly when every character of `txt` is whitespace, `txt = ""` included |
| `JsString.TrimFixesTrimmed` | main.ts:31 | a text is left unchanged by `trim()` exactly when it has no whitespace at either end, and trimming twice equals trimming once |
| `JsString.Includes` | sections/Hero.tsx:162 | `href.includes("http")`: holds exactly when the needle occurs in the string at some position |
| `Board.Handle` | main.ts:19-59 | one request performs at most one store operation, and only ever on the key `["current_message"]` |
| `Board.OtherPathsForwarded` | main.ts:56-57 | a path other than exactly `/board` (the test at main.ts:24) is forwarded unchanged, with no store read or write |
| `Board.NoStoreShortCircuits` | main.ts:28 | without a store handle, `/board` answers `KVなし` for every method and query, with no store operation |
| `Board.UpdateRedirectsAndWritesTrimmed` | main.ts:30-39 | `GET /board` with `txt` redirects with 302 to `origin + "/board"`; afterwards the message is `trim(txt)` when that is not empty, replacing any earlier one, and the store is unchanged when it is empty |
| `Board.BlankUpdateKeepsMessage` | main.ts:31-37 | a whitespace-only `txt` is skipped: the stored message stays as it was |
| `Board.ReadAnswersStoredOrDefault` | main.ts:43-54 | any other `/board` request with a store handle, including `txt` with a non-GET method, answers the stored message or `メッセージはありません` with the plain-text, no-cache headers and changes nothing |
| `Board.WellFormedReadIsNeverEmpty` | main.ts:43-47 | while the store invariant holds, a read answers plain text whose body is never empty |
| `Board.StepChangesOnlyMessage` | main.ts:33 | a request changes the store only when it writes, and then it sets only the message key, to the trimmed `txt` |
| `Board.StepPreservesWellFormed` | main.ts:31-33 | every request keeps the invariant that a stored message is non-empty and has no whitespace at either end |
| `Board.RunPreservesWellFormed` | main.ts:31-33 | any sequence of requests keeps that invariant |
| `Board.RunLastWriteWins` | main.ts:33 | after any sequence of requests, the message is the trimmed `txt` of the last writing request, or the earlier message when none wrote; every other key is untouched |
| `Board.WriteThenRead` | main.ts:30-47 | after `GET /board?txt=S` with S not blank, a read of `/board` answers `trim(S)` |
| `Board.BoardServer.constructor` | main.ts:15-16 | the server starts with the store handle flag and the store's entries, which satisfy the invariant |
| `Board.BoardServer.Serve` | main.ts:19-59 | the handler, updating the store in place: its response and new store are those `Handle` and `Apply` give, and the invariant is kept |
| `Hero.IsGlibc` | sections/Hero.tsx:66-80 | true exactly when the report is an object with a `header` property that is an object with a `glibcVersionRuntime` property |
| `Hero.CurrentPlatform` | sections/Hero.tsx:6-64 | for a combination with no target the result is `unsupported: os=<name> process.platform=<p> process.arch=<a>`, where the name is `Android`, `Windows`, `macOS`, `Linux`, `FreeBSD` or `null` for an unknown platform |
| `Hero.TargetIffSupported` | sections/Hero.tsx:6-64 | the result is one of the thirteen target strings exactly when the (platform, arch) pair is one of the eleven supported ones |
| `Hero.FixedTargets` | sections/Hero.tsx:10-58 | the Android, Windows, macOS, 32-bit ARM Linux and FreeBSD mappings, whatever the report |
| `Hero.LinuxLibcChoice` | sections/Hero.tsx:43-48 | Linux on `x64` or `arm64` gives `linux-<arch>-gnu` with glibc and `linux-<arch>-musl` without |
| `Hero.ReportMattersOnlyOnLinux64` | sections/Hero.tsx:42-48 | two reports give different results exactly when the host is Linux on `x64` or `arm64` and only one of the reports shows glibc |
| `Hero.LinkTarget` | sections/Hero.tsx:162 | the target is `_blank` exactly when `http` occurs somewhere in the href, and `_self` otherwise |
| `Hero.PlacementClasses` | sections/Hero.tsx:101-104 | the `PLACEMENT` table: both entries start with `flex-col text-left`, and only `left` uses the reversed large-screen row |
| `Hero.LayoutClass` | sections/Hero.tsx:117-121 | the main row's class is the fixed frame around `PLACEMENT[placement]` (with `left` when no placement is given, as at sections/Hero.tsx:110) when an image is shown, and around the centred classes otherwise |
| `Hero.PlacementDefaultsToLeft` | sections/Hero.tsx:110 | leaving the placement out gives the same layout as `left` |
| `Hero.PlacementMattersOnlyWithImage` | sections/Hero.tsx:117-121 | without an image the centred class is used whatever the placement; with one, the class follows `PLACEMENT[placement]`, the two placements differ and neither is the centred class |

## Left out

- `Deco.init` and `deco.fetch` (main.ts:6-11, main.ts:57) are the external page renderer; the model only records that the request is handed over unchanged (`Forwarded`).
- `Deno.openKv` (main.ts:15) becomes the flag `kvOpen`, and the key/value store becomes a `map` from keys to strings; exceptions thrown by `kv.get` or `kv.set` are outside the model.
- Board.BoardServer.constructor: requires the initial store to satisfy the invariant; a message put under the key by something other than this handler is outside the model.
- The `console.log` lines (main.ts:34, main.ts:36) are logging that depends on the clock and locale.
- `Deno.serve` and the `PORT` parsing (main.ts:61-62) are server start-up.
- Concurrent requests: the model serves requests one after another (`Run`).
- URL parsing and query decoding: a `Request` carries the already parsed origin, path and first `txt` value.
- The exact bytes of responses: the model records the body, headers and status the handler chooses, not the default headers the runtime adds (for example the `Content-Type` of the `KVなし` response).
- `Trim` works on Unicode scalar values rather than UTF-16 code units; every whitespace character is in the Basic Multilingual Plane, so the two agree on well-formed strings.
- `JsValue` has no prototype chain (`in` sees only own properties) and no `NaN`; neither changes what `isGlibc` answers for a process report.
- The call to `process.report?.getReport()` (sections/Hero.tsx:69) is replaced by its result, an input of `IsGlibc` and `CurrentPlatform`; `Undefined` stands for a missing `process.report`.
- The JSX markup of the Hero section (sections/Hero.tsx:113-176): the `Image` component, the `dangerouslySetInnerHTML` title, `Deno.version.deno`, `navigator.userAgent`, the text column's class and the CTA button's class are presentation.
