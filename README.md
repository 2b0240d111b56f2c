# Diamantes Pro Players: ticket ledger, bridge projections and ad gating

This project models the core of a contest app. The app has an Android
WebView shell and a serverless ticket ledger.

- **Ledger** (`functions/index.js`) covers the callable functions `addTickets`,
  `sendTicketsToId` and `initializeUser`. The store is the `users` subtree, a
  map from player id to `{playerId, tickets, passes}`. A credit adds the
  amount to `tickets`. Every full 1000 tickets roll over into `passes`, and
  the record is stamped with its key. The platform transaction is one atomic
  application of that mutation. Whether it committed is an input. Every
  error raised inside a handler's `try` block reaches the caller as
  `internal`, with the original message. The handlers are methods of the
  class `Ledger.Database`. Each one is proved equal to a pure function of the
  old store (`AddTicketsResult`, `SendTicketsResult`, `InitializeUserResult`,
  `Credit`, `Initialize`). The lemmas in `LedgerProperties` are stated about
  those functions.
- **Bridge** (`WebAppInterface.kt`) covers these parts:
  - the leaderboard and winners lists built from database snapshots: a loop
    collects the children that parsed, then a stable descending sort orders
    them (module `Ordering`);
  - the single-quote escaping of the serialised JSON;
  - the private-message dialog and its escaping (module `JsText` holds the
    character replacement and substring search);
  - the `updateUserUI` player display;
  - the guards in front of the callable functions.
- **Ad gating** (`MainActivity.kt`) is two classes:
  - `AdGate` holds the 30-second interstitial cooldown and the guard in front
    of the task reward video;
  - `AppOpenAdManager` holds the app-open ad flags and the 4-hour freshness
    rule.

  The clock is an integer parameter. Each SDK callback is a method. In
  `AppOpenAdManager`, the callbacks that answer a load require a load to be
  pending: the SDK answers only loads it was asked for. `AdGate` counts load
  requests but does not track which of them have been answered, so its load
  callbacks require only `Valid()`. `OnAdShowed` requires the ad to be held,
  because it is a callback of the held ad.

Three facts about the code shape the model:

- The player-id gate has no length rule: any non-empty string passes
  (`Ledger.CheckPlayerId`).
- The "pass earned" message is computed from the committed remainder plus
  the amount, not from the change in `passes` (`Ledger.AddTicketsMessage`).
  The lemmas `MessageMissesGainedPass` and `MessageReportsUngainedPass` show
  that the two differ in both directions. `MessageForSmallAmounts` gives the
  exact rule.
- `initializeUser` reads the record, then writes a new one when it is absent.
  It does not use a transaction. The model runs the two steps sequentially.

The dialog escaping escapes double quotes and line breaks. The dialog text
is then placed inside single-quoted JavaScript literals, so a single quote
passes through unescaped (`DialogTextKeepsSingleQuotes`). The escaping is
also not reversible (`DialogTextEscapingIsLossy`). For a message that holds
no backslash, decoding the two escapes `\"` and `\n` gives the message back
(`EscapeDialogText`). This is not a claim about the whole literal: a message
that holds a single quote, such as `it's`, ends the single-quoted literal
early, and the generated script does not parse.

The serialised JSON is opaque here. The single-quote `replace` applied to it
is described as a function on arbitrary strings. On such a string, a
backslash is not escaped, so a quote that already follows a backslash would
still end the literal (`EscapedBackslashBeforeQuote`). Gson's default writer
emits `'` as `\u0027`, so JSON produced by it holds no raw quote to begin
with.

## Model

| member | source | states |
|---|---|---|
| `Ledger.CheckPlayerId` | functions/index.js:16-18 | the id gate passes exactly for a non-empty string (JavaScript falsiness plus `typeof`); otherwise `invalid-argument` with the fixed message; no length rule |
| `Ledger.CheckNonNegativeAmount` | functions/index.js:20-22 | `addTickets` accepts exactly numbers `>= 0`; otherwise `invalid-argument` with its message |
| `Ledger.CheckPositiveAmount` | functions/index.js:81-83 | `sendTicketsToId` accepts exactly numbers `> 0`; otherwise `invalid-argument` with its message |
| `Ledger.AddTicketsGate` | functions/index.js:16-22 | `addTickets` passes its gates iff the id is a non-empty string and the amount a number `>= 0`; the id is checked first, so a bad id reports the id message whatever the amount |
| `Ledger.SendTicketsGate` | functions/index.js:77-83 | `sendTicketsToId` passes its gates iff the id is a non-empty string and the amount a number `> 0`; the id message wins when both fail |
| `Ledger.Apply` | functions/index.js:27-45 | an absent record starts as `{playerId, 0, 0}`; the result carries the key as `playerId`; `1000*passes + tickets` grows by exactly `amount`; with non-negative tickets and amount the remainder lies in [0, 1000) and passes do not decrease; below 1000 passes are unchanged and tickets are plain sums |
| `Ledger.AddTicketsMessage` | functions/index.js:52-54 | the "pase ganado" message is chosen iff `amount > 0` and the committed remainder plus `amount` reaches 1000; otherwise the "correctamente" message |
| `Ledger.Credit` | functions/index.js:24-45 | a committed mutation adds or overwrites only the player's key, stamps it with that key, and credits exactly `amount` |
| `Ledger.Initialize` | functions/index.js:136-146 | a zero record is written only under an absent key; a present key leaves the store unchanged |
| `Ledger.Rewrap` | functions/index.js:64-67 | success passes through; every thrown error becomes `internal` with the same message |
| `Ledger.AddTicketsResult` | functions/index.js:10-68 | every error of `addTickets` is `internal`; a success means a string id, a number amount and a commit, and returns the credited record `Credit(users, id, amount)[id]` with one of the two `addTickets` messages |
| `Ledger.SendTicketsResult` | functions/index.js:71-123 | every error of `sendTicketsToId` is `internal`; a success means a string id, a number amount and a commit, and returns the credited record |
| `Ledger.InitializeUserResult` | functions/index.js:126-168 | fails iff the id is not a non-empty string, then with `internal` and the id message; a success returns the record stored after `Initialize`, with the "inicializado" message iff the id was absent |
| `Ledger.Database.AddTickets` | functions/index.js:10-68 | returns `AddTicketsResult` of the old store; on success the store is `Credit(old, id, amount)` and the envelope's user is the stored record; on any error the store is unchanged |
| `Ledger.Database.SendTicketsToId` | functions/index.js:71-123 | as `AddTickets` with the positive-amount gate and the fixed "enviados" message |
| `Ledger.Database.InitializeUser` | functions/index.js:126-168 | returns `InitializeUserResult` of the old store; on success the store is `Initialize(old, id)` and the returned user is the stored record; on error nothing changes |
| `LedgerProperties.RejectedBeforeStoreAccess` | functions/index.js:16-24 | a request failing an `addTickets` gate gets the same answer on every store: `internal` with the gate's message |
| `LedgerProperties.AddTicketsOutcomes` | functions/index.js:11-67 | every error of `addTickets` is `internal`; success iff non-empty string id, number `>= 0`, and commit; a failed commit reports "Transaction failed" |
| `LedgerProperties.SendTicketsOutcomes` | functions/index.js:72-122 | every error of `sendTicketsToId` is `internal`; success iff non-empty string id, number `> 0`, and commit; its message is fixed; a failed commit reports "Transaction failed" |
| `LedgerProperties.SendRejectedBeforeStoreAccess` | functions/index.js:77-85 | a request failing a `sendTicketsToId` gate gets the same answer on every store: `internal` with the gate's message |
| `LedgerProperties.ZeroAmount` | functions/index.js:81-83 | amount 0 is rejected by `sendTicketsToId` but accepted by `addTickets`, which returns the stored well-formed record unchanged with the no-pass message; a zero credit leaves a well-formed store unchanged |
| `LedgerProperties.CreditPreservesWellFormed` | functions/index.js:28-42 | a non-negative credit keeps every record keyed by its own id, with tickets in [0, 1000) and passes `>= 0` |
| `LedgerProperties.InitializePreservesWellFormed` | functions/index.js:139-146 | `initializeUser` keeps the store well formed |
| `LedgerProperties.InitializeUserIdempotent` | functions/index.js:137-161 | a second `initializeUser` leaves the store as the first did and returns the same user |
| `LedgerProperties.ReplayWorth` | functions/index.js:31-38 | committing a sequence of amounts to a fresh record loses nothing: the record is worth their sum |
| `LedgerProperties.ReplayRollover` | functions/index.js:35-39 | after non-negative credits to a fresh record, tickets are the total mod 1000 and passes the total div 1000 |
| `LedgerProperties.ZeroAmountReportsNoPass` | functions/index.js:52-54 | amount 0 never reports a pass |
| `LedgerProperties.MessageMissesGainedPass` | functions/index.js:52-54 | 999 tickets plus 1 gains a pass but is reported as no pass |
| `LedgerProperties.MessageReportsUngainedPass` | functions/index.js:52-54 | 0 tickets plus 999 gains no pass but is reported as a pass |
| `LedgerProperties.MessageExactForLargeAmounts` | functions/index.js:52-54 | for amounts `>= 1000` on a well-formed record, a pass is both gained and reported |
| `LedgerProperties.MessageForSmallAmounts` | functions/index.js:52-54 | for amounts in (0, 1000), a pass is gained iff old remainder plus amount reaches 1000, and reported iff old remainder plus twice the amount reaches 1000 (no pass gained) or 2000 (pass gained) |
| `LedgerProperties.RolloverBoundaries` | functions/index.js:35-39 | 999 + 1 gives `{0 tickets, 1 pass}`, 999 + 2001 gives `{0, 3}`, 999 on an absent record gives `{999, 0}` |
| `Ordering.Insert` | app/src/main/java/com/follgramer/diamantesproplayers/WebAppInterface.kt:316 | inserting into a descending-sorted list keeps it sorted and adds exactly that element |
| `Ordering.SortDesc` | app/src/main/java/com/follgramer/diamantesproplayers/WebAppInterface.kt:316 | the result is sorted descending by rank and is a permutation of the input |
| `Ordering.InsertStable` | app/src/main/java/com/follgramer/diamantesproplayers/WebAppInterface.kt:316 | an inserted element goes after every element of its own rank |
| `Ordering.SortDescStable` | app/src/main/java/com/follgramer/diamantesproplayers/WebAppInterface.kt:316 | the sort is stable: elements of equal rank keep their input order |
| `WebAppInterface.CollectContents` | app/src/main/java/com/follgramer/diamantesproplayers/WebAppInterface.kt:310-315 | a record is collected iff some child of the snapshot parses to it |
| `WebAppInterface.ParseUser` | app/src/main/java/com/follgramer/diamantesproplayers/WebAppInterface.kt:311 | a child parses iff its value is non-null, and the user is re-keyed to the child key (`""` when null) with its tickets and passes kept |
| `WebAppInterface.BuildLeaderboard` | app/src/main/java/com/follgramer/diamantesproplayers/WebAppInterface.kt:309-316 | the leaderboard holds exactly the parsed users, re-keyed by child key (`""` for a null key), as a permutation of the collected list, sorted by passes then tickets descending, ties in snapshot order |
| `WebAppInterface.BuildWinners` | app/src/main/java/com/follgramer/diamantesproplayers/WebAppInterface.kt:335-342 | the winners list holds exactly the parsed winners, as a permutation of the collected list, sorted by timestamp descending, ties in snapshot order |
| `JsText.ReplaceCharFacts` | app/src/main/java/com/follgramer/diamantesproplayers/WebAppInterface.kt:317 | replacing a character that does not occur changes nothing; the character is gone when the replacement does not contain it; every other character survives |
| `JsText.EscapeGuards` | app/src/main/java/com/follgramer/diamantesproplayers/WebAppInterface.kt:317 | backslash-escaping a character puts a backslash before each of its occurrences |
| `JsText.EscapeRoundTrip` | app/src/main/java/com/follgramer/diamantesproplayers/WebAppInterface.kt:317 | removing the inserted backslashes restores the input |
| `JsText.ReplaceCharConcat` | app/src/main/java/com/follgramer/diamantesproplayers/WebAppInterface.kt:405 | replacing a character distributes over concatenation |
| `JsText.QuoteAndBreakRoundTrip` | app/src/main/java/com/follgramer/diamantesproplayers/WebAppInterface.kt:405-406 | escaping `"` and then the line break, then decoding `\"` and `\n`, restores any text free of backslashes |
| `JsText.ReplaceKeepsGuard` | app/src/main/java/com/follgramer/diamantesproplayers/WebAppInterface.kt:405 | the second replacement (line break to `\n`) keeps every escaped double quote escaped |
| `WebAppInterface.EscapeSingleQuotes` | app/src/main/java/com/follgramer/diamantesproplayers/WebAppInterface.kt:317 | every `'` in the output has a backslash before it; unescaping gives the JSON back; JSON without `'` is unchanged |
| `WebAppInterface.EscapedBackslashBeforeQuote` | app/src/main/java/com/follgramer/diamantesproplayers/WebAppInterface.kt:317 | backslashes are not escaped: `\'` becomes `\\'`, where the quote follows an escaped backslash |
| `WebAppInterface.EscapeDialogText` | app/src/main/java/com/follgramer/diamantesproplayers/WebAppInterface.kt:405-406 | the output has no raw line break; every `"` has a backslash before it; every other character survives; text with neither is unchanged; for a text with no backslash, decoding only the two escapes `\"` and `\n` gives the text back, so each line break becomes `\n` and order is kept; a single quote is not escaped |
| `WebAppInterface.TitlesNeedNoEscaping` | app/src/main/java/com/follgramer/diamantesproplayers/WebAppInterface.kt:399-406 | escaping leaves each of the three titles unchanged |
| `WebAppInterface.DialogIcon` | app/src/main/java/com/follgramer/diamantesproplayers/WebAppInterface.kt:394-398 | the icon is `success` iff the type is "win", otherwise `info` |
| `WebAppInterface.DialogTitle` | app/src/main/java/com/follgramer/diamantesproplayers/WebAppInterface.kt:399-403 | the win title iff "win", the draw-ended title iff "loss", the administrator title iff neither |
| `WebAppInterface.ConfirmButton` | app/src/main/java/com/follgramer/diamantesproplayers/WebAppInterface.kt:414 | "¡Genial!" iff the type is "win", otherwise "Entendido" |
| `WebAppInterface.PrivateMessageDialog` | app/src/main/java/com/follgramer/diamantesproplayers/WebAppInterface.kt:389-414 | no dialog when type or message is null; "win" gives `success`, the win title and "¡Genial!"; "loss" gives `info`, the draw-ended title and "Entendido"; any other type gives `info`, "Mensaje del Administrador" and "Entendido"; the text is the escaped message |
| `WebAppInterface.DialogTextKeepsSingleQuotes` | app/src/main/java/com/follgramer/diamantesproplayers/WebAppInterface.kt:405 | a single quote in the message survives escaping |
| `WebAppInterface.DialogTextEscapingIsLossy` | app/src/main/java/com/follgramer/diamantesproplayers/WebAppInterface.kt:405 | a line break and backslash-`n` escape to the same text |
| `WebAppInterface.PlayerDisplay` | app/src/main/java/com/follgramer/diamantesproplayers/WebAppInterface.kt:442 | the display is the literal `null` iff the id is null or empty; otherwise it is the id between single quotes |
| `WebAppInterface.AddTicketsCall` | app/src/main/java/com/follgramer/diamantesproplayers/WebAppInterface.kt:191-202 | no callable request iff the saved id is null or empty; otherwise `addTickets` with that id and the amount |
| `WebAppInterface.SendTicketsCall` | app/src/main/java/com/follgramer/diamantesproplayers/WebAppInterface.kt:148-158 | no callable request iff the target is empty; otherwise `sendTicketsToId` with the target and the amount |
| `WebAppInterface.ShowsPassDialog` | app/src/main/java/com/follgramer/diamantesproplayers/WebAppInterface.kt:219-220 | the pass dialog needs a returned message string at least as long as "pase" |
| `WebAppInterface.BridgeCallsPassIdGate` | app/src/main/java/com/follgramer/diamantesproplayers/WebAppInterface.kt:192-202 | every call the bridge makes passes the ledger's id gate, and its amount gate iff the amount is `>= 0` (`addTickets`) or `> 0` (`sendTicketsToId`) |
| `WebAppInterface.PassDialogFollowsLedger` | app/src/main/java/com/follgramer/diamantesproplayers/WebAppInterface.kt:219-220 | after a successful `addTickets` the pass dialog is shown iff the ledger's message reported a pass |
| `WebAppInterface.LedgerMessagesAndPassDialog` | app/src/main/java/com/follgramer/diamantesproplayers/WebAppInterface.kt:219-220 | the pass message contains "pase" and the plain `addTickets` message does not |
| `WebAppInterface.RewardedTaskId` | app/src/main/java/com/follgramer/diamantesproplayers/WebAppInterface.kt:255 | the id handed to the activity is empty iff no id or an empty id is saved; otherwise it is the saved id |
| `WebAppInterface.RewardedTaskGuard` | app/src/main/java/com/follgramer/diamantesproplayers/WebAppInterface.kt:253-258 | the saved id, with null mapped to `""`, passes the activity's guard iff it is present, non-empty and not `"null"` |
| `WebAppInterface.NullTextGuards` | app/src/main/java/com/follgramer/diamantesproplayers/WebAppInterface.kt:192 | the saved text `"null"` reaches the ledger through `addTickets` but is refused by the rewarded-task guard |
| `MainActivity.SpacedApart` | app/src/main/java/com/follgramer/diamantesproplayers/MainActivity.kt:424-438 | shows `k` apart in the history are at least `k` cooldowns apart in time |
| `MainActivity.HasPlayerId` | app/src/main/java/com/follgramer/diamantesproplayers/MainActivity.kt:365 | the task-video guard passes only non-empty ids, and passes every id whose length is neither 0 nor 4 (the length of `"null"`) |
| `MainActivity.LoadedRecently` | app/src/main/java/com/follgramer/diamantesproplayers/MainActivity.kt:479-483 | a load is recent iff less than 14 400 000 ms (4 hours) have passed; a clock at or before the load time counts as recent |
| `MainActivity.AdGate.constructor` | app/src/main/java/com/follgramer/diamantesproplayers/MainActivity.kt:50-56 | no ad held, `lastInterstitialTime` 0, no show yet, no load requested before SDK initialisation |
| `MainActivity.AdGate.OnMobileAdsInitialized` | app/src/main/java/com/follgramer/diamantesproplayers/MainActivity.kt:76-81 | SDK initialisation requests one task video and one interstitial; nothing else changes and the cooldown invariant holds |
| `MainActivity.AdGate.ShowInterstitialWithCooldown` | app/src/main/java/com/follgramer/diamantesproplayers/MainActivity.kt:424-439 | inside the cooldown nothing changes; after it, a held ad is shown and `lastInterstitialTime := now`, otherwise one load is requested and the time is kept; shows stay a cooldown apart |
| `MainActivity.AdGate.OnInterstitialLoaded` | app/src/main/java/com/follgramer/diamantesproplayers/MainActivity.kt:336-338 | the interstitial is held; nothing else changes |
| `MainActivity.AdGate.OnInterstitialFailedToLoad` | app/src/main/java/com/follgramer/diamantesproplayers/MainActivity.kt:331-334 | no interstitial is held; nothing else changes |
| `MainActivity.AdGate.OnInterstitialClosed` | app/src/main/java/com/follgramer/diamantesproplayers/MainActivity.kt:340-350 | dismissal or failure to show drops the interstitial and requests one load |
| `MainActivity.AdGate.OnTaskVideoLoaded` | app/src/main/java/com/follgramer/diamantesproplayers/MainActivity.kt:238-240 | the task video is held; nothing else changes |
| `MainActivity.AdGate.OnTaskVideoFailedToLoad` | app/src/main/java/com/follgramer/diamantesproplayers/MainActivity.kt:233-236 | no task video is held; nothing else changes |
| `MainActivity.AdGate.OnTaskVideoClosed` | app/src/main/java/com/follgramer/diamantesproplayers/MainActivity.kt:242-260 | dismissal or failure to show drops the task video and requests one load |
| `MainActivity.AdGate.RequestRewardedAdForTask` | app/src/main/java/com/follgramer/diamantesproplayers/MainActivity.kt:362-397 | an empty id or `"null"` returns early with no video and no load; otherwise a held video is shown, or one load is requested |
| `MainActivity.AppOpenAdManager.constructor` | app/src/main/java/com/follgramer/diamantesproplayers/MainActivity.kt:442-450 | the manager starts empty, with exactly one load outstanding |
| `MainActivity.AppOpenAdManager.IsAdAvailable` | app/src/main/java/com/follgramer/diamantesproplayers/MainActivity.kt:485-487 | an available ad is held; an ad loaded 4 hours or more before `now` is never available; a held ad whose load time is not in the past is |
| `MainActivity.AppOpenAdManager.LoadAd` | app/src/main/java/com/follgramer/diamantesproplayers/MainActivity.kt:452-477 | a no-op while loading or while an ad is available; otherwise `isLoadingAd := true` and one load is requested; afterwards a load is outstanding or an ad is available; never two loads at once |
| `MainActivity.AppOpenAdManager.OnAdLoaded` | app/src/main/java/com/follgramer/diamantesproplayers/MainActivity.kt:464-469 | the ad is held, `loadTime := now`, loading is over, and the ad counts as available for the next 4 hours |
| `MainActivity.AppOpenAdManager.OnAdFailedToLoad` | app/src/main/java/com/follgramer/diamantesproplayers/MainActivity.kt:471-474 | only `isLoadingAd` is cleared |
| `MainActivity.AppOpenAdManager.ShowAdIfAvailable` | app/src/main/java/com/follgramer/diamantesproplayers/MainActivity.kt:489-524 | a no-op while showing; with no available ad it requests a load and does not show; otherwise `isShowingAd := true` |
| `MainActivity.AppOpenAdManager.OnAdShowed` | app/src/main/java/com/follgramer/diamantesproplayers/MainActivity.kt:516-519 | `isShowingAd := true`; nothing else changes |
| `MainActivity.AppOpenAdManager.OnAdClosed` | app/src/main/java/com/follgramer/diamantesproplayers/MainActivity.kt:502-514 | dismissal or failure to show drops the ad, clears `isShowingAd` and leaves exactly one load outstanding |

## Left out

- A call with no payload: each handler destructures its `data` argument,
  which throws a `TypeError` when `data` is null or undefined. The catch
  turns that into `internal` with the runtime's message. `Ledger.Request` always carries both
  fields, and the runtime's message text is not modelled.
- Transaction retries and concurrency: the database's retry loop and the
  races it resolves are a platform primitive. A transaction is one atomic
  application, and `committed` is an input.
- The `initializeUser` read-then-write race: the model runs it sequentially.
- Storage and transport failures, such as a rejected transaction promise or
  a failed `set`. They would be re-wrapped as `internal` like every other
  error, but they are not modelled.
- JavaScript number semantics: amounts are integers. Fractions, `NaN` (which
  passes the `amount < 0` test) and `Infinity` are not modelled.
- Database path rules: a player id is an opaque key. The meaning of `/` in
  `users/${playerId}` and the characters the database refuses in keys are
  not modelled.
- Stored records with a missing or non-numeric `tickets` or `passes` field:
  the `|| 0` fallbacks are not modelled. Every stored record has integer
  fields.
- Logging (`console.log`, `Log.d`), Toasts, coroutine dispatch and the text
  of the scripts passed to `evaluateJavascript`. Only the dialog fields and
  the player display are modelled.
- The Gson serialisation and the `getValue` deserialisation: the JSON is an
  opaque string, and a snapshot child comes already parsed or null. The
  database-side `orderByChild` and `limitToLast(10)` decide which children
  arrive. They are not modelled.
- 64-bit `Long` arithmetic for tickets, passes, timestamps and clock
  differences: all of these are unbounded integers.
- Bridge paths outside the guards: `loadUser`, `getInitialData`,
  `savePlayerId`, `initializeUser`'s client call, consent, ad settings, the
  banner, the failure messages, and the `sendTicketsToId` success refresh.
- The spins video and its callbacks, the reward callback of the task video,
  and the transfer prompt it opens. The task video's guard, load callbacks
  and close callbacks are modelled.
- `SplashActivity.kt`, `ObservableWebView.kt` and the build files contain no
  logic to model.
