# Anchor web app: wallet controller and burn confirmation loop, in Dafny

This project models three pieces of the Anchor web app in Dafny and proves properties of them.

1. **`WalletController`** (`wallet_controller.dfy`, module `WalletProvider`). It chooses between the Chrome extension and a WalletConnect session. It republishes the active one's status, network and wallet address as one triple, and it routes `post` to the active transport.
   - The class keeps the source's fields: `walletConnect`, `disableExtension`, `disableWalletConnect` and the published `status` / `network` / `walletAddress`.
   - It adds an explicit registry of live rxjs subscriptions (`subscriptions`, keyed by fresh numbers).
   - It keeps a ghost `log` of the calls the controller makes on transports (`unsubscribe()`, `disconnect()`).
   - Each transport push and each timer tick is a method (`OnExtensionUpdate`, `OnSessionUpdate`, `OnRaceConnected`, `OnRaceTick`). Such an event has an effect only when a live subscription listens to its source.
   - `Valid()` is the controller's invariant:
     - at most one transport handle is set;
     - the WalletConnect slot is set exactly when its handle is;
     - between events, a published WALLET_CONNECTED always carries an address.

   Every public method (the constructor, the `enable…`, `connect…`, `disconnect` and `post` methods, and the four events) preserves `Valid()`. The helpers `Subscribe`, `RunDisableExtension` and `RunDisableWalletConnect` are parts of those methods: they neither require nor ensure it, and `RunDisableWalletConnect` leaves the handle set after it clears the slot. `wallet_scenarios.dfy` follows runs that span several calls.
2. **The burn page** (`burn.dfy`, module `Burn`).
   - The input check `burnInputError` and the Burn-button condition, over `real`. The MICRO scale is a parameter.
   - `burnQueryOptions.fetchClient`. It awaits the post, reports progress once, then runs `while (true)`: check the abort flag, query the indexer by transaction hash, return on a non-empty answer, otherwise wait 500 ms. The method `FetchClient` runs this loop over a finite sequence of per-iteration environments. Each environment holds the abort flag as sampled and the answer the query would get. The method is proved equal to the step functions `PostStep` / `PollStep` / `PollLoop`, and lemmas characterise their traces.
3. **`_createTxOptions`** (`tx_options.dfy`, module `TxOptions`). This builds the initial POST-phase record of a transaction stream.

`wrappers.dfy` holds the `Option` type used for the source's `null` / `undefined`.

Where the code does something other than a reader might expect, the model follows the code:
- A failing indexer query is not caught, so it ends the fetch with that error; it is not retried.
- `enableExtension` and `enableWalletConnect` can leave an earlier subscription live, so "one live subscription per transport" is not an invariant here.
- The startup timeout is an `interval`, not a one-shot timer. It keeps writing the status after it wins the race.
- Only the extension path validates the address. The WalletConnect path publishes `terraAddress` as it comes.
- The published triple is not updated atomically. Each update is three separate subject writes, status first, and subscribers to the status see the new status while the old network and address are still published.

## Model

| member | source | states |
|---|---|---|
| `TxOptions.CreateTxOptions` | app/src/@libs/webapp-fns/tx/internal/_createTxOptions.ts:4-11 | The closure's record carries the given `tx` unchanged as `value`, the phase POST and no receipts. |
| `Burn.InputError` | app/src/pages/basset/burn.tsx:118-129 | `burnInputError` is present iff the amount (0 when empty), scaled by MICRO, is greater than the balance (0 while unknown). Its properties are the rows below. |
| `Burn.BurnEnabled` | app/src/pages/basset/burn.tsx:292-295 | The Burn button shows iff the wallet status is 'ready', the amount is entered and above 0, and there is no input error. |
| `Burn.InputErrorThreshold` | app/src/pages/basset/burn.tsx:118-129 | The input error is present iff (amount, or 0 when empty) × MICRO > balance (0 when unknown). Equivalently, iff the amount exceeds balance / MICRO. |
| `Burn.InputErrorMonotone` | app/src/pages/basset/burn.tsx:118-123 | Raising the amount never clears an input error. |
| `Burn.BurnEnabledMeansCovered` | app/src/pages/basset/burn.tsx:292-295 | The button is active iff the wallet is ready, the amount is entered and positive, and amount × MICRO is within the balance. An active button therefore implies a loaded, positive balance. |
| `Burn.PostStep` | app/src/pages/basset/burn.tsx:344-346 | The fetch goes on to wait iff the post yields a result, and then reports progress with that result exactly once and no query yet. A rejection ends the fetch with its error, an abort stops it, and neither reports progress. |
| `Burn.PollStep` | app/src/pages/basset/burn.tsx:348-367 | One iteration: an abort stops it before any query; otherwise it queries by the transaction hash first. It keeps waiting, with one more query and a 500 ms pause, iff the answer is empty. A non-empty answer ends it with those records, and a failed query ends it with the error. Either way the query is its only effect. |
| `Burn.FetchClient` | app/src/pages/basset/burn.tsx:340-369 | The loop method's final phase and its effects (progress update, queries, pauses) equal those of the step-function run `Fetch`. |
| `Burn.FirstSettle` | app/src/pages/basset/burn.tsx:348-368 | Gives the index of the first iteration that ends the loop. Every earlier iteration saw no abort and an empty answer. |
| `Burn.PollLoopOutcome` | app/src/pages/basset/burn.tsx:348-368 | From the waiting phase, the loop runs idle iterations (one query by hash and one 500 ms pause each) up to the first iteration that ends it, and stops there. If no iteration ends it, it is still waiting. |
| `Burn.FetchWaitsWhileIdle` | app/src/pages/basset/burn.tsx:348-368 | While every answer is empty and no abort is seen, the fetch keeps waiting after one query per iteration. There is no iteration cap. |
| `Burn.FetchSettlesAt` | app/src/pages/basset/burn.tsx:344-368 | After a successful post, the whole trace is the progress update, then k idle iterations, then the step of the first iteration k that ends the loop. |
| `Burn.PollLoopEffects` | app/src/pages/basset/burn.tsx:353-366 | The loop emits only queries keyed by the posted result's hash, and pauses. |
| `Burn.InProgressUpdateOnceThenQueriesByHash` | app/src/pages/basset/burn.tsx:344-361 | `inProgressUpdate({txResult})` is emitted exactly once, first and before any query, iff the post yields a result. Every query uses `txResult.result.txhash`. |
| `Burn.FirstNonEmptyAnswerIsReturned` | app/src/pages/basset/burn.tsx:363-367 | The first non-empty answer, at iteration k, ends the fetch with `{txResult, txInfos}` after exactly k + 1 queries. |
| `Burn.AbortStopsBeforeQuery` | app/src/pages/basset/burn.tsx:348-351 | An abort seen at the top of iteration k ends the fetch as stopped after exactly k queries. No query is issued in or after that iteration. |
| `Burn.QueryFailurePropagates` | app/src/pages/basset/burn.tsx:353-361 | A failing query at iteration k is not caught. It ends the fetch with its error after k + 1 queries. |
| `Burn.FetchEndsOnlyBy` | app/src/pages/basset/burn.tsx:344-368 | Each final phase points to its cause: a found result to a non-empty answer, a stop to an abort, a failure to a rejected post or query. A fetch still waiting has seen only idle iterations. |
| `WalletProvider.FromExtension` | packages/src/@anchor-protocol/wallet-provider2/provider.ts:110-124 | An extension report publishes CONNECTED iff the status is WALLET_CONNECTED and the address is a string that passes `validate`; it then publishes the extension's network and address. Any other report publishes the reset triple. |
| `WalletProvider.FromSession` | packages/src/@anchor-protocol/wallet-provider2/provider.ts:144-160 | A CONNECTED session publishes CONNECTED, the network its chain id maps to (absent when unmapped) and the unvalidated `terraAddress`. Any other status publishes the reset triple. |
| `WalletProvider.WalletController.constructor` | packages/src/@anchor-protocol/wallet-provider2/provider.ts:37-81 | Network {name, chainID} of the default and a null address in every branch. Exactly one startup branch runs: a restored CONNECTED session is enabled and no race starts; else on desktop Chrome the race starts with status INITIALIZING; else the status is WALLET_NOT_CONNECTED with no subscription. The next subscription key is the number of subscriptions opened. |
| `WalletProvider.WalletController.RunDisableExtension` | packages/src/@anchor-protocol/wallet-provider2/provider.ts:127-129 | The extension disposer unsubscribes exactly the subscription it was made for. |
| `WalletProvider.WalletController.RunDisableWalletConnect` | packages/src/@anchor-protocol/wallet-provider2/provider.ts:163-167 | The WalletConnect disposer disconnects its controller, clears the slot, then unsubscribes that controller's session subscription. |
| `WalletProvider.WalletController.EnableExtension` | packages/src/@anchor-protocol/wallet-provider2/provider.ts:99-130 | Disposes and clears the WalletConnect handle and slot, subscribes to the extension and stores a new handle. Earlier extension subscriptions stay live: their set grows by exactly the new one. `Valid()` is kept. |
| `WalletProvider.WalletController.EnableWalletConnect` | packages/src/@anchor-protocol/wallet-provider2/provider.ts:132-168 | Disposes and clears the extension handle, disconnects the controller in the slot without unsubscribing its session, then stores the new controller and a handle to its fresh session subscription. `Valid()` is kept. |
| `WalletProvider.WalletController.ConnectToExtension` | packages/src/@anchor-protocol/wallet-provider2/provider.ts:170-176 | Once `connect()` resolves: on success it enables the extension; on failure nothing changes. |
| `WalletProvider.WalletController.ConnectToWalletConnect` | packages/src/@anchor-protocol/wallet-provider2/provider.ts:178-180 | Enables the newly created controller, with the effects of `enableWalletConnect`. |
| `WalletProvider.WalletController.Disconnect` | packages/src/@anchor-protocol/wallet-provider2/provider.ts:182-192 | Runs each set disposer once, clears both handles and the slot, and publishes (WALLET_NOT_CONNECTED, default network, null). |
| `WalletProvider.WalletController.Post` | packages/src/@anchor-protocol/wallet-provider2/provider.ts:194-208 | Fails with "Wallet not connected!" iff both handles are null. Routes to the extension when its handle is set, else to the controller in the slot. With a WalletConnect handle but an empty slot it fails with "Can't post tx. there is no connected session!"; under `Valid()` the "no connected session" error cannot occur. |
| `WalletProvider.WalletController.OnExtensionUpdate` | packages/src/@anchor-protocol/wallet-provider2/provider.ts:109-125 | With a live extension subscription, the published triple becomes the re-validated one for the report; without one, nothing changes. After a delivered report, CONNECTED implies a non-null address that passes `validate`. |
| `WalletProvider.WalletController.OnSessionUpdate` | packages/src/@anchor-protocol/wallet-provider2/provider.ts:144-161 | With a live subscription to that controller's session, the triple becomes the one the session maps to; without one, nothing changes. |
| `WalletProvider.WalletController.OnRaceConnected` | packages/src/@anchor-protocol/wallet-provider2/provider.ts:69-73 | While the race is undecided, the extension reaching WALLET_CONNECTED unsubscribes the race and enables the extension. After the race is decided, nothing changes. The race key itself is kept in both cases. |
| `WalletProvider.WalletController.OnRaceTick` | packages/src/@anchor-protocol/wallet-provider2/provider.ts:67-75 | A tick on a live race makes the interval its winner and sets only the status to WALLET_NOT_CONNECTED. Network and address are untouched, and the race subscription stays live. |
| `WalletScenarios.DisconnectTwice` | packages/src/@anchor-protocol/wallet-provider2/provider.ts:182-192 | A second `disconnect` runs no disposer and leaves the state of the first: the same published triple, handles, subscriptions, race and next key as one `disconnect` leaves. |
| `WalletScenarios.ReplacedSessionStillPublishes` | packages/src/@anchor-protocol/wallet-provider2/provider.ts:138-161 | Replacing controller `a` adds exactly one call to the log, `a`'s disconnect. `a`'s session subscription stays live, and a later emission of `a`'s session is still published. |
| `WalletScenarios.TimerOutlivesConnection` | packages/src/@anchor-protocol/wallet-provider2/provider.ts:57-77 | After the interval wins the race and the extension then connects with a valid address, the next tick publishes WALLET_NOT_CONNECTED while the connection's network and address remain published. |

## Left out

- The rxjs machinery (`BehaviorSubject`, `combineLatest`, `race`, `interval`, subscriber fan-out and replay) is replaced by the subscription registry and explicit events.
- WalletProvider.WalletController.OnExtensionUpdate, OnSessionUpdate and Disconnect: the three subject writes are one step, so the in-between states, with the status written first, are not modelled.
- A new subscription's first, replayed emission is modelled as a later event of its own. It is not published inside `enableExtension` / `enableWalletConnect`.
- Emissions a WalletConnect session might make while its controller is being disconnected, before the unsubscribe, are not modelled.
- The transports themselves are not part of this model: `ChromeExtensionClient`, the WalletConnect controller and its wire protocol, `connectWalletIfSessionExists`, `connectWallet`, `isDesktopChrome`, `AccAddress.validate`. Restore and environment checks are constructor parameters, `validate` is a function-valued constant, `connect()` is its resolved `success` flag, and controllers are identities.
- WalletProvider.WalletController.Post: returns where the transaction goes, not the `TxResult` the transport's own `post` produces, because that code is not part of this model.
- The accessors `status`, `network`, `walletAddress` and `availableExtension` (lines 83-97) only expose subjects or `isDesktopChrome()`, so they are left out.
- Real time is left out. The 10 s interval is a tick event, and the 500 ms wait is a `Sleep` effect.
- `stopWithAbortSignal`, `useBroadcastableQuery`, the Apollo client and the `txi` parsing are not part of this model. The post's outcome (result, rejection, or abort while waiting) and each query's answer are inputs.
- The fetch loop is unbounded. It is modelled over any finite number of iterations; when those run out, the result is the waiting phase.
- Amount text that `big()` cannot parse is not modelled; the amount is either empty or a number.
- MICRO's value is not part of this model; it is a positive parameter.
- The error message's balance display (`div(MICRO)`), the exchange-rate division and `toFixedNoRounding` are left out. They are rounding display code.
- `notificationFactory`, the render branches of `BurnBase`, the submit handler that clears the amount, and styling are left out.
- `TxStreamPhase` members other than POST are not visible in the source. They are kept under one `LaterPhase` constructor.
- app/src/pages/basset/components/BLunaBurn/Burn.tsx, app/src/components/TransactionRenderer/WaitingReceipt.tsx and app/src/@anchor-protocol/app-fns/logics/borrow/computeRedeemAmountToLtv.ts are not part of this model. They are presentation, or rest on unseen rounding arithmetic.
