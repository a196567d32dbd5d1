# Verified models of the MetaMask core controllers

Dafny models of the parts of the core packages whose correctness is an argument
rather than a reading, and proofs of what those parts are for. Run
`dafny verify dfyconfig.toml` in this directory to check everything.

Code that works by changing things step by step is a class or a method here,
proved equal to a function on values; the theorems are lemmas about those
functions and hold for all inputs, all runs or all interleavings.

- **JSON-RPC engine** (`JsonRpcEngine`, `NestedEngines`, `JsonRpcReplies`,
  `AsyncMiddleware`). A middleware is any function from request, response and a
  world to an outcome. Nesting engines is compared with splicing their stacks,
  the two passes with the recursive "onion" reading of async middleware, and the
  replies with sections 4.1 and 5 of the JSON-RPC 2.0 Specification.
- **Requests over a stream** (`StreamProtocol`). Id remapping in front of the
  stream middleware, as a protocol whose steps interleave freely.
- **Keyring controller** (`KeyringTransactions`, `KeyringLocks`). Commit or
  rollback of arbitrary operations with every fault that can occur, agreement of
  wallet and vault over runs, and the two nested locks with the early release.
- **Network controller** (`NetworkLookups`, `NetworkRegistry`). Lookups that race
  with switches, and the client registry kept beside the configurations.
- **Approval controller** (`Approvals`). Three indexes of one set, one fate for
  every promise, and the rate limit.
- **Accounts controller** (`AccountNames`, `AccountSync`). Synchronisation with
  the keyrings by difference, and generated names.
- **Messenger and base controller** (`SelectorCache`). The change-detecting
  selector cache.
- **Gas arithmetic** (`Numerals`, `GasFees`, `TimeEstimates`). Gwei texts to wei,
  back, and the time estimate.

`Prelude` holds shared definitions.

## What the proofs found

Where a statement one would expect is false of the code, the model keeps the code
and a lemma says when it holds or shows the failure.

- Nesting an engine differs from splicing its stack when an inner return handler
  fails or changes whether there is an error (`NestingEqualsFlatteningIff`).
- A return handler can make a reply carry both result and error
  (`ReplyCanCarryBoth`); `ReplyHasExactlyOneIff` says exactly when none does. With a
  notification handler, a request with an id but without a method is dropped like a
  malformed notification, contrary to section 5 (`MalformedRequestIsDropped`).
- A call whose id is still in use after a whole lap of the id counter makes the
  pending request under it be lost for good (`NoneLostIff`, `LostForever`).
- If the peer answers with neither result nor error, such as `{id: 7, jsonrpc: "2.0"}`,
  the completion check skips the handler that restores ids, and the caller is answered
  under the id drawn for it (`OriginalIdIff`, `EngineRepliesUnder`).
- Converting a negative gwei amount rounds the wrong way when the first digit
  dropped is five or more (`ConversionIsNearestIff`), which can turn the order of two
  amounts around (`ConversionIsMonotoneIff`). The exponent of a number like
  1.123456789e-7 is ignored: its text is converted to 1123456789 wei instead of 112
  (`ExponentIsIgnored`, `ExponentGoesWrong`).
- Rolling back records unsupported keyrings twice (`RollbackDuplicatesUnsupported`)
  and does not restore the unlocked flag (`FailedVaultKeepsLockIff`). If a keyring
  cannot be destroyed it stops before the password (`FailedOperationLosesNothingIff`),
  which a failed lock even forgets (`FailedLockForgetsPassword`). A failed unlock
  can leave unsupported keyrings and the public list behind (`FailedUnlockKeeps`).
- The compatibility check records one network's answer for another after a switch
  (`UnguardedWriteStaysHomeIff`), a lookup records the old chain's answer if an upsert
  changes the chain meanwhile (`ChainChangeGoesUnnoticedIff`), and an upserted ticker
  does not reach the client (`TickerGoesStale`).
- Accepting with `waitForResult` a request that expects no result removes it and
  never settles its promise (`AcceptSettlesIff`, `DroppedForGood`). The
  documentation of `getApprovalCount` says that origin and type together give 0 or
  1; that holds exactly for types that are not exempt (`LimitOfOneIff`).
- The group that numbers names leaves out accounts of other chains, so two of them
  added in a row get one name (`NextAdditionGrowsIff`); custody keyring types share a
  name but not a group (`SameNameIff`, `CustodyNameRepeatsIff`).
- The name and import time of a snap account of another chain are overwritten at
  every keyring change, unless an EVM snap account sits at its address
  (`OtherChainAccountsAreRefiled`).
- The selector cache is filed by handler alone, so one handler on two events can
  miss or misreport changes (`SharedHandlerAgreesIff`), and clearing an event
  leaves stale values (`ClearLeavesStaleValue`).

## Model

| member | source | states |
|---|---|---|
| JsonRpcEngine.RunAllMiddleware | packages/json-rpc-engine/src/JsonRpcEngine.ts:507-536 | the loop computes the recursive forward pass: context, error, completion flag and handlers in call order |
| JsonRpcEngine.RunReturnHandlers | packages/json-rpc-engine/src/JsonRpcEngine.ts:605-613 | the loop runs handlers in the given order and stops at the first that fails |
| JsonRpcEngine.RunAllConcat | packages/json-rpc-engine/src/JsonRpcEngine.ts:507-536 | running two stacks in a row is running the second from where the first fell through, with both sets of handlers |
| JsonRpcEngine.RunHandlersConcat | packages/json-rpc-engine/src/JsonRpcEngine.ts:605-613 | running two lists of handlers in a row is running the second unless the first failed |
| JsonRpcEngine.RunErrorShape | packages/json-rpc-engine/src/JsonRpcEngine.ts:548-597 | after a forward pass from a response without error, the pass reports an error exactly when the response holds it, in serialized form |
| JsonRpcEngine.Engine.Handle | packages/json-rpc-engine/src/JsonRpcEngine.ts:435-495 | past validation, a live engine answers with the specified reply of its whole stack; a destroyed one refuses |
| JsonRpcEngine.Engine.Push | packages/json-rpc-engine/src/JsonRpcEngine.ts:133-138 | a live engine appends, a destroyed one refuses and stays as it is |
| JsonRpcEngine.Engine.Destroy | packages/json-rpc-engine/src/JsonRpcEngine.ts:110-126 | each middleware held is torn down in order, the stack is emptied and later operations refuse |
| JsonRpcEngine.Engine.CallAsMiddleware | packages/json-rpc-engine/src/JsonRpcEngine.ts:252-273 | each call runs the stack held by then: it ends with the handlers' failure or the run's error, or falls through leaving one handler for all |
| JsonRpcEngine.MergeMiddleware | packages/json-rpc-engine/src/mergeMiddleware.ts:12-18 | pushing a stack one by one and nesting the engine gives the middleware of the whole stack |
| NestedEngines.NestingEqualsFlatteningIff | packages/json-rpc-engine/src/JsonRpcEngine.ts:248-275 | nesting a stack equals splicing it, for every list of outer handlers, exactly when the stack falls through, or ends leaving what its own handlers neither fail on nor disturb |
| NestedEngines.NestingEqualsFlattening | packages/json-rpc-engine/src/JsonRpcEngine.ts:473-536 | the same for whole requests through before, inner and rest: same reply, error and world |
| NestedEngines.NestingKeepsCallOrder | packages/json-rpc-engine/src/mergeMiddleware.ts:12-18 | with every middleware and handler logged, nesting and splicing log the same calls in the same order |
| NestedEngines.NestingCanDiffer | packages/json-rpc-engine/src/JsonRpcEngine.ts:248-275 | a failing inner return handler: spliced, the outer handler is skipped; nested, it runs |
| JsonRpcReplies.ReplyHasExactlyOneIff | packages/json-rpc-engine/src/JsonRpcEngine.ts:387-462 | section 5 of JSON-RPC 2.0: for every input and stack, a reply has exactly one of result and error, and an error exactly when the callback gets one, exactly if the run, when it succeeded, has handlers that fail or leave just a result |
| JsonRpcReplies.HandlersAreSafeIff | packages/json-rpc-engine/src/JsonRpcEngine.ts:605-613 | a list of handlers is safe after every successful end exactly if from every context with a result and no error it fails or keeps both |
| JsonRpcReplies.ReplyHasExactlyOne | packages/json-rpc-engine/src/JsonRpcEngine.ts:387-462 | so every reply is proper if each handler by itself fails or keeps both after a success |
| JsonRpcReplies.ReplyCanCarryBoth | packages/json-rpc-engine/src/JsonRpcEngine.ts:435-461 | a return handler that sets an error after a successful end makes a reply with both |
| JsonRpcReplies.WhoIsAnswered | packages/json-rpc-engine/src/JsonRpcEngine.ts:391-434 | section 4.1: exactly which inputs get no reply, and that valid notifications with a handler never reach the middleware |
| JsonRpcReplies.MalformedRequestIsDropped | packages/json-rpc-engine/src/JsonRpcEngine.ts:404-422 | without a method, a notification handler drops even a request with an id; without a handler every such input is refused under its id |
| AsyncMiddleware.TwoPassIsOnion | packages/json-rpc-engine/src/createAsyncMiddleware.ts:54-96 | forward pass plus reversed handlers gives the context and the kind of end of the recursive onion |
| AsyncMiddleware.TwoPassesEqualOnion | packages/json-rpc-engine/src/createAsyncMiddleware.ts:54-96 | every stack of async middleware gets the reply, error and world, hence the order of calls, of "before m; rest of the stack; after m", in the cases of no end, no result, error before next, and failing after-parts |
| AsyncMiddleware.AsyncCall.Start | packages/json-rpc-engine/src/createAsyncMiddleware.ts:54-81 | running the body up to next or to its end makes the engine call of the wrapped middleware |
| AsyncMiddleware.AsyncCall.ReturnHandler | packages/json-rpc-engine/src/createAsyncMiddleware.ts:68-95 | the return handler resumes the body once and reports what its after-part did |
| StreamProtocol.StreamMiddleware.Middleware | packages/json-rpc-middleware-stream/src/createStreamMiddleware.ts:51-61 | a request is filed under its id before it is pushed |
| StreamProtocol.StreamMiddleware.Process | packages/json-rpc-middleware-stream/src/createStreamMiddleware.ts:107-127 | a response removes the entry under its id and sets a timer for that request; unknown or null ids change nothing |
| StreamProtocol.StreamMiddleware.RetryStuckRequests | packages/json-rpc-middleware-stream/src/createStreamMiddleware.ts:144-163 | the pass over the pending requests pushes each again, with responses arriving meanwhile, and stops with an exception at one over the limit |
| StreamProtocol.IdSource.GetUniqueId | packages/json-rpc-engine/src/getUniqueId.ts:12-15 | the counter advances by one modulo 4294967295 |
| StreamProtocol.DrawsCollideIff | packages/json-rpc-engine/src/getUniqueId.ts:6-15 | two draws coincide exactly when a multiple of 4294967295 draws separates them |
| StreamProtocol.NextIdFreeIff | packages/json-rpc-engine/src/idRemapMiddleware.ts:15-30 | the next id is unused exactly when no pending request is a whole number of laps old; fewer draws than a lap suffice |
| StreamProtocol.CollisionLosesCall | packages/json-rpc-middleware-stream/src/createStreamMiddleware.ts:51-61 | a call whose id is in use takes the place of the request pending under it, which is then neither pending nor ended |
| StreamProtocol.LostForever | packages/json-rpc-middleware-stream/src/createStreamMiddleware.ts:107-127 | whatever happens later, a lost request is never pending or ended again |
| StreamProtocol.NoneLostIff | packages/json-rpc-middleware-stream/src/createStreamMiddleware.ts:51-61 | over every run, each request is pending or ended at the end exactly if each call found its new id free |
| StreamProtocol.RunsKeepInv | packages/json-rpc-middleware-stream/src/createStreamMiddleware.ts:51-61 | every interleaving, however many ids are drawn and whatever responses hold, keeps ids, the pending map, push counts, the single end and the reply of each request in order |
| StreamProtocol.ResponsesReachTheirCaller | packages/json-rpc-middleware-stream/src/createStreamMiddleware.ts:107-163 | over every run each request is ended at most once, by a response with its id written after it; no response ends two; at most four pushes; the reply is under the original id if the response has a result or an error and else under the id drawn |
| StreamProtocol.OriginalIdIff | packages/json-rpc-engine/src/idRemapMiddleware.ts:15-30 | over every run a reply is under its caller's id exactly if the response has a result or an error, or the id drawn is the caller's own |
| StreamProtocol.EngineRepliesUnder | packages/json-rpc-engine/src/JsonRpcEngine.ts:473-495 | the engine running id remapping and then the stream middleware replies under just that id, with the result unless there is an error, or with its own error if there is neither |
| Numerals.PrintParses | packages/controller-utils/src/util.ts:212-220 | printing a number in base 10 or 16 and reading it back gives the number |
| GasFees.GweiDecToWEIBN | packages/controller-utils/src/util.ts:97-125 | total: NaN gives zero; a text is refused exactly unless its whole part and first nine fractional characters are digits; for signed decimals the result is the nearest whole wei, ties up, exactly unless negative with a first dropped digit of five or more |
| GasFees.TenCharactersMatter | packages/controller-utils/src/util.ts:102-124 | beyond the whole part only the first ten fractional characters matter |
| GasFees.ConversionIsNearestIff | packages/controller-utils/src/util.ts:114-124 | when it is not the nearest, the result of a negative amount is one or two wei too high |
| GasFees.ConversionIsMonotoneIff | packages/controller-utils/src/util.ts:114-124 | the conversion keeps the order of two signed amounts exactly unless the smaller is rounded the wrong way, the larger is not, and lies less than half a wei above the digits kept of the smaller |
| GasFees.ExponentIsIgnored | packages/controller-utils/src/util.ts:102-118 | a text with an exponent is refused exactly if its mantissa has fewer than nine fractional digits, and else converted without the exponent |
| GasFees.ExponentGoesWrong | packages/controller-utils/src/util.ts:102-118 | and then, but for the exponent zero, the result is not the nearest whole wei |
| GasFees.PrintThenParse | packages/controller-utils/src/util.ts:133-136 | the gwei text of any wei amount is decimal and converts back to it |
| GasFees.HexThenGweiThenWei | packages/controller-utils/src/util.ts:97-136 | wei, negative or not, to hex to gwei to wei returns the amount; a 0x prefix changes nothing |
| GasFees.NormalizeGWEIDecimalNumbers | packages/gas-fee-controller/src/gas-util.ts:26-30 | the composition of calls computes the normal form, "0" for NaN, or throws exactly where the conversion does |
| GasFees.NormalizeIsIdempotent | packages/gas-fee-controller/src/gas-util.ts:26-30 | normalizing keeps the wei value and normalizing twice is normalizing once |
| GasFees.NearestIsMonotone | packages/gas-fee-controller/src/gas-util.ts:146-163 | rounding to wei keeps the order of signed amounts |
| TimeEstimates.EstimateIsTier | packages/gas-fee-controller/src/gas-util.ts:139-195 | the branches, with their redundant guards, are the five ordered tiers, unless a fee is refused |
| TimeEstimates.EstimateIsMonotone | packages/gas-fee-controller/src/gas-util.ts:139-195 | for all fees read, offering more wei or a lower base fee never gives a slower tier; the suggested fees need not be ordered |
| TimeEstimates.EstimateFollowsAmounts | packages/gas-fee-controller/src/gas-util.ts:139-195 | the same for larger signed amounts that keep their order when converted |
| TimeEstimates.WaitIsMonotone | packages/gas-fee-controller/src/gas-util.ts:139-195 | with ordered wait times neither bound on the wait grows when more is offered |
| KeyringTransactions.KeyringController.ClearKeyrings | packages/keyring-controller/src/KeyringController.ts:2210-2216 | the keyrings before the first whose destruction throws are destroyed; all are dropped if none throws, and else none is |
| KeyringTransactions.KeyringController.RestoreSerializedKeyrings | packages/keyring-controller/src/KeyringController.ts:1929-1937 | the loop restores each serialized keyring or files it as unsupported |
| KeyringTransactions.KeyringController.UpdateVault | packages/keyring-controller/src/KeyringController.ts:2046-2109 | the vault is written with live and unsupported keyrings under the held password, or nothing changes |
| KeyringTransactions.KeyringController.UnlockKeyrings | packages/keyring-controller/src/KeyringController.ts:1948-2039 | decrypting, restoring and re-encrypting an outdated vault, with every step that can throw |
| KeyringTransactions.KeyringController.Rollback | packages/keyring-controller/src/KeyringController.ts:2371-2375 | restoring the saved keyrings, then the saved password |
| KeyringTransactions.KeyringController.PersistOrRollback | packages/keyring-controller/src/KeyringController.ts:2343-2377 | an operation commits to the vault or is rolled back |
| KeyringTransactions.KeyringController.SubmitPassword | packages/keyring-controller/src/KeyringController.ts:1355-1360 | unlocking under rollback |
| KeyringTransactions.KeyringController.SetLocked | packages/keyring-controller/src/KeyringController.ts:1089-1103 | locking under rollback |
| KeyringTransactions.RestoreEachKeepsAll | packages/keyring-controller/src/KeyringController.ts:2225-2237 | each keyring restored ends up live or unsupported, exactly once |
| KeyringTransactions.RestoreEachKeepsOrder | packages/keyring-controller/src/KeyringController.ts:1929-1937 | when nothing new is unsupported the live list has the same keyrings in the same order |
| KeyringTransactions.FailedOperationLosesNothingIff | packages/keyring-controller/src/KeyringController.ts:2343-2377 | after a failed operation vault and public list are as before; the password, and the set of keyrings, are exactly if the keyrings it left can be destroyed or it had not changed them; the unlocked flag exactly if it had not |
| KeyringTransactions.FailedOperationLosesNothing | packages/keyring-controller/src/KeyringController.ts:2343-2377 | when they can be destroyed nothing is lost, and with nothing unsupported the live list is as before, in order |
| KeyringTransactions.RollbackDuplicatesUnsupported | packages/keyring-controller/src/KeyringController.ts:1929-1937 | counting copies, a rollback restores the keyrings exactly when none was unsupported: each unsupported one is recorded twice |
| KeyringTransactions.FailedVaultKeepsLockIff | packages/keyring-controller/src/KeyringController.ts:1865-1882 | a new vault that fails keeps the unlocked flag exactly if the wallet was unlocked, its keyrings could not be destroyed, or no keyring with an account was made |
| KeyringTransactions.FailedVaultLeavesUnlocked | packages/keyring-controller/src/KeyringController.ts:780-789 | so an empty password leaves a locked wallet marked unlocked |
| KeyringTransactions.FailedChangeKeepsNewPasswordIff | packages/keyring-controller/src/KeyringController.ts:1305-1324 | a password that cannot be stored stays held exactly if a keyring cannot be destroyed |
| KeyringTransactions.FailedLockForgetsPassword | packages/keyring-controller/src/KeyringController.ts:1089-1103 | a failed lock keeps everything but the password |
| KeyringTransactions.UnlockLeaves | packages/keyring-controller/src/KeyringController.ts:1948-2039 | exactly what a failed unlock leaves before rolling back, and for good if the rollback fails too |
| KeyringTransactions.FailedUnlockKeeps | packages/keyring-controller/src/KeyringController.ts:1948-2039 | rolled back, it keeps vault, password and flag; exactly which keyrings are added and what the public list shows |
| KeyringTransactions.FailedUnlockKeepsKeyringsIff | packages/keyring-controller/src/KeyringController.ts:1948-2039 | its keyrings are as before exactly if the vault did not open or held nothing newly unsupported |
| KeyringTransactions.StepAgrees | packages/keyring-controller/src/KeyringController.ts:1948-2109 | every operation keeps wallet and vault in agreement, unless it fails and leaves keyrings that cannot be destroyed |
| KeyringTransactions.FailedRollbackAgreesIff | packages/keyring-controller/src/KeyringController.ts:2371-2375 | in that case they agree afterwards exactly if what it left is within the vault and, if it holds a password, opens the vault and has all that is there; spelled out for a wallet that held a password |
| KeyringTransactions.FailedUnlockAgreesIff | packages/keyring-controller/src/KeyringController.ts:1948-2039 | for an unlock exactly if the vault opened, the password was wrong, or the wallet had all that is in the vault |
| KeyringTransactions.AgreesThroughoutIff | packages/keyring-controller/src/KeyringController.ts:2362-2377 | wallet and vault agree throughout a run exactly if each operation finishes, rolls back, or has left what agrees |
| KeyringTransactions.VaultAgreesOverRuns | packages/keyring-controller/src/KeyringController.ts:1948-2109 | over all runs whose failed operations can be rolled back, a held password opens the vault and the vault holds exactly the live and unsupported keyrings |
| KeyringTransactions.VaultsWrittenHoldHd | packages/keyring-controller/src/KeyringController.ts:2046-2109 | a vault is only written by a successful operation and contains an HD keyring |
| KeyringLocks.AtMostOneRuns | packages/keyring-controller/src/KeyringController.ts:2404-2450 | in every interleaving one operation at most runs, and only it can hold the vault lock |
| KeyringLocks.ReleasesAreSafe | packages/keyring-controller/src/KeyringController.ts:2024-2035 | the late call of the first releaser frees nothing; a lock is only ever freed by its holder |
| KeyringLocks.SomeoneCanProceed | packages/keyring-controller/src/KeyringController.ts:2439-2450 | while an operation is unfinished, some unfinished operation can make its next move |
| KeyringLocks.StuckStays | packages/keyring-controller/src/KeyringController.ts:2024-2035 | an operation waiting for a lock it holds never moves again |
| KeyringLocks.WithoutEarlyReleaseNothingMoves | packages/keyring-controller/src/KeyringController.ts:2024-2035 | without the early release all later moves are operations joining the queue |
| NetworkLookups.LookupsWriteToTheirOwnNetwork | packages/network-controller/src/NetworkController.ts:772-871 | in every interleaving a lookup writes at most once, to the existing entry of the network it asked, never after a switch; listeners left are those of live, valid lookups; only Infura networks are announced blocked |
| NetworkLookups.StepKeepsInv | packages/network-controller/src/NetworkController.ts:663-683 | switching, resetting, rolling back, initializing, looking up and answering keep selection, client, entries and listeners consistent |
| NetworkLookups.OtherEntriesUntouched | packages/network-controller/src/NetworkController.ts:839-857 | a step leaves every entry alone but that of the answering lookup, of a lookup by id, or of a new selection |
| NetworkLookups.UnguardedWriteStaysHomeIff | packages/network-controller/src/NetworkController.ts:953-978 | after any run, the answer of the compatibility check leaves other networks alone exactly if the last selection was the network asked, none was made, or the answer is already held there |
| NetworkLookups.LastSelectionCounts | packages/network-controller/src/NetworkController.ts:1399-1447 | after a run the network selected last is the selected one |
| NetworkLookups.WritesMatchChainsIff | packages/network-controller/src/NetworkController.ts:799-857 | over every run all results are recorded for the chains asked exactly if each valid lookup is answered while the selected network is on the chain it asked |
| NetworkLookups.WritesMatchTheirChain | packages/network-controller/src/NetworkController.ts:799-857 | so they are if registry changes leave the selected network its chain during a lookup |
| NetworkLookups.ChainChangeGoesUnnoticedIff | packages/network-controller/src/NetworkController.ts:839-857 | after a registry change the result is for the chain asked exactly if the chain is the same |
| NetworkLookups.NetworkController.SelectNetwork | packages/network-controller/src/NetworkController.ts:1399-1469 | the client is switched and an entry added, or nothing changes for an unknown id |
| NetworkLookups.NetworkController.PublishDidChange | packages/network-controller/src/NetworkController.ts:786-797 | each listener marks its lookup stale and unsubscribes |
| NetworkLookups.NetworkController.Refresh | packages/network-controller/src/NetworkController.ts:663-674 | select, announce, look up |
| NetworkLookups.NetworkController.EndLookup | packages/network-controller/src/NetworkController.ts:799-871 | a stale lookup writes nothing; a valid one writes and announces what the answer means |
| NetworkRegistry.RegistryStaysInStep | packages/network-controller/src/NetworkController.ts:1124-1166 | over all runs of upsert and remove, RPC URLs stay distinct ignoring case and the registry has the ids and chain ids of the configurations |
| NetworkRegistry.UpsertKeepsInv | packages/network-controller/src/NetworkController.ts:1124-1166 | an upsert goes to the one configuration with the URL or to the fresh id, and keeps the invariant |
| NetworkRegistry.UpsertedClientIsCurrentIff | packages/network-controller/src/NetworkController.ts:1138-1159 | the client after an upsert is the one described exactly when it was created by it, or neither URL spelling nor ticker changed |
| NetworkRegistry.TickerGoesStale | packages/network-controller/src/NetworkController.ts:1138-1166 | upserting a new ticker changes the configuration but not the client |
| NetworkRegistry.NetworkController.FindByUrl | packages/network-controller/src/NetworkController.ts:1127-1132 | finds a configuration with the URL ignoring case, or none has it |
| NetworkRegistry.NetworkController.UpsertNetworkConfiguration | packages/network-controller/src/NetworkController.ts:1075-1190 | each error in order, else the new state, the id, the client destroyed and the network to switch to |
| NetworkRegistry.NetworkController.RemoveNetworkConfiguration | packages/network-controller/src/NetworkController.ts:1202-1223 | an unknown id fails; else configuration and client go and the client is destroyed |
| Approvals.Run | packages/approval-controller/src/ApprovalController.ts:890-1074 | every state reachable from the empty controller satisfies the whole invariant |
| Approvals.AddKeepsInv | packages/approval-controller/src/ApprovalController.ts:890-923 | an accepted addition keeps the indexes, the promises and the rate limit |
| Approvals.DeleteKeepsIndexes | packages/approval-controller/src/ApprovalController.ts:1032-1056 | a deletion keeps callback ids, stored ids, count, each origin and type count, and the origins present |
| Approvals.LastOfOrigin | packages/approval-controller/src/ApprovalController.ts:1039-1049 | the total for the origin is one exactly when no other request of the origin is stored |
| Approvals.AcceptKeepsInv | packages/approval-controller/src/ApprovalController.ts:684-716 | accepting, of any id and with any options, keeps the invariant |
| Approvals.AcceptSettlesIff | packages/approval-controller/src/ApprovalController.ts:684-716 | accepting settles the promise exactly unless the caller waits for a result the request does not give; then it is dropped |
| Approvals.DroppedForGood | packages/approval-controller/src/ApprovalController.ts:691-702 | a dropped promise is never settled by anything later |
| Approvals.ClearRejectsAll | packages/approval-controller/src/ApprovalController.ts:735-744 | a clear rejects all pending requests in filing order and empties every index |
| Approvals.ClearRejectsEachOnce | packages/approval-controller/src/ApprovalController.ts:735-744 | each pending request is rejected exactly once by a clear |
| Approvals.PromisesSettleOnce | packages/approval-controller/src/ApprovalController.ts:1066-1074 | over all runs no promise is settled twice or while pending, and a limited type has at most one pending request per origin |
| Approvals.LimitOfOneIff | packages/approval-controller/src/ApprovalController.ts:572-592 | over all runs the count of an origin and type stays at most one exactly if the type is not exempt |
| Approvals.FurtherRequestAcceptedIff | packages/approval-controller/src/ApprovalController.ts:900-907 | while one is pending, a further request is accepted exactly if its type is exempt |
| Approvals.TotalIsOriginCount | packages/approval-controller/src/ApprovalController.ts:592-598 | the sum of an origin's type counts is the number of its stored requests |
| Approvals.ApprovalController.GetApprovalCount | packages/approval-controller/src/ApprovalController.ts:582-608 | answers as a scan of the stored requests, or fails when nothing is specified |
| Approvals.ApprovalController.Has | packages/approval-controller/src/ApprovalController.ts:634-671 | answers as a scan of the stored requests, or fails when nothing is specified |
| Approvals.ApprovalController.AddRequest | packages/approval-controller/src/ApprovalController.ts:890-965 | each error in order with nothing changed, else the request is filed in all indexes with a new promise |
| Approvals.ApprovalController.AddPendingApprovalOrigin | packages/approval-controller/src/ApprovalController.ts:974-984 | exactly the count of the origin and type grows by one |
| Approvals.ApprovalController.DeleteRequest | packages/approval-controller/src/ApprovalController.ts:1032-1056 | the request leaves all indexes |
| Approvals.ApprovalController.AcceptRequest | packages/approval-controller/src/ApprovalController.ts:684-716 | not found, finished, awaiting the creator or refused, with the new state |
| Approvals.ApprovalController.RejectRequest | packages/approval-controller/src/ApprovalController.ts:725-727 | the request is removed and its promise rejected |
| Approvals.ApprovalController.ClearRequests | packages/approval-controller/src/ApprovalController.ts:735-744 | the loop over the callbacks and the resets |
| AccountNames.IndexTextIff | packages/accounts-controller/src/AccountsController.ts:845-847 | the unanchored pattern captures d exactly when the name is any text, the prefix, a space and the digits d |
| AccountNames.NameIsFreshIff | packages/accounts-controller/src/AccountsController.ts:838-869 | the new name is unused in its group exactly unless adding one to the last index changes nothing, as is possible from 2^53 on, and an account is called by it |
| AccountNames.NameIsFreshInTypeIff | packages/accounts-controller/src/AccountsController.ts:791-869 | it is unused among all accounts of the keyring type exactly if also no account that is not an EVM account has it |
| AccountNames.NextIndexIsLeast | packages/accounts-controller/src/AccountsController.ts:838-869 | the index exceeds the size of the group, is the successor of that size or of an index in use, and exceeds all of these exactly if the last one has a successor |
| AccountNames.IndexGrowsIff | packages/accounts-controller/src/AccountsController.ts:916-936 | of two additions the later gets the larger index exactly if the group has by then as many accounts as the earlier index or an index beyond it |
| AccountNames.IndexesIncrease | packages/accounts-controller/src/AccountsController.ts:916-936 | an EVM account added earlier to the group is enough, if adding one to its index changes it, as for every index below 2^53 |
| AccountNames.NextAdditionGrowsIff | packages/accounts-controller/src/AccountsController.ts:791-807 | of two accounts of one group added in a row the second gets the larger index exactly if the first is an EVM account and adding one to its index changes it; two names are one if it is not |
| AccountNames.SameNameIff | packages/accounts-controller/src/utils.ts:17-50 | keyring types have one name exactly if they are one group or both are custody types |
| AccountNames.CustodyNameRepeatsIff | packages/accounts-controller/src/utils.ts:17-23 | after an account of one custody type is named, the next name of another is the same exactly if their indexes were |
| AccountSync.ListingIff | packages/accounts-controller/src/AccountsController.ts:624-647 | exactly the addresses of the snap, or of the other, keyrings are listed |
| AccountSync.AccountsFollowKeyrings | packages/accounts-controller/src/AccountsController.ts:616-730 | after an unlocked, non-empty state is handled, normal accounts sit at exactly the normal keyring addresses, ignoring case |
| AccountSync.ListedAccountsKeepTheirNames | packages/accounts-controller/src/AccountsController.ts:673-730 | an account still listed keeps its name and import time |
| AccountSync.HandleKeepsCoherent | packages/accounts-controller/src/AccountsController.ts:720-756 | ids stay distinct, and the selection names an account or is empty with no EVM account |
| AccountSync.ReselectHolds | packages/accounts-controller/src/AccountsController.ts:732-754 | a selection that still names an account is not touched; otherwise one is chosen if there is one |
| AccountSync.HandleThrowsIff | packages/accounts-controller/src/utils.ts:17-50 | handling throws exactly when a new normal account's keyring type has no name |
| AccountSync.AdditionsAreNamedInTurn | packages/accounts-controller/src/AccountsController.ts:726-730 | additions are filed and named one after another |
| AccountSync.SnapAccountIsRefiledIff | packages/accounts-controller/src/AccountsController.ts:683-694 | a listed snap account is filed again exactly if no EVM snap account sits at its address |
| AccountSync.RefiledSnapAccount | packages/accounts-controller/src/AccountsController.ts:893-937 | filed again, it is there under its id with the name next in turn and the present import time |
| AccountSync.OtherChainAccountsAreRefiled | packages/accounts-controller/src/AccountsController.ts:683-730 | so its name and import time are overwritten in that case and kept otherwise |
| AccountSync.AccountsController.ListAddresses | packages/accounts-controller/src/AccountsController.ts:624-647 | the loops list normal and snap addresses in order |
| AccountSync.AccountsController.ListPrevious | packages/accounts-controller/src/AccountsController.ts:649-663 | the EVM accounts split by keyring type |
| AccountSync.AccountsController.FindAdded | packages/accounts-controller/src/AccountsController.ts:673-694 | listed addresses without an account, normal ones first |
| AccountSync.AccountsController.FindDeleted | packages/accounts-controller/src/AccountsController.ts:697-718 | accounts no longer listed |
| AccountSync.AccountsController.HandleNewAccountAdded | packages/accounts-controller/src/AccountsController.ts:893-937 | the account is named and filed, is skipped when the snap has dropped it, or naming throws |
| AccountSync.AccountsController.HandleKeyringStateChange | packages/accounts-controller/src/AccountsController.ts:616-756 | the method computes the specified new accounts, selection and exception |
| SelectorCache.CacheAgreesOverRuns | packages/base-controller/src/ControllerMessenger.ts:236-376 | with handlers on one event at a time, over every run, controllers registering at any time, each cached value is what the selector selects from its controller's state, but for controllers that came after a subscriber and have not changed since |
| SelectorCache.PublishEstablishes | packages/base-controller/src/BaseControllerV2.ts:198-222 | an update makes the cache agree for its event, whatever it held before |
| SelectorCache.SharedHandlerAgreesIff | packages/base-controller/src/ControllerMessenger.ts:268-275 | publishing one event keeps the cached values right for another exactly if, for each handler on both, the two selectors select the same |
| SelectorCache.CallsAreTheChanges | packages/base-controller/src/ControllerMessenger.ts:259-288 | a handler is called exactly for the changes among the values selected from what its event published |
| SelectorCache.ChangesChain | packages/base-controller/src/ControllerMessenger.ts:272-275 | each call reports a change, from the value reported last |
| SelectorCache.ChangesAreStutterFree | packages/base-controller/src/ControllerMessenger.ts:269-275 | the reported values are the selected values without stutter |
| SelectorCache.ClearLeavesStaleValue | packages/base-controller/src/ControllerMessenger.ts:386-390 | clearing an event leaves cached values behind, which can silence the first publication to a new subscription |
| SelectorCache.ControllerMessenger.Publish | packages/base-controller/src/ControllerMessenger.ts:259-288 | the loop delivers to subscribers in order, a throwing selector being skipped |
| SelectorCache.ControllerMessenger.Subscribe | packages/base-controller/src/ControllerMessenger.ts:328-348 | the handler keeps its place if known, and the initial value is cached, or the selector throws |
| SelectorCache.ControllerMessenger.Unsubscribe | packages/base-controller/src/ControllerMessenger.ts:360-376 | the handler goes, with its cached value if it had a selector; an unknown one changes nothing |
| SelectorCache.ControllerMessenger.Update | packages/base-controller/src/BaseControllerV2.ts:198-222 | the new state is stored and then published |
| SelectorCache.ControllerMessenger.ClearEventSubscriptions | packages/base-controller/src/ControllerMessenger.ts:386-390 | the event loses its subscribers and the cache is left as it is |

## Left out

Assumptions that stand for code outside the models:

- Encryption is a round trip under the same password; restoring a keyring and
  serializing it again gives the same data. A restored HD keyring without a
  mnemonic, which gets a random one, does not fit this.
- The mutex contract: first come first served, and a releaser called twice does
  nothing the second time.
- The unit library converts exactly; the URL parser is a parameter; random ids are
  fresh; ids derived from addresses are equal exactly when the addresses are,
  ignoring case, and differ from those of snap accounts.
- Letter case is ASCII. JSON values, request parameters and request data are
  opaque text.

What the models do not capture:

- ApprovalController: approval flows, request state updates and result pages; they are a plain stack and plain records. Prototype names as request ids are not told apart from others.
- JSON-RPC engine: batches (section 6), which handle each element separately; callback checks; middleware that calls `next` or `end` more than once; response properties that are present but undefined or null; falsy thrown values that are not null; handlers that throw outside their callback.
- Async middleware that calls `next` without awaiting it.
- Stream: string ids, destruction of the stream after a failed write, notification events, return handlers of other middleware, and calls or further retry notifications that arrive synchronously while pending requests are being pushed again. After a collision of ids a late response to the lost request cannot be told from one to the request that took its id.
- Keyring controller: the mode with a cached encryption key, QR keyrings, signing, and direct access to keyrings. The check for duplicates is part of what may throw while restoring. Keyrings destroyed before one that throws stay in the list, as in the code; that they are unusable there is not modelled.
- Network controller: fetches and provider proxies, `loadBackup`, the switch that follows an upsert with `setActive`, which is one of the steps of `NetworkLookups`, subscribers that switch networks while being notified, and the ids of built-in networks in the registry.
- Accounts controller: `updateAccounts`, snap state changes, a missing snap keyring; handling one change uses one reading of the clock.
- Messenger: actions, subscribers that publish or subscribe while being called, selectors that look at patches, and NaN as a selected value. Errors thrown by handlers, which the code reports later, leave no trace.
- Gas: what the unit library does beyond reading digits with a sign and printing; it is taken to refuse all other text.

Contracts that are weaker than one might wish:

- KeyringTransactions.FailedOperationLosesNothing: assumes that the keyrings left can be destroyed; `FailedOperationLosesNothingIff` is the exact statement.
- KeyringTransactions.VaultAgreesOverRuns: assumes the same of each failed operation of the run; `AgreesThroughoutIff` is the exact statement.
- AccountNames.NameIsFreshIff: rests on what is assumed of JavaScript numbers from 2^53 on: adding one never goes down and keeps the order; where it goes up the new text reads back; where it changes nothing the text reads back or is not all digits; different numbers have different texts. It and the other lemmas on names assume fewer than 2^53 accounts.
- AccountNames.IndexesIncrease: assumes that the accounts added have different ids, since filing under a known id takes that account out of its group; `IndexGrowsIff` does not.
- NetworkLookups.WritesMatchTheirChain: a sufficient condition; `WritesMatchChainsIff` is the exact statement.
- AccountSync.AccountsFollowKeyrings: says nothing about snap accounts, which depend on what the snap keyring answers.
- AccountSync.SnapAccountIsRefiledIff: assumes that the snap keyring finds accounts by address.
- JsonRpcReplies.ReplyHasExactlyOne: a sufficient condition on single handlers; `ReplyHasExactlyOneIff` is the exact statement.
- SelectorCache.CacheAgreesOverRuns: says nothing about a controller that came after a subscriber until its first update, from which on `PublishEstablishes` holds.
