# Fit Coach FHE client logic, modelled in Dafny

`frontend/web/src/App.tsx` is a React component for a workout log. The log is kept
as a single JSON value in a key/value contract. Inside the markup sits a small logic
layer, and this project models it:

- the score token codec `FHEEncryptNumber` / `FHEDecryptNumber`. Despite the name,
  it is `"FHE-"` followed by `btoa` of the number's decimal rendering, and decoding
  is `atob` followed by `parseFloat`.
- the record list: the entry `addFitnessData` appends, the way `loadData` falls back
  to an empty list, `getWorkoutsForDate` and `calculateWeeklyStats`.
- the component state and its handlers: the transaction-status banner,
  `loadData`, `addFitnessData`, `decryptWithSignature` with its signing challenge,
  the decrypt/hide toggle and the close buttons of the detail view, and the chat
  transcript of `handleAIChat`.

Modules follow the layers:

| file | module | contents |
|---|---|---|
| `wrappers.dfy` | `Wrappers` | `Option` |
| `text.dfy` | `Text` | JavaScript `trim`, `startsWith`, `includes` and line splitting |
| `numbers.dfy` | `Numbers` | `Number.prototype.toString` on naturals and `parseFloat` |
| `base64.dfy` | `Base64` | `btoa` (section 4 of RFC 4648, with padding) and `atob` (the WHATWG forgiving-base64 decode) |
| `codec.dfy` | `Codec` | the token codec |
| `records.dfy` | `Records` | `FitnessData`, the appended entry, the per-date filter and the weekly statistics |
| `app.dfy` | `App` | the contract slot (`Ledger`), the serializers, the status messages and the `AppState` class |

These parts become parameters:

- The wallet and the contract transport become outcome parameters: `ReadOutcome`,
  `WriteOutcome` and `SignOutcome`. The contract's storage is a `Ledger` object
  whose `store` map the write updates.
- UTF-8 and JSON are the four functions of a `Serializer`. The laws of these
  functions that saving and reloading rely on are the predicate `Lawful`.
- A timer's effect is an explicit method (`ClearStatus`, `FinishAdd`,
  `DeliverAiReply`).
- Randomness is a parameter: the digit values of `GeneratePublicKey` and the reply
  index of `DeliverAiReply`.
- The clock is a parameter: `now`, `nowMs`, and the weekly `cutoff` instant.
- `new Date(...)` parsing is a parameter too: `dateValue`, where `None` stands for
  an invalid date.

The ghost fields `statusLog` and `signatureRequests` of `AppState` record every status
the handlers set and every challenge handed to the wallet.

As written, `loadData` shows the success banner "Contract is available!" exactly when
`isAvailable()` returns false. `LoadStatuses` models this as written.

## Model

| member | source | states |
|---|---|---|
| Text.TrimEmptyIffBlank | frontend/web/src/App.tsx:179 | `trim()` of a string is empty exactly when every character is JavaScript white space; the chat and the loader test for blank text this way |
| Text.Trim | frontend/web/src/App.tsx:91 | `String.prototype.trim`: the removed prefix and suffix are white space and the result neither starts nor ends with white space; `TrimEmptyIffBlank` states when it is empty |
| Text.HasPrefix | frontend/web/src/App.tsx:27 | `startsWith`; `DecryptPlainDecimal` and `DecryptRejectsForeign` use it for the token prefix |
| Text.Contains | frontend/web/src/App.tsx:145 | `includes`; `SubmissionMessageDistinguishesRejection` states the error text it selects |
| Text.Split | frontend/web/src/App.tsx:165 | splitting at a separator, the inverse of joining lines that hold no separator (`SplitJoin`); it is used to read the challenge back |
| Text.SplitJoin | frontend/web/src/App.tsx:165 | joining lines that hold no separator and splitting at the separator gives back the same lines |
| Numbers.DigitsValueOfDecimal | frontend/web/src/App.tsx:26 | reading back the decimal rendering of a natural gives that natural |
| Numbers.DecimalStringInjective | frontend/web/src/App.tsx:26 | distinct naturals have distinct decimal renderings |
| Numbers.DecimalString | frontend/web/src/App.tsx:26 | `toString` of a natural is non-empty, all digits, and has no leading zero |
| Numbers.ParseFloatIgnoresSurroundings | frontend/web/src/App.tsx:27 | `parseFloat` yields n for n's rendering, whatever white space precedes it and whatever follows it that cannot continue a number: not a digit, `.`, `e` or `E` |
| Numbers.ParseFloat | frontend/web/src/App.tsx:27 | `parseFloat` on unsigned integer text; `ParseFloatIgnoresSurroundings` and `ParseFloatOfDecimal` state its results |
| Numbers.ParseFloatOfDecimal | frontend/web/src/App.tsx:27 | `parseFloat(n.toString()) == n` |
| Base64.EncodeIsWellFormed | frontend/web/src/App.tsx:26 | `btoa` output is well-formed Base64: alphabet characters, at most two trailing `=`, and `4 * ceil(n / 3)` characters for n bytes |
| Base64.DecodeEncode | frontend/web/src/App.tsx:26-27 | decoding undoes encoding on every byte sequence |
| Base64.Btoa | frontend/web/src/App.tsx:26 | `btoa` succeeds exactly on strings with no character above U+00FF |
| Base64.AtobBtoa | frontend/web/src/App.tsx:26-27 | `atob(btoa(s)) == s` for every string `btoa` accepts |
| Base64.RemoveAsciiWhitespaceSpec | frontend/web/src/App.tsx:27 | the white space `atob` ignores is removed: the result has none, keeps every other character and adds none, and text without white space is left unchanged |
| Base64.RemoveAsciiWhitespaceAppend | frontend/web/src/App.tsx:27 | removal works piecewise over concatenation, so the kept characters stay in order and keep their number of occurrences |
| Base64.RemoveAsciiWhitespaceSingle | frontend/web/src/App.tsx:27 | a single character is dropped exactly when it is ASCII white space; with the piecewise lemma this determines the result for every input |
| Base64.EncodeLength | frontend/web/src/App.tsx:26 | `btoa` of n bytes has `4 * ceil(n / 3)` characters |
| Base64.Atob | frontend/web/src/App.tsx:27 | `atob` yields a Latin-1 string or fails; `AtobBtoa`, `DecodeRejectsForeign` and `DecodeRejectsLength` state its results |
| Base64.DecodeRejectsForeign | frontend/web/src/App.tsx:27 | a character that is not alphabet, white space or `=` makes `atob` fail |
| Base64.DecodeRejectsLength | frontend/web/src/App.tsx:27 | text whose length without white space is 1 modulo 4 makes `atob` fail |
| Codec.EncryptNumber | frontend/web/src/App.tsx:26 | `FHEEncryptNumber`; `EncryptNumberShape`, `DecryptEncrypt` and `EncryptInjective` state its results |
| Codec.DecryptNumber | frontend/web/src/App.tsx:27 | `FHEDecryptNumber`; `DecryptEncrypt`, `DecryptUnprefixedParses`, `DecryptPlainDecimal` and the two rejection lemmas state its results |
| Codec.EncryptNumberShape | frontend/web/src/App.tsx:26 | every token starts with `FHE-`, and the rest is well-formed Base64 of the decimal rendering |
| Codec.DecryptEncrypt | frontend/web/src/App.tsx:26-27 | `FHEDecryptNumber(FHEEncryptNumber(n)) == n` for every natural n |
| Codec.EncryptInjective | frontend/web/src/App.tsx:26 | distinct numbers get distinct tokens |
| Codec.DecryptUnprefixedParses | frontend/web/src/App.tsx:27 | a token without the prefix is parsed as it stands and never fails |
| Codec.DecryptPlainDecimal | frontend/web/src/App.tsx:27 | a bare decimal rendering, used as a token, decodes to its number |
| Codec.DecryptRejectsForeign | frontend/web/src/App.tsx:27 | a prefixed payload holding a character foreign to Base64 makes decoding throw |
| Codec.DecryptRejectsLength | frontend/web/src/App.tsx:27 | a prefixed payload of impossible length makes decoding throw |
| Records.WorkoutsForDateSpec | frontend/web/src/App.tsx:235-237 | `getWorkoutsForDate(d)` has exactly the records dated d, each as often as in the list, in list order (a subsequence), and filtering twice equals filtering once |
| Records.WorkoutsForDate | frontend/web/src/App.tsx:235-237 | `getWorkoutsForDate`; `WorkoutsForDateSpec` states its result |
| Records.Last7Days | frontend/web/src/App.tsx:214-218 | the records in the window; `WeeklyWindowMembers` and `WeeklyWorkoutsCount` state which they are and how many |
| Records.NewEntry | frontend/web/src/App.tsx:121-128 | the entry `addFitnessData` builds: id one more than the list's length, the form's fields, and the token of duration times calories (`NewEntryScoreConsistent`) |
| Records.Appended | frontend/web/src/App.tsx:131 | `[...fitnessData, newEntry]`; `AddAllSpec` and `AddThenReload` state the list it gives |
| Records.CalculateWeeklyStats | frontend/web/src/App.tsx:213-231 | `workouts` is at most the list's length; the averages are 0 with no workout, and otherwise the average times `workouts` is the total |
| Records.Average | frontend/web/src/App.tsx:222-223 | the mean is 0 for no values; otherwise the mean times the count is the total |
| Records.WeeklyWorkoutsCount | frontend/web/src/App.tsx:214-226 | `workouts` equals the number of list positions whose record is in the window |
| Records.WeeklyWindowMembers | frontend/web/src/App.tsx:214-218 | a record is in the window exactly when its date parses and is not before the cutoff: future dates count and invalid dates do not |
| Records.WeeklyStatsAppend | frontend/web/src/App.tsx:214-226 | appending a record in the window adds one workout and adds its duration and calories to the totals; appending any other record changes no statistic |
| Records.WeeklyTotalsBounded | frontend/web/src/App.tsx:220-221 | the weekly totals never exceed the totals over the whole list |
| Records.EncryptedScoreConsistent | frontend/web/src/App.tsx:127 | a record whose token encodes its duration times its calories decodes back to that score |
| Records.NewEntryScoreConsistent | frontend/web/src/App.tsx:121-128 | the score token of the new entry decodes back to its duration times its calories |
| Records.AddAllSpec | frontend/web/src/App.tsx:121-131 | a series of adds keeps every earlier record unchanged, and the k-th add appends the entry built from a list of `|data| + k` records |
| Records.AddsFromEmptyNumbered | frontend/web/src/App.tsx:122 | N adds to an empty list give the ids 1..N in insertion order |
| Records.AddAllScoresConsistent | frontend/web/src/App.tsx:121-131 | adds keep every record's score token consistent with its duration and calories |
| App.Ledger.GetData | frontend/web/src/App.tsx:86 | a key that was written reads back its bytes; a key never written reads as empty bytes |
| App.Ledger.SetData | frontend/web/src/App.tsx:134 | the write replaces the value under its key and changes nothing else in the store |
| App.LoadedList | frontend/web/src/App.tsx:86-94 | the list `loadData` makes of the stored bytes; `LoadedListCases` and `LoadEncoded` state its results |
| App.LoadStatuses | frontend/web/src/App.tsx:78-98 | the statuses `loadData` sets per outcome, with the "Contract is available!" notice when the contract is not available; `App.AppState.LoadData` ties them to the status log |
| App.SubmissionMessage | frontend/web/src/App.tsx:145-147 | the error text of a failed write; `SubmissionMessageDistinguishesRejection` states its cases |
| App.DecryptResult | frontend/web/src/App.tsx:156-175 | the value `decryptWithSignature` returns; `DecryptResultOfToken`, `DecryptResultOfForeign` and `DecryptResultUnsigned` state its cases |
| App.ChallengeMessage | frontend/web/src/App.tsx:165 | the challenge text; `ChallengeLines` shows it splits back into its five labelled lines |
| App.LoadedListCases | frontend/web/src/App.tsx:86-94 | load gives the empty list for empty bytes, undecodable bytes and blank text, and the parse result (empty when unparsable) otherwise |
| App.LoadEncoded | frontend/web/src/App.tsx:86-94 | with lawful JSON and UTF-8, loading the saved bytes of a list gives back that list |
| App.SubmissionMessageDistinguishesRejection | frontend/web/src/App.tsx:145-147 | the error text is "Transaction rejected by user" exactly when the exception message mentions a user rejection; otherwise it starts with "Submission failed: " |
| App.DecryptResultOfToken | frontend/web/src/App.tsx:169 | signed, a token made by the codec reveals its number |
| App.DecryptResultOfForeign | frontend/web/src/App.tsx:169-171 | signed, a prefixed payload holding a character foreign to Base64 reveals `null` |
| App.DecryptResultUnsigned | frontend/web/src/App.tsx:157-171 | without a connection or a signature the result is `null`, whatever the token |
| App.ChallengeLines | frontend/web/src/App.tsx:165 | the signed challenge splits at line feeds into its five labelled lines, so its text determines every field it carries |
| App.GeneratePublicKey | frontend/web/src/App.tsx:28 | the key is `0x` followed by 2000 hexadecimal digits, one for each random draw, and holds no line feed |
| App.AppendWellFormed | frontend/web/src/App.tsx:187 | appending a well-formed message keeps the transcript well formed |
| App.AppState.constructor | frontend/web/src/App.tsx:31-52 | the initial state holds every `useState` default |
| App.AppState.SetStatus | frontend/web/src/App.tsx:38 | the banner shows the status set, and that status is appended to the log |
| App.AppState.SetAccount | frontend/web/src/App.tsx:31 | the wallet account changes |
| App.AppState.InitSignatureParams | frontend/web/src/App.tsx:57-67 | the contract address and chain id are set only when looked up; a rejected lookup ends the function, leaving the later fields as they were; otherwise the start time is the clock in whole seconds, the duration is 30 days and the public key is `generatePublicKey()` of the given draws; key and address stay free of line feeds |
| App.AppState.ClearStatus | frontend/web/src/App.tsx:82 | the auto-clear timer hides the banner |
| App.AppState.LoadData | frontend/web/src/App.tsx:72-103 | a successful read replaces the list wholesale by the loaded list; a failed read keeps it; the statuses set are those for the outcome; the refresh and loading flags end false |
| App.AppState.SetNewData | frontend/web/src/App.tsx:526 | the form's values change |
| App.AppState.AddFitnessData | frontend/web/src/App.tsx:106-153 | without a connected account: "Please connect wallet first", no write, list and flags unchanged. A failed write: pending then the failure text, no write, list and refresh flags unchanged. A committed write: the contract holds the old list plus the new entry, pending then success are shown, the list is reloaded and the refresh flags end false |
| App.AppState.SubmitAdd | frontend/web/src/App.tsx:113-152 | past the connection check, a failed write changes neither the contract, the list nor the refresh flags, and a committed write stores the appended list and reloads, leaving the refresh flags false; `addingData` ends false |
| App.AppState.ReportSubmitFailure | frontend/web/src/App.tsx:144-149 | a failed write shows pending, then the error text derived from the exception |
| App.AppState.CommitAdd | frontend/web/src/App.tsx:116-137 | the committed write stores the appended list, shows pending then success, and reloads; the refresh flags end false |
| App.AppState.FinishAdd | frontend/web/src/App.tsx:139-143 | the success timer hides the banner, closes the form and resets its values |
| App.AppState.DecryptWithSignature | frontend/web/src/App.tsx:156-175 | without a connection: "Please connect wallet first", no signature request, `null`. Otherwise: exactly one challenge is handed to the wallet, and it splits back into its five labelled lines; the result is the decoded token once signed and `null` if signing fails, and `isDecrypting` ends false |
| App.AppState.SelectData | frontend/web/src/App.tsx:349 | clicking a card opens its detail view |
| App.AppState.ToggleDecrypt | frontend/web/src/App.tsx:620-627 | a shown value is hidden with no signature request and no status change; otherwise the value shown is the result of `decryptWithSignature`, with its challenge, status and `isDecrypting` effects |
| App.AppState.CloseDetail | frontend/web/src/App.tsx:583-586 | closing clears both the selected record and the decrypted value |
| App.AppState.SetUserMessage | frontend/web/src/App.tsx:495 | the chat input changes |
| App.AppState.HandleAiChat | frontend/web/src/App.tsx:178-190 | a blank input changes nothing. Otherwise the user's message is appended to the transcript, the input is cleared and a reply becomes pending; the transcript stays well formed |
| App.AppState.DeliverAiReply | frontend/web/src/App.tsx:192-209 | the reply timer appends the chosen canned reply and ends the pending state; the transcript stays well formed |
| App.LoadDataIdempotent | frontend/web/src/App.tsx:86-94 | two loads with no write in between give the same list |
| App.AddThenReload | frontend/web/src/App.tsx:121-137 | with lawful JSON and UTF-8, a committed add followed by its reload leaves the old list plus the new entry, numbered after the rest |

## Left out

- Wallet, contract and provider calls are not modelled. These are `getContractReadOnly`, `getContractWithSigner`, `isAvailable`, `getData`, `setData`, `getAddress`, `signMessageAsync` and `window.ethereum.request`. Their results are the outcome parameters, and the contract's key/value storage is the `Ledger`. The `Ledger` holds exactly what the client wrote. `WriteCommits` assumes that the write is already visible to the next read: the source awaits only the promise `setData` returns, not a receipt, so whether the reload sees the new list depends on the contract binding. `AddThenReload` depends on this assumption.
- `JSON.stringify`, `JSON.parse`, `ethers.toUtf8String` and `ethers.toUtf8Bytes` are library code. They are the abstract functions of a `Serializer`; `Lawful` names the laws that the save-then-load results assume.
- `JSON.parse` returning a value that is not an array of records is not modelled: parsing yields a record list or fails.
- Timers, delays and their interleavings are not modelled. Each timer callback is a method the caller runs (`ClearStatus`, `FinishAdd`, `DeliverAiReply`), and the 1500 ms delays are dropped. Races between handlers are concurrency and out of scope, as is the double-submit race on the whole-list write.
- `Math.random()` is not modelled: `GeneratePublicKey` takes the 2000 digit values and `DeliverAiReply` takes the reply index.
- `Date.now()` and `new Date(...)` are not modelled: the clock is a parameter, and date parsing is the `dateValue` parameter. The weekly `cutoff` instant stands for `today.setDate(today.getDate() - 7)`. Because the source compares a midnight-parsed date with a clock instant, nothing is claimed about a record dated exactly seven days ago.
- `InitSignatureParams`: requires the contract address to hold no line feed, which a hexadecimal address never does; `getAddress` itself is not modelled.
- `parseInt(chainIdHex, 16)` is not modelled: the chain id arrives as a natural, or as absent when there is no wallet.
- `Records.Average`: exact rational division, not IEEE-754 double division; `toFixed` formatting is rendering and is not modelled.
- `Numbers.ParseFloat`: reads only an unsigned run of decimal digits after leading white space. Signs, fractions, exponents and `Infinity` are not modelled; every token this client produces lies inside what is covered.
- `Codec.EncryptNumber`: takes a natural. `toString` on negative, fractional or non-finite numbers, its exponent form from 1e21 on, and the loss of precision above 2^53 are not modelled.
- `Records.FitnessData`: `duration` and `calories` are naturals. `parseInt(...) || 0` in the form keeps them integral.
- Exceptions whose `message` is undefined (`e.message.includes` would itself throw) are not modelled: a failed write always carries a message string.
- The enabling conditions of buttons (`disabled={...}`) and all JSX rendering are not modelled. This covers the tab switch (`activeTab`) and the calendar date picker (`selectedDate`).
- `console.error` logging is not modelled.
