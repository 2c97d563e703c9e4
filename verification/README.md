# stellar-command in Dafny

A verified model of the logic inside the stellar-command palette: a Cmd+K
command menu for web pages that talks to the Stellar network through Horizon
(the ledger query service) and to the Freighter browser wallet.

The model covers three pieces:

- **Account fetching** (`StellarFunctions`, src/lib/stellar-functions.ts).
  `fetchAccount` checks the key against the Ed25519 StrKey format. It queries
  Horizon only when the key passes. It then classifies failures: an invalid
  key gives 400, a 404 reply gives "account not funded on network", and any
  other failure passes its status through (400 when absent) with a
  "title - detail" message. `fetchAccountBalances` projects the `balances` field.
- **Sending a payment** (`SendPaymentContent`,
  src/stellar-command/command-content/send-payment.tsx). This covers the asset
  picker, the send button's enable condition and `sendPayment` itself.
  `sendPayment` is a pure function of the view state and the replies of every
  awaited call: the account reload, the SDK's build, Freighter's signature,
  the XDR decode and the submission. It returns the transaction handed to the
  builder, the external calls in order, the final form and loading flag, the
  toast and whether the view went back.
- **The palette** (`CommandMenu`, src/stellar-command/index.tsx). This covers
  the command groups, the state change each selected command causes, going
  back from a content view, the Cmd/Ctrl+K shortcut and the Horizon base URL.

`JsValues` holds the JavaScript value shapes the logic depends on:
`null`/`undefined`, string and number truthiness, and template-literal text.
`Horizon` holds the records the widget reads.

Behaviour the code has and the model keeps:

- The asset lookup is `balances.find(b => (code matches) || b is native)`. It
  returns the first balance that is native OR carries the selected code. So
  when a native line comes before the matching credit line, the issuer is
  lost and a code-only asset is built (`NativeFirstLosesIssuer`).
- The lookup reads the balances fetched when the view mounted. The account
  reloaded at send time supplies only the transaction's source account
  (`ReloadOnlyFeedsSourceAccount`).
- There is no unknown-asset error. There is no amount-positivity check beyond
  the button's truthiness test. There is no separate outcome for a signer
  rejection. Every thrown step ends in the same generic error toast with the
  form kept.
- A `null` amount makes `assetAmount!.toString()` throw after the reload.
  That throw is caught, and no operation is built.
- The picker identifies an option by its value. XLM has the value "native", and
  a credit line whose asset code is "native" gets the same value. Choosing that
  line selects "native", so the payment is built with the native asset: such a
  held asset cannot be sent (`NativeCodedCreditPaysXlm`).
- The Reddit entry carries its callback under `select` instead of `onSelect`.
  The item renderer calls `cmd.onSelect`, so choosing Reddit from the list
  throws and changes nothing (`RedditChoiceIsInert`).
- LOGIN and GET_PUBLIC_KEY await Freighter without a `try`. When that call
  throws, the handler stops before clearing the selection. GET_NETWORK catches
  the error, so it always clears. GET_NETWORK_INFO is never listed and changes
  nothing.

## Model

| member | source | states |
|---|---|---|
| `StellarFunctions.FetchAccount` | src/lib/stellar-functions.ts:4-29 | An invalid key gives (400, "invalid public key") and queries nothing. A valid key is queried exactly once. Success returns the record unchanged. The result is 404 "account not funded on network" exactly when Horizon answered 404. Any other failure keeps its status, or 400 when it has none, with the "title - detail" message. |
| `StellarFunctions.FetchAccountBalances` | src/lib/stellar-functions.ts:31-37 | Same queries and same failures as `fetchAccount`. On success it returns exactly the record's `balances`. |
| `StellarFunctions.FetchAccountAsWritten` | src/lib/stellar-functions.ts:8-28 | As written, a failure can only be a ReferenceError for the undeclared `error`. Success happens exactly when the key is valid and Horizon found the account. |
| `StellarFunctions.UndefinedErrorHidesClassification` | src/lib/stellar-functions.ts:14-27 | The as-written and intended functions agree on success. Every failure the intended function classifies is, as written, the same ReferenceError. |
| `StellarFunctions.UnfundedAccountWitness` | src/lib/stellar-functions.ts:14-16 | For an unfunded account, the intended result is 404. As written, the result is a ReferenceError. |
| `SendPaymentContent.NetworkName` | src/stellar-command/command-content/send-payment.tsx:85 | "TESTNET" exactly on test net, "PUBLIC" exactly otherwise. |
| `SendPaymentContent.FindIndex` | src/stellar-command/command-content/send-payment.tsx:90-94 | Returns the first index whose balance is native or carries the selected code. Returns none only when no balance is either. |
| `SendPaymentContent.FindAsset` | src/stellar-command/command-content/send-payment.tsx:90-94 | The found balance belongs to the list and is never a pool share. A found credit line carries the selected code. It is the first native or matching balance: none before it is either. Nothing is found exactly when no balance is native or matches. |
| `SendPaymentContent.PaymentAsset` | src/stellar-command/command-content/send-payment.tsx:103-108 | The asset is native exactly when "native" is selected, whatever the balances. An issued asset has the selected code and the issuer of a held credit line with that code. A code-only asset has the selected code. |
| `SendPaymentContent.IssuedIffCreditBeforeNative` | src/stellar-command/command-content/send-payment.tsx:90-108 | The issuer is kept exactly when a credit line with the selected code comes before every native line and every earlier match. |
| `SendPaymentContent.NativeFirstLosesIssuer` | src/stellar-command/command-content/send-payment.tsx:90-108 | A native line ahead of every matching credit line yields a code-only asset for a non-native selection. |
| `SendPaymentContent.FirstMatchingCreditSuppliesIssuer` | src/stellar-command/command-content/send-payment.tsx:90-108 | With no native line ahead of it, the first credit line with the selected code supplies the issuer. |
| `SendPaymentContent.CodeOptions` | src/stellar-command/command-content/send-payment.tsx:200-206 | Every code option is the code of a credit line held by the account. |
| `SendPaymentContent.PickerOptions` | src/stellar-command/command-content/send-payment.tsx:198-206 | XLM is offered, first, exactly when a native line exists, and then exactly once. Every other option is a credit line's code, so pool shares are never offered. Each code is offered once per credit line carrying it, duplicates included. The code options close the list in balance order. |
| `SendPaymentContent.CodeOptionsAppend` | src/stellar-command/command-content/send-payment.tsx:200-206 | The options of concatenated balance lists are the concatenated options, so balance order is kept. |
| `SendPaymentContent.CodeOptionsKeepDuplicates` | src/stellar-command/command-content/send-payment.tsx:200-206 | Each code is offered as many times as credit lines carry it. |
| `SendPaymentContent.XlmThenCodes` | src/stellar-command/command-content/send-payment.tsx:198-206 | An optional XLM entry ahead of the code options is counted once. It differs from every code option by its caption; a credit line coded "native" still shares its value. Every code keeps its credit-line count, and the code options follow the XLM entry unchanged. |
| `SendPaymentContent.CodeOptionsCounts` | src/stellar-command/command-content/send-payment.tsx:200-206 | For every code at once, the number of its options equals the number of credit lines carrying it. |
| `SendPaymentContent.NativeCodedCreditPaysXlm` | src/stellar-command/command-content/send-payment.tsx:103-108 | A credit line coded "native" is offered under the value "native", the same value as XLM, and choosing it builds a native payment. Such an asset can never be sent. |
| `SendPaymentContent.NativeCodedCreditWitness` | src/stellar-command/command-content/send-payment.tsx:198-206 | For a native line followed by a credit line coded "native", the picker is XLM then a "native" code option with the same value, and selecting "native" pays XLM. |
| `SendPaymentContent.SendDisabled` | src/stellar-command/command-content/send-payment.tsx:219 | The button is enabled exactly when the asset, destination and amount are all set and non-empty, and the amount is neither 0 nor NaN. |
| `SendPaymentContent.SendPayment` | src/stellar-command/command-content/send-payment.tsx:78-149 | Without a public key, nothing happens at all. Otherwise the account is reloaded first. Calls follow load, sign, decode, submit, and sign and decode use the same network name. The calls stop at the first step that throws: signing happens exactly when the reload and the build returned and an amount is set, decoding exactly when signing returned, submission exactly when decoding returned. The "unsuccessful" message appears exactly when a submission returned unsuccessful. Loading ends false. Only a successful submission clears the form, shows success and goes back. Every other path keeps the form and shows an error. The handed transaction has fee BASE_FEE, timeout 30, that network name and the reloaded account. It has exactly one payment from the key to the entered destination (or ""), for the amount's text, in the resolved asset. |
| `SendPaymentContent.EnabledSendBuildsEnteredPayment` | src/stellar-command/command-content/send-payment.tsx:96-115 | When the button is enabled and the reload succeeds, the operation pays the entered amount to the entered destination. A "native" selection pays in the native asset. |
| `SendPaymentContent.ReloadOnlyFeedsSourceAccount` | src/stellar-command/command-content/send-payment.tsx:88-115 | What the reload returns changes only the source account. The operations, calls and final state do not depend on it. |
| `CommandMenu.FreighterWalletCommands` | src/stellar-command/index.tsx:258-301 | Install is offered exactly when Freighter is missing. Login is offered exactly when installed and not allowed. Public key and network are offered exactly when installed. Network details are never offered. Login comes first and network last. |
| `CommandMenu.CommandGroups` | src/stellar-command/index.tsx:397-402 | Four groups in the order wallet, Stellar API, useful links, socials. The wallet group is the Freighter list. |
| `CommandMenu.OnlyWalletGroupVaries` | src/stellar-command/index.tsx:303-395 | The three non-wallet groups never depend on wallet state. The Stellar API group is load account, recent payments, send payment. |
| `CommandMenu.OnlyRedditLacksOnSelect` | src/stellar-command/index.tsx:369-393 | Among listed commands, exactly the Reddit entry lacks `onSelect`. |
| `CommandMenu.ListedCommands` | src/stellar-command/index.tsx:397-402 | Flattening the groups as rendered gives the wallet commands, then the Stellar API, useful-link and social commands. |
| `CommandMenu.ListedKeys` | src/stellar-command/index.tsx:303-402 | The listed keys are the wallet keys followed by the ten fixed keys in display order. |
| `CommandMenu.ListedKeysDistinct` | src/stellar-command/index.tsx:258-402 | No command is listed twice, and network details is never listed. |
| `CommandMenu.BaseUrl` | src/stellar-command/index.tsx:75 | The testnet Horizon URL exactly on test net, the public one exactly otherwise. |
| `CommandMenu.HandleCommand` | src/stellar-command/index.tsx:101-234 | Only LOGIN changes `allowed`, and only to true when permission is granted. Stellar API commands install their view and keep the selection. Link, install and social commands open their page, clear the selection and keep the content. Network clears the selection and shows the network, with no other change. Public key clears the selection and copies the key exactly when Freighter answered, and otherwise changes nothing. Login clears the selection once Freighter has answered and has no effect. Network details changes nothing and has no effect. `open`, `installed` and the search text never change. |
| `CommandMenu.ChooseCommand` | src/stellar-command/index.tsx:424-433 | An entry without `onSelect` changes nothing. Re-choosing the current selection changes nothing. Any other choice sets the selection and runs the handler. |
| `CommandMenu.RedditChoiceIsInert` | src/stellar-command/index.tsx:389-393 | Choosing the listed Reddit entry changes nothing and opens nothing. |
| `CommandMenu.ChosenViewStaysSelected` | src/stellar-command/index.tsx:170-196 | A chosen Stellar API command stays selected and shows its view, built on the base-URL server. |
| `CommandMenu.ClearSelectedContent` | src/stellar-command/index.tsx:236-240 | Selection and content become null and the search becomes "". Nothing else changes. |
| `CommandMenu.GoBackAfterView` | src/stellar-command/index.tsx:236-240 | Going back from a chosen view gives the same palette as going back without having chosen it. |
| `CommandMenu.CheckFreighterWallet` | src/stellar-command/index.tsx:89-99 | The mount probe sets `installed` and `allowed` from Freighter's answers. Nothing else changes. |
| `CommandMenu.KeyDown` | src/stellar-command/index.tsx:79-83 | Cmd+K or Ctrl+K flips `open` and nothing else. Every other key leaves the palette unchanged. |
| `CommandMenu.KeyDownTwiceRestores` | src/stellar-command/index.tsx:79-83 | Pressing the shortcut twice restores the palette. |
| `CommandMenu.KeyDownAsWritten` | src/stellar-command/index.tsx:78-87 | As written, the shortcut sets `open` to the negation of its value at mount. |
| `CommandMenu.StaleListenerNeverCloses` | src/stellar-command/index.tsx:78-87 | As written, a palette mounted closed and opened by the shortcut stays open on the next press. The intended toggle closes it. |

## Left out

- Horizon, Freighter (`isConnected`, `isAllowed`, `setAllowed`, `getPublicKey`, `getNetwork`, `getNetworkDetails`, `signTransaction`), the clipboard, `window.open` and toasts are foreign I/O. Their answers are inputs (`Reply`, `AccountReply`, `WalletReplies`). What the palette does to the outside is returned as `Effect`s or `Call`s.
- The StrKey check (base32 and CRC16 of an Ed25519 key) lives in the Stellar SDK. It is the parameter `isValidKey`.
- XDR encoding and decoding, transaction hashing and the sequence-number increment live in the SDK. So does the SDK's validation of the asset, destination and amount. These steps are the `build` and `decode` replies. The transaction record carries the reloaded account they start from.
- JavaScript `Number` parsing and `toString` are floating point. An amount is zero, NaN, or another value with its opaque text (`JsNumber`).
- React effect scheduling, re-renders and async interleaving are not modelled. Each handler is treated as running to completion before the next event.
- The `open` prop is modelled as following `onOpenChange`, as the parent's state would.
- `ChooseCommand` does not check that the list is on screen. The list is hidden while a content view is shown.
- The send view's mount-time fetch (send-payment.tsx:51-76) is not modelled. Its balances are an input to `SendPaymentContent.SendPayment`.
- The display-only views (my-account.tsx, recent-payments.tsx), label.tsx, the `cn` class helper and types.ts are UI or type declarations.
- The toast texts of the palette's wallet commands are not modelled.
- An absent `isTestNet` prop is modelled as `false`.
- `StellarFunctions.FetchAccount`: a title or detail of `null` would print "null", not "undefined". The model has a single "absent" case.

## Findings

| source | as written | input that shows it | evidently intended | confidence | as-written member | corrected member |
|---|---|---|---|---|---|---|
| src/lib/stellar-functions.ts:16-27 | Each failure path runs `throw error(...)`, but `error` is neither imported nor declared in the file | An unfunded account: a valid key for which Horizon answers 404. Or any key failing the StrKey check | Throw an HTTP-style error (404 "account not funded on network", 400 "invalid public key", or the passed-through status) | high; not executed | `StellarFunctions.FetchAccountAsWritten` | `StellarFunctions.FetchAccount` |
| src/stellar-command/index.tsx:78-87 | The keydown listener is registered once (`[]` dependencies) and calls `onOpenChange(!open)` with the `open` of the first render | Mount closed, press Cmd+K (opens), press Cmd+K again (asks to open again) | Toggle the current `open` | medium; not executed | `CommandMenu.KeyDownAsWritten` | `CommandMenu.KeyDown` |
