/**
 * The "Send Payment" view (src/stellar-command/command-content/send-payment.tsx):
 * the asset picker, the send button's enable condition, and `sendPayment`,
 * which reloads the source account, resolves the chosen asset against the
 * balances fetched when the view mounted, builds one payment operation,
 * has Freighter sign it and submits it to Horizon.
 *
 * Every awaited or SDK call is an input (`Replies`); `sendPayment` becomes a
 * pure function from the view state and those replies to the transaction
 * handed to the builder, the external calls made and the final view state.
 */
module SendPaymentContent {
  import opened JsValues
  import opened Horizon

  /** `StellarSdk.BASE_FEE`, the network minimum of 100 stroops per operation. */
  const BaseFee := "100"
  const TimeoutSeconds := 30
  /** The picker value standing for the native asset (XLM). */
  const NativeSelection := "native"

  const SuccessText := "Payment sent successfully."
  const UnsuccessfulText := "Failed to send payment."
  const ThrownText := "An Error Occurred. Please try again."

  /** The name used as builder passphrase, Freighter network and decoding passphrase alike. */
  function NetworkName(isTestNet: bool): (name: string)
    ensures name == "TESTNET" <==> isTestNet
    ensures name == "PUBLIC" <==> !isTestNet
  {
    if isTestNet then "TESTNET" else "PUBLIC"
  }

  // ---------------------------------------------------------------------------
  // Asset lookup and asset descriptor

  /**
   * The predicate handed to `balances.find`: a credit line whose code equals
   * the selection, or ANY native line.
   */
  predicate LookupHit(b: Balance, selection: Option<string>)
  {
    (b.Credit? && selection == Some(b.assetCode)) || b.Native?
  }

  /** The index `find` stops at. */
  function FindIndex(balances: seq<Balance>, selection: Option<string>): (r: Option<nat>)
    ensures r.Some? ==> r.value < |balances| && LookupHit(balances[r.value], selection)
    ensures r.Some? ==> forall j :: 0 <= j < r.value ==> !LookupHit(balances[j], selection)
    ensures r.None? ==> forall j :: 0 <= j < |balances| ==> !LookupHit(balances[j], selection)
  {
    if |balances| == 0 then None
    else if LookupHit(balances[0], selection) then Some(0)
    else
      match FindIndex(balances[1..], selection)
      case None => None
      case Some(i) => Some(i + 1)
  }

  /** `balances.find(...)` */
  function FindAsset(balances: seq<Balance>, selection: Option<string>): (r: Option<Balance>)
    ensures r.Some? ==> r.value in balances && !r.value.PoolShare?
    ensures r.Some? && r.value.Credit? ==> selection == Some(r.value.assetCode)
    ensures r.None? <==> forall b :: b in balances ==> !LookupHit(b, selection)
    // `find` returns the FIRST hit in balance order
    ensures r.Some? ==>
              exists i :: 0 <= i < |balances| && r.value == balances[i]
                          && forall j :: 0 <= j < i ==> !LookupHit(balances[j], selection)
  {
    match FindIndex(balances, selection)
    case None => None
    case Some(i) => Some(balances[i])
  }

  /**
   * The asset handed to `Operation.payment`. The code is the selection as a
   * JavaScript value, so `null` is kept when nothing was selected.
   */
  datatype Asset =
    | NativeAsset                                    // Asset.native()
    | IssuedAsset(code: Option<string>, issuer: string)  // new Asset(code, issuer)
    | CodeOnlyAsset(code: Option<string>)             // new Asset(code)

  function PaymentAsset(balances: seq<Balance>, selection: Option<string>): (a: Asset)
    ensures a.NativeAsset? <==> selection == Some(NativeSelection)
    ensures a.IssuedAsset? ==> a.code == selection
    ensures a.IssuedAsset? ==>
              exists b :: b in balances && b.Credit? && Some(b.assetCode) == selection && b.assetIssuer == a.issuer
    ensures a.CodeOnlyAsset? ==> a.code == selection
  {
    if selection == Some(NativeSelection) then NativeAsset
    else
      var found := FindAsset(balances, selection);
      if found.Some? && found.value.Credit? then IssuedAsset(selection, found.value.assetIssuer)
      else CodeOnlyAsset(selection)
  }

  /**
   * The issuer is kept exactly when a credit line with the selected code comes
   * before every native line; otherwise the native line stops the lookup.
   */
  lemma IssuedIffCreditBeforeNative(balances: seq<Balance>, selection: Option<string>)
    ensures PaymentAsset(balances, selection).IssuedAsset?
        <==> && selection != Some(NativeSelection)
             && exists i :: 0 <= i < |balances| && balances[i].Credit? && selection == Some(balances[i].assetCode)
                            && forall j :: 0 <= j < i ==> !LookupHit(balances[j], selection)
  {
    var a := PaymentAsset(balances, selection);
    if selection != Some(NativeSelection) {
      var idx := FindIndex(balances, selection);
      if a.IssuedAsset? {
        assert idx.Some?;
        var i := idx.value;
        assert balances[i].Credit? && selection == Some(balances[i].assetCode);
      }
      if exists i :: 0 <= i < |balances| && balances[i].Credit? && selection == Some(balances[i].assetCode)
                     && forall j :: 0 <= j < i ==> !LookupHit(balances[j], selection) {
        var i :| 0 <= i < |balances| && balances[i].Credit? && selection == Some(balances[i].assetCode)
                 && forall j :: 0 <= j < i ==> !LookupHit(balances[j], selection);
        assert LookupHit(balances[i], selection);
        assert idx.Some? && idx.value == i;
      }
    }
  }

  /**
   * The ordering quirk: a native line ahead of every matching credit line is
   * what the lookup returns, so the asset is built from the code alone and
   * the issuer of a later matching credit line is lost.
   */
  lemma NativeFirstLosesIssuer(balances: seq<Balance>, selection: Option<string>, k: nat)
    requires k < |balances| && balances[k].Native?
    requires forall j :: 0 <= j < k ==> !(balances[j].Credit? && selection == Some(balances[j].assetCode))
    requires selection != Some(NativeSelection)
    ensures PaymentAsset(balances, selection) == CodeOnlyAsset(selection)
  {
    var idx := FindIndex(balances, selection);
    assert LookupHit(balances[k], selection);
    assert idx.Some? && idx.value <= k;
  }

  /** Without native lines, the first credit line with the selected code supplies the issuer. */
  lemma FirstMatchingCreditSuppliesIssuer(balances: seq<Balance>, code: string, i: nat)
    requires i < |balances| && balances[i].Credit? && balances[i].assetCode == code
    requires code != NativeSelection
    requires forall j :: 0 <= j < i ==> !balances[j].Native? && !(balances[j].Credit? && balances[j].assetCode == code)
    ensures PaymentAsset(balances, Some(code)) == IssuedAsset(Some(code), balances[i].assetIssuer)
  {
    var idx := FindIndex(balances, Some(code));
    assert LookupHit(balances[i], Some(code));
    assert idx.Some? && idx.value == i;
  }

  // ---------------------------------------------------------------------------
  // Asset picker

  datatype PickerOption = PickerOption(value: string, caption: string)

  const XlmOption := PickerOption(NativeSelection, "XLM")

  /** One option per balance carrying `asset_code`, in balance order. */
  function CodeOptions(balances: seq<Balance>): (opts: seq<PickerOption>)
    ensures forall o :: o in opts ==>
              exists b :: b in balances && b.Credit? && o == PickerOption(b.assetCode, b.assetCode)
  {
    if |balances| == 0 then []
    else
      var head := if balances[0].Credit? then [PickerOption(balances[0].assetCode, balances[0].assetCode)] else [];
      head + CodeOptions(balances[1..])
  }

  function PickerOptions(balances: seq<Balance>): (opts: seq<PickerOption>)
    // XLM is offered, first, exactly when the account holds a native line
    ensures (|opts| > 0 && opts[0] == XlmOption) <==> exists b :: b in balances && b.Native?
    // nothing else is offered than the codes of credit lines (never a pool share)
    ensures forall o :: o in opts ==>
              o == XlmOption || exists b :: b in balances && b.Credit? && o == PickerOption(b.assetCode, b.assetCode)
    // XLM is offered at most once
    ensures multiset(opts)[XlmOption] == if exists b :: b in balances && b.Native? then 1 else 0
    // each code is offered once per credit line carrying it (duplicates kept) ...
    ensures forall c :: multiset(opts)[PickerOption(c, c)] == CreditCount(balances, c)
    // ... in balance order, after the optional XLM entry
    ensures |CodeOptions(balances)| <= |opts|
    ensures opts[|opts| - |CodeOptions(balances)|..] == CodeOptions(balances)
  {
    var codes := CodeOptions(balances);
    var xlm := if exists b :: b in balances && b.Native? then [XlmOption] else [];
    assert |codes| > 0 ==> codes[0] in codes;
    XlmThenCodes(xlm, balances);
    xlm + codes
  }

  /** Counting the picker's entries: the optional XLM entry never collides with a code option. */
  lemma XlmThenCodes(xlm: seq<PickerOption>, balances: seq<Balance>)
    requires xlm == [] || xlm == [XlmOption]
    ensures multiset(xlm + CodeOptions(balances))[XlmOption] == |xlm|
    ensures forall c :: multiset(xlm + CodeOptions(balances))[PickerOption(c, c)] == CreditCount(balances, c)
    ensures (xlm + CodeOptions(balances))[|xlm|..] == CodeOptions(balances)
  {
    var codes := CodeOptions(balances);
    // a code option carries its code as caption too, so its caption is never "XLM"
    // (its value may still be "native": see `NativeCodedCreditPaysXlm`)
    assert XlmOption !in codes;
    assert multiset(xlm + codes) == multiset(xlm) + multiset(codes);
    CodeOptionsCounts(balances);
    forall c
      ensures multiset(xlm + codes)[PickerOption(c, c)] == CreditCount(balances, c)
    {
      assert PickerOption(c, c) != XlmOption;
    }
  }

  lemma {:induction false} CodeOptionsAppend(xs: seq<Balance>, ys: seq<Balance>)
    ensures CodeOptions(xs + ys) == CodeOptions(xs) + CodeOptions(ys)
    decreases |xs|
  {
    if |xs| == 0 {
      assert xs + ys == ys;
    } else {
      var b := xs[0];
      var head := if b.Credit? then [PickerOption(b.assetCode, b.assetCode)] else [];
      assert (xs + ys)[0] == b;
      calc {
        CodeOptions(xs + ys);
        head + CodeOptions((xs + ys)[1..]);
        { assert (xs + ys)[1..] == xs[1..] + ys; }
        head + CodeOptions(xs[1..] + ys);
        { CodeOptionsAppend(xs[1..], ys); }
        head + (CodeOptions(xs[1..]) + CodeOptions(ys));
        (head + CodeOptions(xs[1..])) + CodeOptions(ys);
      }
    }
  }

  lemma CodeOptionsCounts(balances: seq<Balance>)
    ensures forall c :: multiset(CodeOptions(balances))[PickerOption(c, c)] == CreditCount(balances, c)
  {
    forall c {
      CodeOptionsKeepDuplicates(balances, c);
    }
  }

  /** Number of credit lines with the given code. */
  function CreditCount(balances: seq<Balance>, code: string): nat
  {
    if |balances| == 0 then 0
    else (if balances[0].Credit? && balances[0].assetCode == code then 1 else 0) + CreditCount(balances[1..], code)
  }

  /** Duplicates are kept: each code is offered once per credit line carrying it. */
  lemma {:induction false} CodeOptionsKeepDuplicates(balances: seq<Balance>, code: string)
    ensures multiset(CodeOptions(balances))[PickerOption(code, code)] == CreditCount(balances, code)
    decreases |balances|
  {
    if |balances| > 0 {
      CodeOptionsKeepDuplicates(balances[1..], code);
    }
  }

  /** A credit line with the given code makes that code's count positive. */
  lemma {:induction false} CreditCountPositive(balances: seq<Balance>, i: nat)
    requires i < |balances| && balances[i].Credit?
    ensures CreditCount(balances, balances[i].assetCode) > 0
    decreases i
  {
    if i > 0 {
      assert balances[1..][i - 1] == balances[i];
      CreditCountPositive(balances[1..], i - 1);
    }
  }

  /**
   * The picker tells options apart by `value` only. A held asset whose code is
   * "native" is offered under the value "native", the same as XLM, and
   * choosing it builds a native payment: that asset can never be sent.
   */
  lemma NativeCodedCreditPaysXlm(balances: seq<Balance>, i: nat)
    requires i < |balances| && balances[i].Credit? && balances[i].assetCode == NativeSelection
    ensures exists k :: 0 <= k < |PickerOptions(balances)| && PickerOptions(balances)[k].value == XlmOption.value
                        && PickerOptions(balances)[k] != XlmOption
    ensures PaymentAsset(balances, Some(balances[i].assetCode)) == NativeAsset
  {
    var opts := PickerOptions(balances);
    var o := PickerOption(NativeSelection, NativeSelection);
    CreditCountPositive(balances, i);
    assert multiset(opts)[o] > 0;
    assert o in opts;
    var k :| 0 <= k < |opts| && opts[k] == o;
  }

  /** A concrete account: XLM and a credit line coded "native" share the picker value "native". */
  lemma NativeCodedCreditWitness()
    ensures var balances := [Native("1"), Credit(NativeSelection, "GISSUER", "5")];
            && PickerOptions(balances) == [XlmOption, PickerOption(NativeSelection, NativeSelection)]
            && PickerOptions(balances)[0].value == PickerOptions(balances)[1].value
            && PaymentAsset(balances, Some(NativeSelection)) == NativeAsset
  {
    var balances := [Native("1"), Credit(NativeSelection, "GISSUER", "5")];
    NativeFirstPicker(balances);
    CodeOptionsOfOne(Credit(NativeSelection, "GISSUER", "5"));
    assert balances[1..] == [Credit(NativeSelection, "GISSUER", "5")];
  }

  /** With a native line first, the picker is XLM followed by the code options. */
  lemma NativeFirstPicker(balances: seq<Balance>)
    requires |balances| > 0 && balances[0].Native?
    ensures PickerOptions(balances) == [XlmOption] + CodeOptions(balances[1..])
  {
    assert balances[0] in balances;
  }

  lemma CodeOptionsOfOne(b: Balance)
    requires b.Credit?
    ensures CodeOptions([b]) == [PickerOption(b.assetCode, b.assetCode)]
  {
    assert [b][1..] == [];
  }

  // ---------------------------------------------------------------------------
  // Form and send button

  /** The three inputs of the form, as the view's state holds them. */
  datatype Form = Form(amount: Option<JsNumber>, selectedAsset: Option<string>, destination: Option<string>)

  const EmptyForm := Form(None, None, None)

  /** `!selectedAsset || !assetAmount || !destination` */
  function SendDisabled(f: Form): (disabled: bool)
    ensures !disabled <==>
              && f.selectedAsset.Some? && f.selectedAsset.value != ""
              && f.amount.Some? && f.amount.value != Zero && f.amount.value != NaN
              && f.destination.Some? && f.destination.value != ""
  {
    !StringTruthy(f.selectedAsset) || !NumberTruthy(f.amount) || !StringTruthy(f.destination)
  }

  // ---------------------------------------------------------------------------
  // sendPayment

  datatype PaymentOp = PaymentOp(destination: string, asset: Asset, amount: string, source: string)

  /** What is handed to `TransactionBuilder`: source account, options, operations and timeout. */
  datatype Transaction = Transaction(
    sourceAccount: AccountRecord,
    fee: string,
    networkPassphrase: string,
    operations: seq<PaymentOp>,
    timeoutSeconds: int)

  /** The external calls one attempt makes, in order. */
  datatype Call =
    | LoadAccount(accountId: string)          // server.loadAccount
    | SignTransaction(network: string)        // freighterApi.signTransaction
    | DecodeSigned(network: string)           // TransactionBuilder.fromXDR
    | SubmitTransaction                       // server.submitTransaction

  /**
   * How each awaited step settles. `build` stands for everything the SDK does
   * between receiving the operation and producing the XDR string (asset and
   * operation validation, `build`, `toXDR`).
   */
  datatype Replies = Replies(
    load: Reply<AccountRecord>,
    build: Reply<()>,
    sign: Reply<()>,
    decode: Reply<()>,
    submit: Reply<SubmitResponse>)

  datatype Toast = SuccessToast(text: string) | ErrorToast(text: string)

  datatype PaymentState = PaymentState(form: Form, loading: bool)

  /** Everything one call of `sendPayment` produces. */
  datatype Attempt = Attempt(
    state: PaymentState,
    transaction: Option<Transaction>,
    calls: seq<Call>,
    toast: Option<Toast>,
    wentBack: bool)

  /** The longest call sequence an attempt can make. */
  function FullTrace(publicKey: string, network: string): seq<Call>
  {
    [LoadAccount(publicKey), SignTransaction(network), DecodeSigned(network), SubmitTransaction]
  }

  function BuildTransaction(source: AccountRecord, network: string, publicKey: string,
                            balances: seq<Balance>, form: Form, amount: JsNumber): Transaction
  {
    var op := PaymentOp(OrEmpty(form.destination), PaymentAsset(balances, form.selectedAsset), NumberText(amount), publicKey);
    Transaction(source, BaseFee, network, [op], TimeoutSeconds)
  }

  /** The catch block and the unsuccessful branch: form kept, loading cleared. */
  function Unsuccessful(st: PaymentState, tx: Option<Transaction>, calls: seq<Call>, text: string): Attempt
  {
    Attempt(PaymentState(st.form, false), tx, calls, Some(ErrorToast(text)), false)
  }

  /**
   * `sendPayment`. `balances` is the list fetched when the view mounted; the
   * account reloaded here only supplies the transaction's source account.
   */
  function SendPayment(isTestNet: bool, publicKey: Option<string>, balances: seq<Balance>,
                       st: PaymentState, replies: Replies): (a: Attempt)
    // without a public key nothing happens at all
    ensures !StringTruthy(publicKey) ==> a == Attempt(st, None, [], None, false)
    // otherwise the account is reloaded first, calls follow the fixed order, and loading ends false
    ensures StringTruthy(publicKey) ==>
              && !a.state.loading
              && |a.calls| > 0 && a.calls[0] == LoadAccount(publicKey.value)
              && a.calls <= FullTrace(publicKey.value, NetworkName(isTestNet))
    // success (and only success) resets the form and goes back
    ensures a.wentBack <==>
              && StringTruthy(publicKey)
              && replies.load.Returned? && st.form.amount.Some?
              && replies.build.Returned? && replies.sign.Returned? && replies.decode.Returned?
              && replies.submit.Returned? && replies.submit.value.successful
    ensures a.wentBack ==> a.state.form == EmptyForm && a.toast == Some(SuccessToast(SuccessText))
    ensures StringTruthy(publicKey) && !a.wentBack ==>
              a.state.form == st.form && a.toast.Some? && a.toast.value.ErrorToast?
    // each step runs exactly when every step before it returned: the first throw ends the attempt
    ensures StringTruthy(publicKey) ==>
              var network := NetworkName(isTestNet);
              && ((SignTransaction(network) in a.calls)
                    <==> replies.load.Returned? && st.form.amount.Some? && replies.build.Returned?)
              && ((DecodeSigned(network) in a.calls)
                    <==> SignTransaction(network) in a.calls && replies.sign.Returned?)
              && ((SubmitTransaction in a.calls)
                    <==> DecodeSigned(network) in a.calls && replies.decode.Returned?)
    // a submission that returned unsuccessful gets its own message; every throw gets the generic one
    ensures a.toast == Some(ErrorToast(UnsuccessfulText)) <==>
              SubmitTransaction in a.calls && replies.submit.Returned? && !replies.submit.value.successful
    // the transaction shape
    ensures a.transaction.Some? <==> StringTruthy(publicKey) && replies.load.Returned? && st.form.amount.Some?
    ensures a.transaction.Some? ==>
              var tx := a.transaction.value;
              && tx.sourceAccount == replies.load.value
              && tx.fee == BaseFee && tx.timeoutSeconds == 30
              && tx.networkPassphrase == NetworkName(isTestNet)
              && |tx.operations| == 1
              && tx.operations[0].source == publicKey.value
              && tx.operations[0].destination == OrEmpty(st.form.destination)
              && tx.operations[0].amount == NumberText(st.form.amount.value)
              && tx.operations[0].asset == PaymentAsset(balances, st.form.selectedAsset)
  {
    if !StringTruthy(publicKey) then Attempt(st, None, [], None, false)
    else
      var pk := publicKey.value;
      var network := NetworkName(isTestNet);
      var trace := FullTrace(pk, network);
      match replies.load
      case Threw => Unsuccessful(st, None, [LoadAccount(pk)], ThrownText)
      case Returned(source) =>
        // `assetAmount!.toString()` on null throws a TypeError before the operation exists
        if st.form.amount.None? then Unsuccessful(st, None, [LoadAccount(pk)], ThrownText)
        else
          var tx := Some(BuildTransaction(source, network, pk, balances, st.form, st.form.amount.value));
          if replies.build.Threw? then Unsuccessful(st, tx, [LoadAccount(pk)], ThrownText)
          else if replies.sign.Threw? then Unsuccessful(st, tx, [LoadAccount(pk), SignTransaction(network)], ThrownText)
          else if replies.decode.Threw? then
            Unsuccessful(st, tx, [LoadAccount(pk), SignTransaction(network), DecodeSigned(network)], ThrownText)
          else
            match replies.submit
            case Threw => Unsuccessful(st, tx, trace, ThrownText)
            case Returned(response) =>
              if response.successful then
                Attempt(PaymentState(EmptyForm, false), tx, trace, Some(SuccessToast(SuccessText)), true)
              else
                Unsuccessful(st, tx, trace, UnsuccessfulText)
  }

  /**
   * With the button enabled, a reloaded account always leads to a transaction
   * paying the entered amount to the entered destination in the selected asset.
   */
  lemma EnabledSendBuildsEnteredPayment(isTestNet: bool, publicKey: string, balances: seq<Balance>,
                                        st: PaymentState, replies: Replies)
    requires publicKey != ""
    requires !SendDisabled(st.form)
    requires replies.load.Returned?
    ensures var a := SendPayment(isTestNet, Some(publicKey), balances, st, replies);
            && a.transaction.Some?
            && a.transaction.value.operations[0].destination == st.form.destination.value
            && a.transaction.value.operations[0].amount == st.form.amount.value.text
            && (st.form.selectedAsset == Some(NativeSelection) ==> a.transaction.value.operations[0].asset == NativeAsset)
  {
  }

  /** Two attempts with the same inputs differ only through what the reload returned. */
  lemma ReloadOnlyFeedsSourceAccount(isTestNet: bool, publicKey: Option<string>, balances: seq<Balance>,
                                     st: PaymentState, replies: Replies, other: AccountRecord)
    requires replies.load.Returned?
    ensures var a := SendPayment(isTestNet, publicKey, balances, st, replies);
            var b := SendPayment(isTestNet, publicKey, balances, st, replies.(load := Returned(other)));
            && a.state == b.state && a.calls == b.calls && a.wentBack == b.wentBack
            && (a.transaction.Some? ==> b.transaction.Some? && a.transaction.value.operations == b.transaction.value.operations)
  {
  }
}
