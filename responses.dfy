/** Decoding the service's answers: the `sendMany` result and wallet objects. */
module Responses {
  import opened Wrappers
  import opened Decimals
  import opened Json

  /** What `sendMany` returns: the fields of the response, with the fee and fee rate
      converted from satoshis to coins. */
  datatype SendCoinsResponse = SendCoinsResponse(
    tx: Option<string>,
    hash: Option<string>,
    error: Option<string>,
    pendingApproval: Option<string>,
    otp: bool,
    triggeredPolicy: Option<string>,
    status: Option<string>,
    fee: Decimal,
    feeRate: Decimal)

  /** The values of a `sendMany` response have the types the decoder casts them to
      once the gate has passed. */
  predicate SendResponseTyped(resp: JObject)
  {
    && StringTyped(resp, "tx") && StringTyped(resp, "hash") && StringTyped(resp, "error")
    && StringTyped(resp, "pendingApproval") && StringTyped(resp, "triggeredPolicy")
    && StringTyped(resp, "status")
    && ("otp" in resp ==> resp["otp"].JBool?)
    && NumberTyped(resp, "fee") && NumberTyped(resp, "feeRate")
  }

  /** The decoder's validity gate: the response names an error or a transaction. */
  predicate IsSendResult(resp: JObject)
  {
    "error" in resp || "tx" in resp
  }

  /** A coin amount read from satoshis under key, 0 when the key is missing. */
  function SatoshiField(resp: JObject, key: string): (r: Decimal)
    requires NumberTyped(resp, key)
    ensures key !in resp ==> SameValue(r, Decimal(0, 0))
    ensures key in resp && InLong(resp[key].n) ==> SameValue(r, Decimal(resp[key].n, SatoshiDigits))
  {
    SatoshiToBitcoin(LongAt(resp, key, 0))
  }

  /** The response part of `sendMany`: absent unless the gate passes; otherwise each
      field is copied, `otp` is false unless the response says true, and the fee and
      fee rate are read from satoshis, defaulting to 0. */
  function DecodeSendResponse(resp: JObject): (r: Option<SendCoinsResponse>)
    requires IsSendResult(resp) ==> SendResponseTyped(resp)
    ensures r.Some? <==> IsSendResult(resp)
    ensures r.Some? ==> r.value.tx == StringAt(resp, "tx") && r.value.hash == StringAt(resp, "hash")
    ensures r.Some? ==> r.value.error == StringAt(resp, "error")
    ensures r.Some? ==> r.value.pendingApproval == StringAt(resp, "pendingApproval")
    ensures r.Some? ==> r.value.triggeredPolicy == StringAt(resp, "triggeredPolicy")
    ensures r.Some? ==> r.value.status == StringAt(resp, "status")
    ensures r.Some? ==> (r.value.otp <==> "otp" in resp && resp["otp"].b)
    ensures r.Some? ==> r.value.fee == SatoshiField(resp, "fee")
    ensures r.Some? ==> r.value.feeRate == SatoshiField(resp, "feeRate")
  {
    if IsSendResult(resp) then
      Some(SendCoinsResponse(
        tx := StringAt(resp, "tx"),
        hash := StringAt(resp, "hash"),
        error := StringAt(resp, "error"),
        pendingApproval := StringAt(resp, "pendingApproval"),
        otp := if "otp" in resp then resp["otp"].b else false,
        triggeredPolicy := StringAt(resp, "triggeredPolicy"),
        status := StringAt(resp, "status"),
        fee := SatoshiField(resp, "fee"),
        feeRate := SatoshiField(resp, "feeRate")))
    else
      None
  }

  /** A fee the client sent (an amount of at most 8 decimal places, converted to
      satoshis) and the service echoes back decodes to the same number of coins. */
  lemma FeeRoundTrip(resp: JObject, fee: Decimal)
    requires SendResponseTyped(resp) && IsSendResult(resp)
    requires fee.scale <= SatoshiDigits && FitsInLong(fee)
    ensures var echoed := resp["fee" := JNum(MinorUnits(fee))];
      && SendResponseTyped(echoed) && DecodeSendResponse(echoed).Some?
      && SameValue(DecodeSendResponse(echoed).value.fee, fee)
  {
    MinorUnitsRoundTrip(fee);
  }

  /** A wallet as the client returns it; a balance the response did not carry stays
      unset (None), not zero. */
  class Wallet {
    var id: Option<string>
    var balance: Option<Decimal>
    var confirmedBalance: Option<Decimal>
    var spendableBalance: Option<Decimal>
    var spendableConfirmedBalance: Option<Decimal>
    var instantBalance: Option<Decimal>

    /** `new Wallet()`: every field null. */
    constructor ()
      ensures id.None? && balance.None? && confirmedBalance.None?
      ensures spendableBalance.None? && spendableConfirmedBalance.None? && instantBalance.None?
    {
      id := None;
      balance := None;
      confirmedBalance := None;
      spendableBalance := None;
      spendableConfirmedBalance := None;
      instantBalance := None;
    }

    /** The wallet holds what the wallet object m says. */
    ghost predicate Decodes(m: JObject)
      reads this
      requires WalletTyped(m)
    {
      && id == StringAt(m, "id")
      && BalanceDecodes(balance, m, "balance")
      && BalanceDecodes(confirmedBalance, m, "confirmedBalance")
      && BalanceDecodes(spendableBalance, m, "spendableBalance")
      && BalanceDecodes(spendableConfirmedBalance, m, "spendableConfirmedBalance")
      && BalanceDecodes(instantBalance, m, "instantBalance")
    }
  }

  /** The values of a wallet object have the types `fromMap` casts them to. */
  predicate WalletTyped(m: JObject)
  {
    && StringTyped(m, "id")
    && NumberTyped(m, "balance") && NumberTyped(m, "confirmedBalance")
    && NumberTyped(m, "spendableBalance") && NumberTyped(m, "spendableConfirmedBalance")
    && NumberTyped(m, "instantBalance")
  }

  /** A balance is set exactly when its key is present, to that many satoshis. */
  ghost predicate BalanceDecodes(field: Option<Decimal>, m: JObject, key: string)
    requires NumberTyped(m, key)
  {
    && (field.Some? <==> key in m)
    && (key in m ==> field.value == SatoshiToBitcoin(ToLong(m[key].n)))
  }

  /** `fromMap`: a fresh wallet whose id is copied and whose balances are set only
      for the keys present in m. */
  method FromMap(m: JObject) returns (w: Wallet)
    requires WalletTyped(m)
    ensures fresh(w) && w.Decodes(m)
  {
    w := new Wallet();
    w.id := StringAt(m, "id");
    if "balance" in m {
      w.balance := Some(SatoshiToBitcoin(ToLong(m["balance"].n)));
    }
    if "confirmedBalance" in m {
      w.confirmedBalance := Some(SatoshiToBitcoin(ToLong(m["confirmedBalance"].n)));
    }
    if "spendableBalance" in m {
      w.spendableBalance := Some(SatoshiToBitcoin(ToLong(m["spendableBalance"].n)));
    }
    if "spendableConfirmedBalance" in m {
      w.spendableConfirmedBalance := Some(SatoshiToBitcoin(ToLong(m["spendableConfirmedBalance"].n)));
    }
    if "instantBalance" in m {
      w.instantBalance := Some(SatoshiToBitcoin(ToLong(m["instantBalance"].n)));
    }
  }

  /** A balance stored in satoshis (as the client itself encodes amounts) decodes
      to the same number of coins. */
  lemma BalanceRoundTrip(field: Option<Decimal>, m: JObject, key: string, amount: Decimal)
    requires amount.scale <= SatoshiDigits && FitsInLong(amount)
    ensures var stored := m[key := JNum(MinorUnits(amount))];
      && NumberTyped(stored, key)
      && (BalanceDecodes(field, stored, key) ==> field.Some? && SameValue(field.value, amount))
  {
    MinorUnitsRoundTrip(amount);
  }

  /** getWallet's validity gate: a response is a wallet only if it carries all of
      `id`, `balance` and `confirmedBalance`. */
  predicate IsWalletResponse(resp: Option<JObject>)
  {
    resp.Some? && "id" in resp.value && "balance" in resp.value && "confirmedBalance" in resp.value
  }

  /** The `wallets` value of a listing response has the types getWallets casts it to. */
  predicate WalletListTyped(resp: JObject)
  {
    "wallets" in resp ==>
      || resp["wallets"].JNull?
      || (&& resp["wallets"].JArr?
          && forall i :: 0 <= i < |resp["wallets"].items| ==>
               resp["wallets"].items[i].JObj? && WalletTyped(resp["wallets"].items[i].fields))
  }

  /** The wallet objects of a listing response; none when `wallets` is missing or null. */
  function WalletObjects(resp: JObject): (objs: seq<JObject>)
    requires WalletListTyped(resp)
    ensures ("wallets" !in resp || resp["wallets"].JNull?) ==> objs == []
    ensures "wallets" in resp && resp["wallets"].JArr? ==>
      |objs| == |resp["wallets"].items|
      && forall i :: 0 <= i < |objs| ==> resp["wallets"].items[i] == JObj(objs[i])
    ensures forall i :: 0 <= i < |objs| ==> WalletTyped(objs[i])
  {
    if "wallets" in resp && resp["wallets"].JArr? then
      var items := resp["wallets"].items;
      seq(|items|, i requires 0 <= i < |items| => items[i].fields)
    else
      []
  }
}
