/** The client itself: its configuration, the requests it makes and what it makes of
    the replies. The service's reply is an input of each operation. */
module BitGo {
  import opened Wrappers
  import opened Decimals
  import opened Json
  import opened Urls
  import opened SendManyPayload
  import opened Responses

  const DefaultBaseUrl: string := "http://localhost:3080/api/v1"
  /** `/wallet/$WALLET/sendmany`. */
  const DefaultSendManyUrl: string := DefaultGetWalletUrl + WalletPlaceholder + SendManySuffix
  const SendManySuffix: string := "/sendmany"
  const DefaultListWalletsUrl: string := "/wallet"
  const DefaultGetWalletUrl: string := "/wallet/"
  /** The token sent when no long-lived token is configured. */
  const MissingToken: string := "TODO!"

  /** A request handed to the transport. */
  datatype Request =
    | Get(url: string, headers: map<string, string>)
    | Post(url: string, body: JObject, auth: string, unsafe: bool)

  /** The token the requests carry: the long-lived token, or the placeholder. */
  function Authorization(token: Option<string>): (auth: string)
    ensures token.Some? ==> auth == token.value
    ensures token.None? ==> auth == MissingToken
  {
    if token.None? then MissingToken else token.value
  }

  /** The request properties of the GET endpoints. */
  function GetHeaders(auth: string): (h: map<string, string>)
    ensures h.Keys == {"Content-Type", "Authorization"}
    ensures h["Authorization"] == "Bearer " + auth
    ensures h["Content-Type"] == "application/json"
  {
    map["Content-Type" := "application/json", "Authorization" := "Bearer " + auth]
  }

  /** Java's string conversion in a concatenation: a null reference reads "null". */
  function JavaString(s: Option<string>): (r: string)
    ensures s.Some? ==> r == s.value
    ensures s.None? ==> r == "null"
  {
    if s.Some? then s.value else "null"
  }

  class Client {
    var baseUrl: Option<string>
    var sendManyUrl: Option<string>
    var listWalletsUrl: Option<string>
    var getWalletUrl: Option<string>
    var longLivedToken: Option<string>
    var unsafe: bool

    /** A client for the local service at the default paths, with the given token. */
    constructor (token: Option<string>)
      ensures baseUrl == Some(DefaultBaseUrl) && sendManyUrl == Some(DefaultSendManyUrl)
      ensures listWalletsUrl == Some(DefaultListWalletsUrl)
      ensures getWalletUrl == Some(DefaultGetWalletUrl)
      ensures longLivedToken == token && !unsafe
    {
      baseUrl := Some(DefaultBaseUrl);
      sendManyUrl := Some(DefaultSendManyUrl);
      listWalletsUrl := Some(DefaultListWalletsUrl);
      getWalletUrl := Some(DefaultGetWalletUrl);
      longLivedToken := token;
      unsafe := false;
    }

    /** Replaces the token; nothing else changes. */
    method SetLongLivedToken(token: Option<string>)
      modifies this
      ensures longLivedToken == token
      ensures baseUrl == old(baseUrl) && sendManyUrl == old(sendManyUrl)
      ensures listWalletsUrl == old(listWalletsUrl) && getWalletUrl == old(getWalletUrl)
      ensures unsafe == old(unsafe)
    {
      longLivedToken := token;
    }

    /** The sendmany URL: the base URL followed by the template with every
        placeholder replaced by the wallet id (`replace` on a null template throws). */
    function SendManyTarget(walletId: string): (url: string)
      reads this
      requires sendManyUrl.Some?
      ensures sendManyUrl == Some(DefaultSendManyUrl) ==>
                url == JavaString(baseUrl) + DefaultGetWalletUrl + walletId + SendManySuffix
    {
      DefaultSendManyPath(walletId);
      JavaString(baseUrl) + Replace(sendManyUrl.value, WalletPlaceholder, walletId)
    }

    /** `sendMany`: builds the recipient list and the body, posts them, and decodes
        the reply; reply None is a connection that could not be opened. */
    method SendMany(walletId: string, walletPass: Option<string>,
                    recipients: map<string, Decimal>,
                    sequenceId: Option<string>, message: Option<string>,
                    fee: Option<Decimal>, feeTxConfirmTarget: Option<Decimal>,
                    minConfirms: int, enforceMinConfirmsForChange: bool,
                    reply: Option<JObject>)
      returns (request: Request, logged: JObject, result: Option<SendCoinsResponse>)
      requires sendManyUrl.Some?
      requires reply.Some? && IsSendResult(reply.value) ==> SendResponseTyped(reply.value)
      ensures request.Post? && request.url == SendManyTarget(walletId)
      ensures request.auth == Authorization(longLivedToken) && request.unsafe == unsafe
      ensures "recipients" in logged && logged["recipients"].JArr?
      ensures ListsRecipients(logged["recipients"].items, recipients)
      ensures LoggedPayload(logged, logged["recipients"].items, sequenceId, message, fee,
                            feeTxConfirmTarget, minConfirms, enforceMinConfirmsForChange)
      ensures request.body.Keys == logged.Keys + {"walletPassphrase"}
      ensures request.body["walletPassphrase"] == StringOrNull(walletPass)
      ensures forall k :: k in logged ==> request.body[k] == logged[k]
      ensures reply.None? ==> result.None?
      ensures reply.Some? ==> result == DecodeSendResponse(reply.value)
    {
      var url := JavaString(baseUrl) + Replace(sendManyUrl.value, WalletPlaceholder, walletId);
      var auth := Authorization(longLivedToken);
      var addr := BuildRecipients(recipients);
      var body;
      logged, body := BuildPayload(addr, walletPass, sequenceId, message, fee,
                                   feeTxConfirmTarget, minConfirms, enforceMinConfirmsForChange);
      request := Post(url, body, auth, unsafe);
      if reply.None? {
        result := None;
      } else {
        result := DecodeSendResponse(reply.value);
      }
    }

    /** `getWallets`: one fresh wallet per element of `wallets`, in order; none when
        the reply has no `wallets` or it is null. */
    method GetWallets(reply: JObject) returns (request: Request, wallets: seq<Wallet>)
      requires WalletListTyped(reply)
      ensures request == Get(JavaString(baseUrl) + JavaString(listWalletsUrl),
                             GetHeaders(Authorization(longLivedToken)))
      ensures |wallets| == |WalletObjects(reply)|
      ensures forall i :: 0 <= i < |wallets| ==>
                fresh(wallets[i]) && wallets[i].Decodes(WalletObjects(reply)[i])
      ensures forall i, j :: 0 <= i < j < |wallets| ==> wallets[i] != wallets[j]
    {
      request := Get(JavaString(baseUrl) + JavaString(listWalletsUrl),
                     GetHeaders(Authorization(longLivedToken)));
      var objs := WalletObjects(reply);
      wallets := [];
      var i := 0;
      while i < |objs|
        invariant 0 <= i <= |objs| && |wallets| == i
        invariant forall k :: 0 <= k < i ==> fresh(wallets[k]) && wallets[k].Decodes(objs[k])
        invariant forall k, l :: 0 <= k < l < i ==> wallets[k] != wallets[l]
      {
        var w := FromMap(objs[i]);
        wallets := wallets + [w];
        i := i + 1;
      }
    }

    /** `getWallet`: a fresh wallet exactly when the reply passes the three-key gate. */
    method GetWallet(wid: Option<string>, reply: Option<JObject>)
      returns (request: Request, wallet: Option<Wallet>)
      requires IsWalletResponse(reply) ==> WalletTyped(reply.value)
      ensures request == Get(JavaString(baseUrl) + JavaString(getWalletUrl) + JavaString(wid),
                             GetHeaders(Authorization(longLivedToken)))
      ensures wallet.Some? <==> IsWalletResponse(reply)
      ensures wallet.Some? ==> fresh(wallet.value) && wallet.value.Decodes(reply.value)
    {
      request := Get(JavaString(baseUrl) + JavaString(getWalletUrl) + JavaString(wid),
                     GetHeaders(Authorization(longLivedToken)));
      if IsWalletResponse(reply) {
        var w := FromMap(reply.value);
        wallet := Some(w);
      } else {
        wallet := None;
      }
    }
  }

  /** With the default template the wallet id lands between `/wallet/` and
      `/sendmany`, whatever it contains. */
  lemma DefaultSendManyPath(walletId: string)
    ensures Replace(DefaultSendManyUrl, WalletPlaceholder, walletId)
            == DefaultGetWalletUrl + walletId + SendManySuffix
  {
    var head, tail := DefaultGetWalletUrl, SendManySuffix;
    HeadAbsentFree(head, WalletPlaceholder);
    HeadAbsentFree(tail, WalletPlaceholder);
    PlaceholderBorderless();
    var pieces := [head, tail];
    assert pieces[1..] == [tail];
    assert Join(pieces, WalletPlaceholder) == DefaultSendManyUrl;
    ReplaceJoin(pieces, WalletPlaceholder, walletId);
  }

  /** A fresh client posts `sendMany` to the local service, authorised by its token. */
  method DefaultSendMany(token: string, walletId: string, address: string, amount: Decimal)
    returns (request: Request)
    ensures request.Post? && "recipients" in request.body && "walletPassphrase" in request.body
    ensures request.url == DefaultBaseUrl + DefaultGetWalletUrl + walletId + SendManySuffix
    ensures request.auth == token && !request.unsafe
    ensures request.body["recipients"] == JArr([RecipientEntry(address, amount)])
    ensures request.body["walletPassphrase"] == JNull
  {
    var c := new Client(Some(token));
    var logged, result;
    request, logged, result := c.SendMany(walletId, None, map[address := amount], None, None,
                                          None, None, 0, false, None);
    DefaultSendManyPath(walletId);
    SingleRecipient(logged["recipients"].items, address, amount);
  }

  /** A one-recipient map yields a one-entry list. */
  lemma SingleRecipient(addr: seq<JValue>, address: string, amount: Decimal)
    requires ListsRecipients(addr, map[address := amount])
    ensures addr == [RecipientEntry(address, amount)]
  {
    var recipients := map[address := amount];
    var order :| IsOrdering(order, recipients) && EntriesOf(addr, order, recipients);
    assert order[0] in recipients;
  }
}

/** The client's behaviour on concrete inputs and replies. */
module Scenarios {
  import opened Wrappers
  import opened Decimals
  import opened Json
  import opened SendManyPayload
  import opened Responses
  import opened Urls
  import opened BitGo

  /** A template whose fixed text ends in all of the placeholder but its last
      letter still gets exactly its placeholder replaced: the replacement does
      not start at the earlier `$`. */
  lemma TemplateWithDollar(walletId: string)
    ensures Replace("/a$WALLE" + WalletPlaceholder + "/send", WalletPlaceholder, walletId)
            == "/a$WALLE" + walletId + "/send"
  {
    var head, tail := "/a$WALLE", "/send";
    forall i | 0 <= i <= |head|
      ensures !OccursAt(head, WalletPlaceholder, i)
    {
      if i < 2 {
        assert head[i..i + |WalletPlaceholder|][0] == head[i] != WalletPlaceholder[0];
      }
    }
    HeadAbsentFree(tail, WalletPlaceholder);
    PlaceholderBorderless();
    var pieces := [head, tail];
    assert pieces[1..] == [tail];
    assert Join(pieces, WalletPlaceholder) == head + WalletPlaceholder + tail;
    ReplaceJoin(pieces, WalletPlaceholder, walletId);
  }

  /** A reply without `error` or `tx` is no result whatever else it holds: it is
      rejected before any of its values is cast. */
  lemma UntypedReplyWithoutGate()
    ensures DecodeSendResponse(map["fee" := JNull]).None?
    ensures DecodeSendResponse(map["status" := JNum(200), "pendingApproval" := JBool(true)]).None?
  {
  }

  /** One recipient of 0.5 coins and a fee of 0.0001: the body carries 50000000 and
      10000 satoshis, and the passphrase. */
  method SendHalfCoin(client: Client, walletPass: string)
    returns (request: Request)
    requires client.sendManyUrl.Some?
    ensures request.Post? && "recipients" in request.body && "fee" in request.body
    ensures request.body["recipients"].JArr? && |request.body["recipients"].items| == 1
    ensures request.body["recipients"].items[0].JObj?
    ensures request.body["recipients"].items[0].fields.Keys == {"address", "amount"}
    ensures request.body["recipients"].items[0].fields["address"] == JStr("addr1")
    ensures request.body["recipients"].items[0].fields["amount"] == JNum(50000000)
    ensures request.body["fee"] == JNum(10000)
    ensures "walletPassphrase" in request.body
    ensures request.body["walletPassphrase"] == JStr(walletPass)
  {
    var logged, result;
    request, logged, result := client.SendMany("w", Some(walletPass), map["addr1" := Decimal(5, 1)],
                                               None, None, Some(Decimal(1, 4)), None, 0, false, None);
    SingleRecipient(logged["recipients"].items, "addr1", Decimal(5, 1));
    MinorUnitsRoundTrip(Decimal(5, 1));
    MinorUnitsRoundTrip(Decimal(1, 4));
  }

  /** `{"tx":"abc","fee":10000}` is a result with that transaction, a fee of 0.0001
      and the default fee rate 0; `{}` is no result. */
  lemma DecodeExamples()
    ensures var r := DecodeSendResponse(map["tx" := JStr("abc"), "fee" := JNum(10000)]);
      && r.Some? && r.value.tx == Some("abc") && !r.value.otp
      && SameValue(r.value.fee, Decimal(1, 4)) && SameValue(r.value.feeRate, Decimal(0, 0))
    ensures DecodeSendResponse(map[]).None?
  {
    var resp := map["tx" := JStr("abc"), "fee" := JNum(10000)];
    assert "feeRate" !in resp && "otp" !in resp;
    Pow10Satoshi();
  }

  /** A listing with one wallet yields that wallet with balances 1.0 and 0.5. */
  method ListOneWallet(client: Client) returns (wallets: seq<Wallet>)
    ensures |wallets| == 1 && wallets[0].id == Some("w1")
    ensures wallets[0].balance.Some? && SameValue(wallets[0].balance.value, Decimal(1, 0))
    ensures wallets[0].confirmedBalance.Some?
    ensures SameValue(wallets[0].confirmedBalance.value, Decimal(5, 1))
    ensures wallets[0].spendableBalance.None?
  {
    var w1 := map["id" := JStr("w1"), "balance" := JNum(100000000),
                  "confirmedBalance" := JNum(50000000)];
    var reply := map["wallets" := JArr([JObj(w1)])];
    assert WalletTyped(w1);
    var request;
    request, wallets := client.GetWallets(reply);
    assert WalletObjects(reply)[0] == w1;
    Pow10Satoshi();
  }

  /** A wallet reply without `confirmedBalance` is no wallet. */
  method WalletWithoutConfirmedBalance(client: Client) returns (wallet: Option<Wallet>)
    ensures wallet.None?
  {
    var reply := map["id" := JStr("w1"), "balance" := JNum(100000000)];
    var request;
    request, wallet := client.GetWallet(Some("w1"), Some(reply));
  }

  /** A listing without `wallets` is an empty list, not an error. */
  method ListWithoutWallets(client: Client) returns (wallets: seq<Wallet>)
    ensures wallets == []
  {
    var request;
    request, wallets := client.GetWallets(map["status" := JStr("ok")]);
  }
}
