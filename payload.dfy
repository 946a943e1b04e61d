/** The JSON body that `sendMany` posts: the recipient list and the optional keys,
    each added under its own guard, with the passphrase added last. */
module SendManyPayload {
  import opened Wrappers
  import opened Decimals
  import opened Json

  /** One element of the `recipients` list: the address and the amount in satoshis. */
  function RecipientEntry(address: string, amount: Decimal): (e: JValue)
    ensures e.JObj? && e.fields.Keys == {"address", "amount"}
    ensures e.fields["address"] == JStr(address)
    ensures e.fields["amount"] == JNum(MinorUnits(amount))
  {
    JObj(map["address" := JStr(address), "amount" := JNum(MinorUnits(amount))])
  }

  lemma RecipientEntryInjective(a: string, x: Decimal, b: string, y: Decimal)
    requires RecipientEntry(a, x) == RecipientEntry(b, y)
    ensures a == b
  {
    assert JStr(a) == RecipientEntry(a, x).fields["address"];
  }

  /** order lists every address of recipients exactly once. */
  ghost predicate IsOrdering(order: seq<string>, recipients: map<string, Decimal>)
  {
    && |order| == |recipients|
    && (forall i :: 0 <= i < |order| ==> order[i] in recipients)
    && (forall a :: a in recipients ==> a in order)
    && (forall i, j :: 0 <= i < j < |order| ==> order[i] != order[j])
  }

  /** addr has one entry per recipient, each recipient once, in some order. */
  ghost predicate ListsRecipients(addr: seq<JValue>, recipients: map<string, Decimal>)
  {
    exists order :: IsOrdering(order, recipients) && EntriesOf(addr, order, recipients)
  }

  /** The addresses the loop over the recipients has visited so far, each once. */
  ghost predicate VisitedKeys(visited: seq<string>, remaining: set<string>,
                              recipients: map<string, Decimal>)
  {
    && remaining <= recipients.Keys
    && |visited| + |remaining| == |recipients|
    && (forall i :: 0 <= i < |visited| ==> visited[i] in recipients && visited[i] !in remaining)
    && (forall a :: a in recipients && a !in remaining ==> a in visited)
    && (forall i, j :: 0 <= i < j < |visited| ==> visited[i] != visited[j])
  }

  /** addr holds the entries of the visited addresses, in the order visited. */
  ghost predicate EntriesOf(addr: seq<JValue>, visited: seq<string>,
                            recipients: map<string, Decimal>)
  {
    && |addr| == |visited|
    && (forall i :: 0 <= i < |addr| ==>
          visited[i] in recipients && addr[i] == RecipientEntry(visited[i], recipients[visited[i]]))
  }

  lemma VisitKey(visited: seq<string>, remaining: set<string>,
                 recipients: map<string, Decimal>, a: string)
    requires VisitedKeys(visited, remaining, recipients) && a in remaining
    ensures VisitedKeys(visited + [a], remaining - {a}, recipients)
  {
    var visited' := visited + [a];
    assert visited'[|visited|] == a;
    assert forall b :: b in visited ==> b in visited';
  }

  lemma VisitEntry(addr: seq<JValue>, visited: seq<string>,
                   recipients: map<string, Decimal>, a: string)
    requires EntriesOf(addr, visited, recipients) && a in recipients
    ensures EntriesOf(addr + [RecipientEntry(a, recipients[a])], visited + [a], recipients)
  {
  }

  lemma VisitedAll(addr: seq<JValue>, visited: seq<string>, recipients: map<string, Decimal>)
    requires VisitedKeys(visited, {}, recipients) && EntriesOf(addr, visited, recipients)
    ensures ListsRecipients(addr, recipients)
  {
    assert IsOrdering(visited, recipients);
  }

  /** The loop over `recipients.entrySet()`; a Map promises no iteration order,
      so each step takes any address not yet visited. */
  method BuildRecipients(recipients: map<string, Decimal>) returns (addr: seq<JValue>)
    ensures ListsRecipients(addr, recipients)
  {
    addr := [];
    var remaining := recipients.Keys;
    ghost var visited: seq<string> := [];
    while remaining != {}
      invariant VisitedKeys(visited, remaining, recipients)
      invariant EntriesOf(addr, visited, recipients)
      decreases remaining
    {
      var a :| a in remaining;
      VisitKey(visited, remaining, recipients, a);
      VisitEntry(addr, visited, recipients, a);
      addr := addr + [RecipientEntry(a, recipients[a])];
      visited := visited + [a];
      remaining := remaining - {a};
    }
    VisitedAll(addr, visited, recipients);
  }

  /** Each entry of the list names a recipient; when every amount has at most 8
      decimal places and fits a `long`, the entry's satoshis are that amount. */
  lemma RecipientRoundTrip(addr: seq<JValue>, recipients: map<string, Decimal>, i: int)
    requires ListsRecipients(addr, recipients) && 0 <= i < |addr|
    requires forall a :: a in recipients ==>
               recipients[a].scale <= SatoshiDigits && FitsInLong(recipients[a])
    ensures addr[i].JObj? && "address" in addr[i].fields && addr[i].fields["address"].JStr?
    ensures addr[i].fields["address"].s in recipients
    ensures "amount" in addr[i].fields && addr[i].fields["amount"].JNum?
    ensures SameValue(SatoshiToBitcoin(addr[i].fields["amount"].n),
                      recipients[addr[i].fields["address"].s])
  {
    var order :| IsOrdering(order, recipients) && EntriesOf(addr, order, recipients);
    EntryRoundTrip(addr[i], order[i], recipients[order[i]]);
  }

  /** The list holds an entry for every recipient, and no entry twice. */
  lemma ListsEveryRecipientOnce(addr: seq<JValue>, recipients: map<string, Decimal>)
    requires ListsRecipients(addr, recipients)
    ensures |addr| == |recipients|
    ensures forall a :: a in recipients ==> RecipientEntry(a, recipients[a]) in addr
    ensures forall i, j :: 0 <= i < j < |addr| ==> addr[i] != addr[j]
  {
    var order :| IsOrdering(order, recipients) && EntriesOf(addr, order, recipients);
    forall a | a in recipients ensures RecipientEntry(a, recipients[a]) in addr {
      var i :| 0 <= i < |order| && order[i] == a;
      assert addr[i] == RecipientEntry(a, recipients[a]);
    }
    forall i, j | 0 <= i < j < |addr| ensures addr[i] != addr[j] {
      if addr[i] == addr[j] {
        RecipientEntryInjective(order[i], recipients[order[i]], order[j], recipients[order[j]]);
      }
    }
  }

  /** One entry carries its address, and its amount exactly, in satoshis. */
  lemma EntryRoundTrip(e: JValue, address: string, amount: Decimal)
    requires e == RecipientEntry(address, amount)
    requires amount.scale <= SatoshiDigits && FitsInLong(amount)
    ensures e.JObj? && "address" in e.fields && e.fields["address"] == JStr(address)
    ensures "amount" in e.fields && e.fields["amount"].JNum?
    ensures SameValue(SatoshiToBitcoin(e.fields["amount"].n), amount)
  {
    MinorUnitsRoundTrip(amount);
  }

  /** The body as it stands when it is logged, before the passphrase is added. */
  ghost predicate LoggedPayload(data: JObject, addr: seq<JValue>,
                                sequenceId: Option<string>, message: Option<string>,
                                fee: Option<Decimal>, feeTxConfirmTarget: Option<Decimal>,
                                minConfirms: int, enforceMinConfirmsForChange: bool)
  {
    && data.Keys <= {"recipients", "message", "sequenceId", "fee", "feeTxConfirmTarget",
                     "minConfirms", "enforceMinConfirmsForChange"}
    && "recipients" in data && "enforceMinConfirmsForChange" in data
    && ("message" in data <==> message.Some?)
    && ("sequenceId" in data <==> sequenceId.Some?)
    && ("fee" in data <==> fee.Some?)
    && ("feeTxConfirmTarget" in data <==> feeTxConfirmTarget.Some?)
    && ("minConfirms" in data <==> minConfirms > 0)
    && data["recipients"] == JArr(addr)
    && (message.Some? ==> data["message"] == JStr(message.value))
    && (sequenceId.Some? ==> data["sequenceId"] == JStr(sequenceId.value))
    && (fee.Some? ==> data["fee"] == JNum(MinorUnits(fee.value)))
    && (feeTxConfirmTarget.Some? ==> data["feeTxConfirmTarget"] == JDec(feeTxConfirmTarget.value))
    && (minConfirms > 0 ==> data["minConfirms"] == JNum(minConfirms))
    && data["enforceMinConfirmsForChange"] == JBool(enforceMinConfirmsForChange)
  }

  /** The keys the body carries besides `recipients`, `enforceMinConfirmsForChange`
      and `walletPassphrase`: each appears exactly when its guard holds. */
  function OptionalKeys(sequenceId: Option<string>, message: Option<string>,
                        fee: Option<Decimal>, feeTxConfirmTarget: Option<Decimal>,
                        minConfirms: int): set<string>
  {
    (if message.Some? then {"message"} else {})
    + (if sequenceId.Some? then {"sequenceId"} else {})
    + (if fee.Some? then {"fee"} else {})
    + (if feeTxConfirmTarget.Some? then {"feeTxConfirmTarget"} else {})
    + (if minConfirms > 0 then {"minConfirms"} else {})
  }

  /** The logged body has exactly the two fixed keys and the optional keys whose
      guards hold; nothing else. */
  lemma LoggedKeys(data: JObject, addr: seq<JValue>,
                   sequenceId: Option<string>, message: Option<string>,
                   fee: Option<Decimal>, feeTxConfirmTarget: Option<Decimal>,
                   minConfirms: int, enforceMinConfirmsForChange: bool)
    requires LoggedPayload(data, addr, sequenceId, message, fee, feeTxConfirmTarget,
                           minConfirms, enforceMinConfirmsForChange)
    ensures data.Keys == {"recipients", "enforceMinConfirmsForChange"}
                         + OptionalKeys(sequenceId, message, fee, feeTxConfirmTarget, minConfirms)
  {
  }

  /** The successive `data.put` calls of `sendMany`. */
  method BuildPayload(addr: seq<JValue>, walletPass: Option<string>,
                      sequenceId: Option<string>, message: Option<string>,
                      fee: Option<Decimal>, feeTxConfirmTarget: Option<Decimal>,
                      minConfirms: int, enforceMinConfirmsForChange: bool)
    returns (logged: JObject, body: JObject)
    ensures LoggedPayload(logged, addr, sequenceId, message, fee, feeTxConfirmTarget,
                          minConfirms, enforceMinConfirmsForChange)
    ensures "walletPassphrase" !in logged
    ensures body.Keys == logged.Keys + {"walletPassphrase"}
    ensures body["walletPassphrase"] == StringOrNull(walletPass)
    ensures forall k :: k in logged ==> body[k] == logged[k]
  {
    var data: JObject := map[];
    data := data["recipients" := JArr(addr)];
    if message.Some? {
      data := data["message" := JStr(message.value)];
    }
    if sequenceId.Some? {
      data := data["sequenceId" := JStr(sequenceId.value)];
    }
    if fee.Some? {
      data := data["fee" := JNum(MinorUnits(fee.value))];
    }
    if feeTxConfirmTarget.Some? {
      data := data["feeTxConfirmTarget" := JDec(feeTxConfirmTarget.value)];
    }
    if minConfirms > 0 {
      data := data["minConfirms" := JNum(minConfirms)];
    }
    data := data["enforceMinConfirmsForChange" := JBool(enforceMinConfirmsForChange)];
    logged := data;
    data := data["walletPassphrase" := StringOrNull(walletPass)];
    body := data;
  }
}
