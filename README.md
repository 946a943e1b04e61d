# BitGo wallet client: request building and reply decoding

This project models the marshaling core of the BitGo Java client
(`BitGoClientImpl`). The client is configured with a base URL, three endpoint
templates, a long-lived bearer token and an `unsafe` TLS flag. It offers three
operations:

- `sendMany` posts a payment to a wallet's `sendmany` endpoint. The payment is
  a list of recipients, each with an amount in satoshis, plus optional
  message, sequence id, fee, confirmation target and minimum confirmations.
  The client then decodes the service's reply into a `SendCoinsResponse`.
- `getWallets` lists wallets.
- `getWallet` fetches one wallet.

Money is `java.math.BigDecimal` on the API and whole satoshis (10^-8 coin, as a
Java `long`) on the wire.

The model is split into these modules:

- `Decimals` models a BigDecimal with non-negative scale. It covers
  `movePointRight`, `longValue` (truncation toward zero, then the low 64 bits)
  and the satoshi conversion in both directions.
- `Json` models the decoded JSON maps the client exchanges, and the casts it
  applies to their values.
- `Urls` models Java's `String.replace` and the `$WALLET` template substitution.
- `SendManyPayload` builds the `sendMany` body.
  - The recipient loop walks the recipient map in an unspecified order, as
    iteration over a `Map` does. Each step takes any address not yet visited.
  - The successive `put`s are kept, including the snapshot of the body that is
    logged before the passphrase is added.
- `Responses` covers decoding:
  - the `sendMany` response decoder and its validity gate;
  - the `Wallet` bean;
  - `fromMap`, which allocates a fresh wallet and sets each balance only when
    its key is present;
  - the wallet-list extraction.
- `BitGo` holds the `Client` class with its configuration fields and defaults,
  `setLongLivedToken`, the three operations, and the requests they hand to the
  transport.
- `Scenarios` states the client's behaviour on concrete inputs and replies.

The service's reply is an input of each operation, not something the model
fetches. For `sendMany` the reply is `None` when the connection could not be
opened. For `getWallet`, `None` is a null response map.

`Conversions.satoshiToBitcoin` is not part of this model. It is taken to be the
exact quotient by 10^8, that is a decimal with unscaled value n and scale 8.

The model keeps these details of the code, which a reader might expect to
behave otherwise:

- A missing token is replaced by the placeholder `TODO!`; it is not an error.
- A `wallets` value that is JSON `null` gives an empty list, just like a
  missing key.
- A null passphrase is still put into the body map handed to the transport,
  as a `walletPassphrase` key with value `null`. Whether the transport's JSON
  writer emits null-valued keys is outside this model.
- A null wallet id in `getWallet` becomes the text `null` in the URL.
- The configuration fields are nullable, as their setters allow. A null base
  URL, list path or wallet path becomes the text `null` in the URL. A null
  sendmany template makes `sendMany` fail, so `SendMany` requires it non-null.
- The `sendMany` reply is cast only after the gate passes. A reply without
  `error` or `tx` is no result, whatever types its other values have.

## Model

| member | source | states |
|---|---|---|
| Decimals.ToLong | bitgo-java-api/src/main/java/com/bitso/bitgo/impl/BitGoClientImpl.java:75 | `longValue()` always yields a value in the `long` range, and a value already in range is kept unchanged |
| Decimals.ToLongCongruent | bitgo-java-api/src/main/java/com/bitso/bitgo/impl/BitGoClientImpl.java:75 | an out-of-range value is only shifted by multiples of 2^64 (it keeps the low 64 bits) |
| Decimals.TruncDivBounds | bitgo-java-api/src/main/java/com/bitso/bitgo/impl/BitGoClientImpl.java:75 | dropping the fraction rounds toward zero: the magnitude is the number of whole divisors in the dividend, and the sign never flips |
| Decimals.TruncDivUnique | bitgo-java-api/src/main/java/com/bitso/bitgo/impl/BitGoClientImpl.java:75 | those bounds and signs determine the truncated quotient uniquely |
| Decimals.MovePointRight | bitgo-java-api/src/main/java/com/bitso/bitgo/impl/BitGoClientImpl.java:75 | `movePointRight(n)` leaves scale max(scale − n, 0) |
| Decimals.MovePointRightValue | bitgo-java-api/src/main/java/com/bitso/bitgo/impl/BitGoClientImpl.java:75 | `movePointRight(n)` multiplies the numeric value by 10^n |
| Decimals.TruncDiv | bitgo-java-api/src/main/java/com/bitso/bitgo/impl/BitGoClientImpl.java:75 | dropping the fraction keeps the sign of the dividend (zero included); TruncDivBounds and TruncDivUnique pin the quotient down |
| Decimals.LongValue | bitgo-java-api/src/main/java/com/bitso/bitgo/impl/BitGoClientImpl.java:75 | `longValue()` always lies in the `long` range; for the satoshi use, MinorUnitsMatchesBigDecimal ties it to MinorUnits |
| Decimals.MinorUnits | bitgo-java-api/src/main/java/com/bitso/bitgo/impl/BitGoClientImpl.java:88 | the satoshi amount put on the wire is always a `long`; MinorUnitsMatchesBigDecimal, MinorUnitsTruncates and MinorUnitsRoundTrip state its value |
| Decimals.SatoshiToBitcoin | bitgo-java-api/src/main/java/com/bitso/bitgo/impl/BitGoClientImpl.java:115-119 | the assumed coin value of a satoshi count moves back to exactly that count under `movePointRight(8)` |
| Decimals.SatoshisRoundTrip | bitgo-java-api/src/main/java/com/bitso/bitgo/impl/BitGoClientImpl.java:172 | any `long` satoshi count, converted to coins and back to satoshis as the client encodes amounts, is unchanged |
| Decimals.MinorUnitsMatchesBigDecimal | bitgo-java-api/src/main/java/com/bitso/bitgo/impl/BitGoClientImpl.java:75 | the satoshi formula used on the wire equals `movePointRight(8).longValue()` for every decimal |
| Decimals.MinorUnitsTruncates | bitgo-java-api/src/main/java/com/bitso/bitgo/impl/BitGoClientImpl.java:88 | for any amount within `long` range, the satoshi count is amount × 10^8 truncated toward zero: never rounded up in magnitude, never of the opposite sign |
| Decimals.MinorUnitsRoundTrip | bitgo-java-api/src/main/java/com/bitso/bitgo/impl/BitGoClientImpl.java:75 | an amount with at most 8 decimal places within `long` range becomes exactly amount × 10^8 satoshis, and converting back gives the same number |
| Decimals.TruncationExample | bitgo-java-api/src/main/java/com/bitso/bitgo/impl/BitGoClientImpl.java:75 | ±1.123456789 coins are ±112345678 satoshis: the ninth digit is dropped |
| Json.StringOrNull | bitgo-java-api/src/main/java/com/bitso/bitgo/impl/BitGoClientImpl.java:98 | a null string becomes a JSON `null` and only then; a present string is stored as itself |
| Json.StringAt | bitgo-java-api/src/main/java/com/bitso/bitgo/impl/BitGoClientImpl.java:107-113 | `(String) resp.get(key)` is present exactly when the key maps to a string, and is then that string |
| Json.LongAt | bitgo-java-api/src/main/java/com/bitso/bitgo/impl/BitGoClientImpl.java:115-119 | `getOrDefault(key, 0).longValue()` is a `long`: the stored number when it is in range, the default when the key is missing |
| Urls.Replace | bitgo-java-api/src/main/java/com/bitso/bitgo/impl/BitGoClientImpl.java:62 | `replace` with the pattern itself as replacement changes nothing; ReplaceFree and ReplaceJoin state what it does to templates |
| Urls.HeadAbsentFree | bitgo-java-api/src/main/java/com/bitso/bitgo/impl/BitGoClientImpl.java:62 | a text without the pattern's first character contains no occurrence of the pattern |
| Urls.HeadUniqueBorderless | bitgo-java-api/src/main/java/com/bitso/bitgo/impl/BitGoClientImpl.java:62 | a pattern whose first character does not recur has no proper prefix that is also a suffix |
| Urls.ReplaceFreeThenPat | bitgo-java-api/src/main/java/com/bitso/bitgo/impl/BitGoClientImpl.java:62 | for a borderless pattern, the first match in a pattern-free text followed by the pattern is that occurrence |
| Urls.PlaceholderBorderless | bitgo-java-api/src/main/java/com/bitso/bitgo/impl/BitGoClientImpl.java:62 | `$WALLET` is borderless, so ReplaceJoin applies to every template built with it |
| Urls.ReplaceFree | bitgo-java-api/src/main/java/com/bitso/bitgo/impl/BitGoClientImpl.java:62 | `replace` leaves any text in which the pattern does not occur unchanged |
| Urls.ReplaceJoin | bitgo-java-api/src/main/java/com/bitso/bitgo/impl/BitGoClientImpl.java:62 | for a borderless pattern such as `$WALLET` (PlaceholderBorderless), substituting in any template whose fixed pieces do not contain the placeholder puts the wallet id in place of each placeholder and changes nothing else |
| SendManyPayload.RecipientEntry | bitgo-java-api/src/main/java/com/bitso/bitgo/impl/BitGoClientImpl.java:72-76 | a recipient entry has exactly the keys `address` and `amount`, and `address` is the recipient's address |
| SendManyPayload.RecipientEntryInjective | bitgo-java-api/src/main/java/com/bitso/bitgo/impl/BitGoClientImpl.java:72-76 | equal entries name the same address |
| SendManyPayload.BuildRecipients | bitgo-java-api/src/main/java/com/bitso/bitgo/impl/BitGoClientImpl.java:70-77 | whatever the map's iteration order, the list holds exactly one entry per recipient, each carrying that recipient's address and satoshi amount |
| SendManyPayload.ListsEveryRecipientOnce | bitgo-java-api/src/main/java/com/bitso/bitgo/impl/BitGoClientImpl.java:70-77 | such a list is as long as the recipient map, contains every recipient's entry and no entry twice |
| SendManyPayload.EntryRoundTrip | bitgo-java-api/src/main/java/com/bitso/bitgo/impl/BitGoClientImpl.java:72-76 | an entry carries its address, and its satoshis convert back to the recipient's amount, for an amount with at most 8 decimal places that fits a `long` |
| SendManyPayload.RecipientRoundTrip | bitgo-java-api/src/main/java/com/bitso/bitgo/impl/BitGoClientImpl.java:70-77 | every list entry names a recipient; when every amount has at most 8 decimal places and fits a `long`, the entry's satoshis convert back to that recipient's amount |
| SendManyPayload.BuildPayload | bitgo-java-api/src/main/java/com/bitso/bitgo/impl/BitGoClientImpl.java:78-98 | the logged body always has `recipients` and `enforceMinConfirmsForChange`. Each optional key is present exactly when its guard holds: `message`, `sequenceId`, `fee`, `feeTxConfirmTarget` when non-null, `minConfirms` when > 0. `fee` is scaled to satoshis and `feeTxConfirmTarget` is not. The posted body is the logged body plus `walletPassphrase` (null when absent). |
| SendManyPayload.LoggedKeys | bitgo-java-api/src/main/java/com/bitso/bitgo/impl/BitGoClientImpl.java:78-96 | the logged body's key set is exactly the two fixed keys plus the guarded optional keys |
| Responses.SatoshiField | bitgo-java-api/src/main/java/com/bitso/bitgo/impl/BitGoClientImpl.java:115-119 | a missing fee reads as 0 coins; a present in-range value reads as that many satoshis |
| Responses.IsSendResult | bitgo-java-api/src/main/java/com/bitso/bitgo/impl/BitGoClientImpl.java:105 | the send gate: `error` or `tx` present. DecodeSendResponse's first ensures states a result exists iff it holds |
| Responses.DecodeSendResponse | bitgo-java-api/src/main/java/com/bitso/bitgo/impl/BitGoClientImpl.java:105-122 | a result exists iff the reply has `error` or `tx`; the value types are required only of a reply that passes this gate. The six string fields are copied. `otp` is true only when the reply says true. `fee` and `feeRate` are read from satoshis and default to 0. |
| Responses.FeeRoundTrip | bitgo-java-api/src/main/java/com/bitso/bitgo/impl/BitGoClientImpl.java:115-116 | a fee sent as satoshis (line 88) and echoed in the reply decodes to the same number of coins, for a fee with at most 8 decimal places that fits a `long` |
| Responses.Wallet.constructor | bitgo-java-api/src/main/java/com/bitso/bitgo/impl/BitGoClientImpl.java:169 | a new wallet has every field unset |
| Responses.FromMap | bitgo-java-api/src/main/java/com/bitso/bitgo/impl/BitGoClientImpl.java:168-191 | a fresh wallet whose id is the map's id. Each of the five balances is set iff its key is present, to that many satoshis in coins. |
| Responses.BalanceRoundTrip | bitgo-java-api/src/main/java/com/bitso/bitgo/impl/BitGoClientImpl.java:171-173 | a balance stored as the client's own satoshi encoding of an amount decodes to that amount, for an amount with at most 8 decimal places that fits a `long` |
| Responses.IsWalletResponse | bitgo-java-api/src/main/java/com/bitso/bitgo/impl/BitGoClientImpl.java:161-162 | the wallet gate: a non-null reply with `id`, `balance` and `confirmedBalance`. GetWallet's ensures states a wallet is returned iff it holds |
| Responses.WalletObjects | bitgo-java-api/src/main/java/com/bitso/bitgo/impl/BitGoClientImpl.java:140-143 | a missing or null `wallets` gives no objects; otherwise one per list element, in order |
| BitGo.Authorization | bitgo-java-api/src/main/java/com/bitso/bitgo/impl/BitGoClientImpl.java:63-69 | the long-lived token when set, the placeholder `TODO!` otherwise |
| BitGo.GetHeaders | bitgo-java-api/src/main/java/com/bitso/bitgo/impl/BitGoClientImpl.java:135-136 | GET requests carry exactly `Content-Type: application/json` and `Authorization: Bearer <token>` |
| BitGo.JavaString | bitgo-java-api/src/main/java/com/bitso/bitgo/impl/BitGoClientImpl.java:148 | string concatenation renders a null wallet id as `null` |
| BitGo.Client.constructor | bitgo-java-api/src/main/java/com/bitso/bitgo/impl/BitGoClientImpl.java:29-43 | the default base URL and paths, the given token, and `unsafe` off |
| BitGo.Client.SendManyTarget | bitgo-java-api/src/main/java/com/bitso/bitgo/impl/BitGoClientImpl.java:62 | the sendmany URL, for a non-null template; a null base URL reads `null`. With the default template it is base URL + `/wallet/` + id + `/sendmany` |
| BitGo.Client.SetLongLivedToken | bitgo-java-api/src/main/java/com/bitso/bitgo/impl/BitGoClientImpl.java:45-47 | the token is replaced; no other field changes |
| BitGo.Client.SendMany | bitgo-java-api/src/main/java/com/bitso/bitgo/impl/BitGoClientImpl.java:56-123 | for a non-null template and a reply well typed when it passes the gate: one POST to the base URL plus the substituted template, with the chosen token and TLS mode. Its body lists every recipient once, with the logged keys and the passphrase. An unopened connection gives no result; otherwise the result is the decoded reply. |
| BitGo.Client.GetWallets | bitgo-java-api/src/main/java/com/bitso/bitgo/impl/BitGoClientImpl.java:125-145 | one GET to base URL + list path, each rendered `null` when null, with the auth headers. The result has one distinct fresh wallet per listed object, in order, each decoded by `fromMap`. |
| BitGo.Client.GetWallet | bitgo-java-api/src/main/java/com/bitso/bitgo/impl/BitGoClientImpl.java:147-166 | one GET to base URL + wallet path + id, each rendered `null` when null. A wallet is returned iff the reply is non-null and has `id`, `balance` and `confirmedBalance`, and it is then the `fromMap` decoding. |
| BitGo.DefaultSendManyPath | bitgo-java-api/src/main/java/com/bitso/bitgo/impl/BitGoClientImpl.java:32 | the default template puts the wallet id between `/wallet/` and `/sendmany`, whatever the id contains |
| BitGo.DefaultSendMany | bitgo-java-api/src/main/java/com/bitso/bitgo/impl/BitGoClientImpl.java:41-99 | a fresh client posts to `http://localhost:3080/api/v1/wallet/<id>/sendmany` with its token, verified TLS, the single recipient's entry and a null passphrase |
| BitGo.SingleRecipient | bitgo-java-api/src/main/java/com/bitso/bitgo/impl/BitGoClientImpl.java:70-77 | one recipient gives a one-entry list |
| Scenarios.TemplateWithDollar | bitgo-java-api/src/main/java/com/bitso/bitgo/impl/BitGoClientImpl.java:62 | in a template `/a$WALLE$WALLET/send` only the placeholder is replaced, not the text that starts at the earlier `$` |
| Scenarios.UntypedReplyWithoutGate | bitgo-java-api/src/main/java/com/bitso/bitgo/impl/BitGoClientImpl.java:105 | `{"fee": null}` and `{"status": 200, "pendingApproval": true}` fail the gate and give no result, although their values do not have the cast types |
| Scenarios.SendHalfCoin | bitgo-java-api/src/main/java/com/bitso/bitgo/impl/BitGoClientImpl.java:70-98 | recipient `addr1` with 0.5 and fee 0.0001 give amount 50000000 and fee 10000, and the passphrase is sent |
| Scenarios.DecodeExamples | bitgo-java-api/src/main/java/com/bitso/bitgo/impl/BitGoClientImpl.java:105-122 | `{"tx":"abc","fee":10000}` gives tx `abc`, fee 0.0001, fee rate 0 and otp false; `{}` gives no result |
| Scenarios.ListOneWallet | bitgo-java-api/src/main/java/com/bitso/bitgo/impl/BitGoClientImpl.java:140-144 | a listing of one wallet `w1` with balance 100000000 and confirmed balance 50000000 gives balances 1.0 and 0.5, and no spendable balance |
| Scenarios.WalletWithoutConfirmedBalance | bitgo-java-api/src/main/java/com/bitso/bitgo/impl/BitGoClientImpl.java:161-165 | a wallet reply missing `confirmedBalance` gives no wallet |
| Scenarios.ListWithoutWallets | bitgo-java-api/src/main/java/com/bitso/bitgo/impl/BitGoClientImpl.java:141-143 | a listing without `wallets` gives an empty list |

## Left out

- HTTP transport (`HttpHelper.post`, `postUnsafe`, `readResponse`, `URL.openConnection`) is outside this model. Requests are returned as values and replies are inputs. I/O errors are not modelled.
- The `unsafe` TLS mode is modelled only as a flag carried by the request; certificate handling belongs to the transport.
- Logging (`log.warn`, `log.trace`) is left out. The logged `sendMany` body appears only as the `logged` snapshot.
- `login` is a stub that always returns empty and sends nothing; it is not modelled.
- `Conversions.satoshiToBitcoin` is not part of this model. It is assumed to be the exact quotient by 10^8.
- BigDecimal values with a negative scale are not modelled; `Decimal` has a non-negative scale.
- JSON numbers are modelled as integers. A reply value that the JSON reader would give as a floating-point `Number` is not modelled.
- Unchecked casts are required to succeed. The decoders take well-typedness preconditions instead of modelling `ClassCastException`. `DecodeSendResponse` and `SendMany` require `SendResponseTyped` only of a reply that passes the `error`/`tx` gate, since the casts come after it. `GetWallet` likewise requires `WalletTyped` only of a reply that passes its gate. `FromMap` requires `WalletTyped`, and `GetWallets` requires `WalletListTyped`.
- Null-pointer failures are not modelled:
  - a null wallet id in `sendMany`;
  - a null recipient map or amount;
  - a null address (a `Map` key), which `sendMany` would put as `address: null`;
  - a null response map in `sendMany` or `getWallets`;
  - a null `otp`, `fee` or balance value;
  - a null element of the `wallets` list, on which `fromMap` fails at its first `get`. `WalletListTyped` requires every element to be a JSON object.
- The Lombok setters and getters of the configuration fields are not modelled as methods. `Client`'s fields are plain mutable fields that any caller may assign, as the setters do, null included. `GetWallets` and `GetWallet` are specified for any field values. `SendMany` requires a non-null sendmany template, since `replace` on null fails.
- Decimals.MinorUnitsTruncates: claims the truncated value only for amounts whose satoshi count fits a `long`. Beyond that range, `ToLong` and `ToLongCongruent` state the wrap-around.
- Decimals.MinorUnitsRoundTrip: stated only for amounts of at most 8 decimal places that fit a `long`. Finer amounts lose digits, as MinorUnitsTruncates states.
- SendManyPayload.BuildRecipients: fixes no iteration order, since a `Map` promises none. Only the set of entries and their distinctness are stated.
