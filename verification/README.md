# Bisq Lightning fee proof of concept — a Dafny model

This project models the core of a proof of concept in which a peer-to-peer
Bitcoin trade pays a 1% marketplace fee through a Lightning Network node
(LND). The core consists of two classes:

- `LightningNetworkService`, in `service.dfy` (module `Service`). It holds
  the `connected` flag and the node client. It models:
  - the credential lookup in the set-up of the connection;
  - the 1% fee rule, with HALF_UP rounding;
  - the guarded node operations: fee invoice, payment, node info and wallet
    balance;
  - the hex encoder that turns a payment hash into text.
- `Trade`, in `trade.dfy` (module `TradeModel`). It is a mutable record with
  a constructor and one plain getter and setter per field.

`jvm.dfy` (module `Jvm`) holds the Java value types as the model uses them:
- `Long` and `Byte` are 64-bit and 8-bit signed integers.
- A `double` and a `LocalDateTime` are kept as opaque values.
- A nullable reference is an `Option`.
- A thrown exception is a `Result` failure. `StatusException` is told apart
  from every other exception because the service catches it by type.

The node is not modelled. Every node call is an input of the method that
makes it: a `Result` that either holds the node's response or the exception
the call threw. A ghost log `calls` records which node calls a method issues,
in order. This makes "no node call when disconnected" a proved postcondition:
`calls == old(calls)`. The environment is also given as inputs:
- the JVM system properties, as a map;
- the set of paths for which `Files.exists` holds;
- the outcome of constructing the node client;
- the UUID text and the clock reading for a new trade.

Some decisions about how the Java is read:
- `calculateFee` multiplies by `BigDecimal("0.01")` and rounds with
  `HALF_UP` at scale 0. `RoundsHalfUp` states that rounding on its own
  terms: the nearest integer to `a/100`, with a tie going to the neighbour
  farther from zero. `CalculateFee` is proved to give the one integer that
  satisfies it. The result always fits in a `long`, so `longValue()` never
  truncates; this is proved by the `Long` result type.
- In `setupLndConnection`, `info.getChains().get(0)` throws on an empty chain
  list. The model keeps this case: set-up then leaves the service
  disconnected, and `getNodeInfo` returns `"Error: "` followed by that
  exception's message. The message comes from the node client's list class,
  not from this repository, so `GetNodeInfo` takes that exception as an input.
- The node client is stored before the handshake `getInfo` runs. A failed
  handshake therefore leaves `lndApi` set while `connected` is false.
- An exception message is a string. A null message, which Java prints as
  `null`, is represented by the text `"null"`. An unset `user.home` is
  handled the same way.
- The code has no `FEE_INVOICED` status, no false→true rule for the fee-paid
  flag and no positivity check on the amount, and the model adds none:
  - `Trade` starts as `CREATED` and accepts any status.
  - `setFeePaid(false)` after `true` is allowed.
  - Any `long` amount is stored.

## Model

| member | source | states |
|---|---|---|
| `Service.CalculateFee` | src/main/java/network/bisq/blnfeepoc/service/LightningNetworkService.java:162-166 | the fee is the unique integer that rounds `amount/100` HALF_UP (nearest, ties away from zero), it fits in a `long`, and for amounts >= 0 it is >= 0 with `|100*fee - amount| <= 50` |
| `Service.FeeMonotone` | src/main/java/network/bisq/blnfeepoc/service/LightningNetworkService.java:162-166 | a larger trade amount never gives a smaller fee |
| `Service.FeeNegation` | src/main/java/network/bisq/blnfeepoc/service/LightningNetworkService.java:162-166 | a negative amount gets the negated fee of its absolute value (it rounds away from zero) |
| `Service.FeeExamples` | src/main/java/network/bisq/blnfeepoc/service/LightningNetworkService.java:162-166 | 1250→13, 100→1, 149→1, 150→2, 10000→100, 0→0, −150→−2, −149→−1 |
| `Service.Unsigned` | src/main/java/network/bisq/blnfeepoc/service/LightningNetworkService.java:241 | `%x` formats a signed byte as its unsigned value: below 256 and equal to the byte, or to the byte plus 256 |
| `Service.ByteHex` | src/main/java/network/bisq/blnfeepoc/service/LightningNetworkService.java:241 | `%02x` gives exactly two lower-case hex digits that read back, high digit first, as the byte's unsigned value |
| `Service.HexStringLength` | src/main/java/network/bisq/blnfeepoc/service/LightningNetworkService.java:238-244 | the encoding is twice as long as the byte array |
| `Service.HexStringAt` | src/main/java/network/bisq/blnfeepoc/service/LightningNetworkService.java:238-244 | byte `i` is encoded at characters `2i` and `2i+1` |
| `Service.HexStringDigits` | src/main/java/network/bisq/blnfeepoc/service/LightningNetworkService.java:238-244 | every character of the encoding is a lower-case hex digit |
| `Service.DecodeHexString` | src/main/java/network/bisq/blnfeepoc/service/LightningNetworkService.java:238-244 | decoding the encoding two digits at a time gives back every byte's unsigned value |
| `Service.HexStringInjective` | src/main/java/network/bisq/blnfeepoc/service/LightningNetworkService.java:238-244 | two byte arrays with the same encoding are equal |
| `Service.LightningNetworkService.BytesToHex` | src/main/java/network/bisq/blnfeepoc/service/LightningNetworkService.java:238-244 | the appending loop produces the encoding of the whole array: twice its length, byte `i` at `2i..2i+2`, only lower-case hex digits, and it decodes back to the unsigned byte values |
| `Service.SelectCredentials` | src/main/java/network/bisq/blnfeepoc/service/LightningNetworkService.java:71-88 | credentials are found exactly when `tls.cert` exists and the testnet or the regtest macaroon exists; the testnet macaroon is chosen whenever it exists, otherwise the regtest one |
| `Service.LightningNetworkService.constructor` | src/main/java/network/bisq/blnfeepoc/service/LightningNetworkService.java:46-56 | the new service is connected exactly when credentials were found under `lnd.directory` (default `user.home + "/.lnd"`), the client was built and the handshake `getInfo` returned at least one chain; `getInfo` is the only node call and is made only when the client was built |
| `Service.LightningNetworkService.SetupLndConnection` | src/main/java/network/bisq/blnfeepoc/service/LightningNetworkService.java:63-105 | missing credentials change nothing; if building the client throws, the client stays as it was, no `getInfo` is issued and the service is disconnected; otherwise the client is set to `localhost:10009` with the chosen files, one `getInfo` is issued, and `connected` becomes true exactly when it returned a node info with a chain; the invariant connected ⇒ client present is kept |
| `Service.LightningNetworkService.IsConnected` | src/main/java/network/bisq/blnfeepoc/service/LightningNetworkService.java:112-114 | returns the connection flag and changes nothing |
| `Service.LightningNetworkService.GetNodeInfo` | src/main/java/network/bisq/blnfeepoc/service/LightningNetworkService.java:121-134 | `"Not connected"` with no node call when disconnected; otherwise one `getInfo`, giving `"Node: <alias>, Version: <version>, Network: <network>"` or `"Error: "` followed by the message of the exception thrown by the call or, for an empty chain list, by reading its first element |
| `Service.LightningNetworkService.CalculateAndCreateFeeInvoice` | src/main/java/network/bisq/blnfeepoc/service/LightningNetworkService.java:143-154 | disconnected: throws "Not connected to LND Node" and makes no node call; connected: exactly one `addInvoice` whose value is `CalculateFee(tradeAmount)` and whose memo is the fixed fee memo, and the node's payment request is returned unchanged |
| `Service.LightningNetworkService.CreateLightningInvoice` | src/main/java/network/bisq/blnfeepoc/service/LightningNetworkService.java:175-191 | one `addInvoice` with the given amount and fee memo; a node `StatusException` is rethrown as "Lightning network error: " followed by its message; any other exception passes through unchanged |
| `Service.LightningNetworkService.PayLightningInvoice` | src/main/java/network/bisq/blnfeepoc/service/LightningNetworkService.java:199-230 | no node call when disconnected; otherwise decode then, only if decoding returned, send the same payment request; the result is true exactly when connected, both calls returned and the payment error is null or empty |
| `Service.LightningNetworkService.GetWalletBalance` | src/main/java/network/bisq/blnfeepoc/service/LightningNetworkService.java:251-261 | 0 with no node call when disconnected; otherwise one `walletBalance` call, giving −1 if it threw, else the node's total balance |
| `TradeModel.Trade.constructor` | src/main/java/network/bisq/blnfeepoc/model/Trade.java:47-56 | a new trade has the given UUID, parties, amount and price stored without validation, status `"CREATED"`, the given creation time, no fee invoice and fee not paid |
| `TradeModel.Trade.GetId` | src/main/java/network/bisq/blnfeepoc/model/Trade.java:63-65 | returns the trade's id, which is a `const` set only by the constructor |
| `TradeModel.Trade.GetSellerId` | src/main/java/network/bisq/blnfeepoc/model/Trade.java:72-74 | returns the seller id |
| `TradeModel.Trade.SetSellerId` | src/main/java/network/bisq/blnfeepoc/model/Trade.java:81-83 | writes the seller id and leaves every other field, id and creation time included, unchanged |
| `TradeModel.Trade.GetBuyerId` | src/main/java/network/bisq/blnfeepoc/model/Trade.java:90-92 | returns the buyer id |
| `TradeModel.Trade.SetBuyerId` | src/main/java/network/bisq/blnfeepoc/model/Trade.java:99-101 | writes the buyer id and nothing else |
| `TradeModel.Trade.GetAmountSats` | src/main/java/network/bisq/blnfeepoc/model/Trade.java:108-110 | returns the amount |
| `TradeModel.Trade.SetAmountSats` | src/main/java/network/bisq/blnfeepoc/model/Trade.java:117-119 | writes any `long` amount, with no positivity check, and nothing else |
| `TradeModel.Trade.GetPricePerBitcoin` | src/main/java/network/bisq/blnfeepoc/model/Trade.java:126-128 | returns the stored price |
| `TradeModel.Trade.SetPricePerBitcoin` | src/main/java/network/bisq/blnfeepoc/model/Trade.java:135-137 | writes the price and nothing else |
| `TradeModel.Trade.GetStatus` | src/main/java/network/bisq/blnfeepoc/model/Trade.java:144-146 | returns the status |
| `TradeModel.Trade.SetStatus` | src/main/java/network/bisq/blnfeepoc/model/Trade.java:153-155 | writes any status text, with no transition rule, and nothing else |
| `TradeModel.Trade.GetCreatedAt` | src/main/java/network/bisq/blnfeepoc/model/Trade.java:162-164 | returns the creation time, a `const` set only by the constructor |
| `TradeModel.Trade.GetFeeInvoice` | src/main/java/network/bisq/blnfeepoc/model/Trade.java:171-173 | returns the fee invoice, absent while unset |
| `TradeModel.Trade.SetFeeInvoice` | src/main/java/network/bisq/blnfeepoc/model/Trade.java:180-182 | writes the fee invoice and nothing else |
| `TradeModel.Trade.IsFeePaid` | src/main/java/network/bisq/blnfeepoc/model/Trade.java:189-191 | returns the fee-paid flag |
| `TradeModel.Trade.SetFeePaid` | src/main/java/network/bisq/blnfeepoc/model/Trade.java:198-200 | writes either value at any time, and nothing else |
| `TradeModel.SetThenGet` | src/main/java/network/bisq/blnfeepoc/model/Trade.java:47-200 | through the class's own methods: a new trade has no invoice; each of the seven getters with a setter (seller, buyer, amount, price, status, fee invoice, fee paid) returns what its setter just stored; after every setter has run, id and creation time are still the constructor's; a paid fee can be set back to unpaid |

## Left out

- `MainController.java` is not part of this model. It is the JavaFX screen: it
  parses the form fields, sets labels and enables buttons, and only calls the
  `Trade` setters and the service methods modelled here.
- `MainApp.java` and `module-info.java` are not part of this model. They start
  the application and declare the module; they hold no logic.
- Logging through slf4j is left out, because it has no observable effect. This
  includes the decoded invoice's amount and destination and the payment hash in
  `payLightningInvoice`, which are only logged. `BytesToHex` is modelled on its
  own; `PayLightningInvoice` does not compute the hash text, because nothing
  reads it.
- The internals of the lightningj client are left out, because that code is
  not part of this repository. This covers TLS, macaroon handling and the gRPC
  transport. Constructing the client is one success-or-failure input. Each RPC
  is one `Result` input. The endpoint `localhost:10009` is recorded, not used.
- `Path.of` normalisation and the `InvalidPathException` it may throw are left
  out. A path exists exactly when its string is in the `existing` set.
- The `cause` attached to a rethrown exception is left out. Only its message
  and its kind are kept, because nothing in the core reads the cause.
- Null strings are left out: aliases, versions, ids and payment requests are
  never null in the model. A null payment error is kept (`Option`), because the
  code tests it.
- `pricePerBitcoin` is a Java `double`. It is only stored and copied, so it is
  kept as its IEEE bits with no arithmetic.
- The uniqueness of trade ids is not modelled. The id is the text of a random
  UUID given as an input, and uniqueness cannot follow from the code.
- The model is sequential. The Java class has no synchronisation, and
  concurrent use is outside the code's own promises.
