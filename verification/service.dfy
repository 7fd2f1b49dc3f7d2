/** The fee and payment service: the 1% fee rule, the connection set-up against
    a local LND node, the guarded node operations and the hex encoder used for
    payment hashes. Every call into the node client (getInfo, addInvoice,
    decodePayReq, sendPaymentSync, walletBalance) and every reading of the
    environment (system properties, existing files) is an input of the model;
    a ghost log records which node calls were issued, in order. */
module Service {
  import opened Jvm

  // ---------------------------------------------------------------------------
  // The fee rule
  // ---------------------------------------------------------------------------

  /** `q` is `a / 100` rounded to the nearest integer, and on a tie to the
      neighbour farther from zero: BigDecimal's HALF_UP rounding of the exact
      product `a * 0.01` to scale 0. `a - 100 * q` is a hundred times the
      distance between the exact quotient and `q`. */
  ghost predicate RoundsHalfUp(a: Long, q: int) {
    var d := a as int - 100 * q;
    -50 <= d <= 50 && (d == 50 ==> a < 0) && (d == -50 ==> a > 0)
  }

  /** The marketplace fee: 1% of the trade amount, rounded HALF_UP to whole
      satoshis. The rounded value always fits in a `long`, so the final
      `longValue()` never truncates. */
  function CalculateFee(tradeAmount: Long): (fee: Long)
    ensures forall q :: RoundsHalfUp(tradeAmount, q) <==> q == fee as int
    ensures tradeAmount >= 0 ==> 0 <= fee && -50 <= 100 * (fee as int) - tradeAmount as int <= 50
  {
    var a := tradeAmount as int;
    (if a >= 0 then (a + 50) / 100 else -((50 - a) / 100)) as Long
  }

  /** A larger trade never pays a smaller fee. */
  lemma FeeMonotone(a: Long, b: Long)
    requires a <= b
    ensures CalculateFee(a) <= CalculateFee(b)
  {
  }

  /** Negative amounts round away from zero, mirroring positive ones. */
  lemma FeeNegation(a: Long)
    requires a > -0x8000_0000_0000_0000
    ensures CalculateFee(-a) == -CalculateFee(a)
  {
    var f := CalculateFee(a) as int;
    assert RoundsHalfUp(a, f);
    assert RoundsHalfUp(-a, -f);
  }

  /** The worked examples of the fee rule. */
  lemma FeeExamples()
    ensures CalculateFee(1250) == 13 && CalculateFee(100) == 1
    ensures CalculateFee(149) == 1 && CalculateFee(150) == 2
    ensures CalculateFee(10000) == 100 && CalculateFee(0) == 0
    ensures CalculateFee(-150) == -2 && CalculateFee(-149) == -1
  {
  }

  // ---------------------------------------------------------------------------
  // Hex encoding of byte arrays (`String.format("%02x", b)` per byte)
  // ---------------------------------------------------------------------------

  /** The unsigned value of a Java byte, as `%x` formats it. */
  function Unsigned(b: Byte): (u: nat)
    ensures u < 256 && (u == b as int || u == b as int + 256)
  {
    if b < 0 then b as int + 256 else b as int
  }

  /** The characters `%x` prints: decimal digits and lower-case `a` to `f`. */
  predicate IsHexDigit(c: char) {
    '0' <= c <= '9' || 'a' <= c <= 'f'
  }

  /** The value of a lower-case hex digit; -1 for any other character. */
  function DigitValue(c: char): int {
    if '0' <= c <= '9' then c as int - '0' as int
    else if 'a' <= c <= 'f' then c as int - 'a' as int + 10
    else -1
  }

  /** The lower-case hex digit for a value below 16. */
  function HexDigit(k: nat): (c: char)
    requires k < 16
    ensures IsHexDigit(c) && DigitValue(c) == k
  {
    if k < 10 then ('0' as int + k) as char else ('a' as int + k - 10) as char
  }

  /** One byte as `%02x` prints it: two lower-case hex digits, high nibble first,
      zero-padded, that read back as the byte's unsigned value. */
  function ByteHex(b: Byte): (s: string)
    ensures |s| == 2 && IsHexDigit(s[0]) && IsHexDigit(s[1])
    ensures 16 * DigitValue(s[0]) + DigitValue(s[1]) == Unsigned(b)
  {
    var u := Unsigned(b);
    [HexDigit(u / 16), HexDigit(u % 16)]
  }

  /** The bytes' encodings, concatenated in order. */
  function HexString(bytes: seq<Byte>): string {
    if bytes == [] then "" else HexString(bytes[..|bytes| - 1]) + ByteHex(bytes[|bytes| - 1])
  }

  /** Reads a hex string back, two digits per value, pairing characters from
      the end; the independent partner of `HexString`. On an odd length the
      leading digit is left over and ignored. */
  function DecodeHex(s: string): seq<int> {
    if |s| < 2 then []
    else DecodeHex(s[..|s| - 2]) + [16 * DigitValue(s[|s| - 2]) + DigitValue(s[|s| - 1])]
  }

  function UnsignedValues(bytes: seq<Byte>): (us: seq<int>)
    ensures |us| == |bytes| && forall i :: 0 <= i < |bytes| ==> us[i] == Unsigned(bytes[i])
  {
    seq(|bytes|, i requires 0 <= i < |bytes| => Unsigned(bytes[i]))
  }

  lemma {:induction false} HexStringLength(bytes: seq<Byte>)
    ensures |HexString(bytes)| == 2 * |bytes|
  {
    if bytes != [] {
      HexStringLength(bytes[..|bytes| - 1]);
    }
  }

  lemma SliceOfConcat(s: string, t: string, k: nat)
    requires k + 2 <= |s|
    ensures (s + t)[k..k + 2] == s[k..k + 2]
  {
  }

  /** Byte `i` is encoded at characters `2i` and `2i+1`. */
  lemma {:induction false} HexStringAt(bytes: seq<Byte>, i: nat)
    requires i < |bytes|
    ensures |HexString(bytes)| == 2 * |bytes|
    ensures HexString(bytes)[2 * i..2 * i + 2] == ByteHex(bytes[i])
  {
    var init, last := bytes[..|bytes| - 1], bytes[|bytes| - 1];
    var hi, tail := HexString(init), ByteHex(last);
    HexStringLength(init);
    if i < |init| {
      HexStringAt(init, i);
      SliceOfConcat(hi, tail, 2 * i);
    } else {
      assert (hi + tail)[2 * i..2 * i + 2] == tail;
    }
  }

  /** Every character of the encoding is a lower-case hex digit. */
  lemma HexStringDigits(bytes: seq<Byte>, j: nat)
    requires j < |HexString(bytes)|
    ensures IsHexDigit(HexString(bytes)[j])
  {
    HexStringLength(bytes);
    var i := j / 2;
    HexStringAt(bytes, i);
    assert HexString(bytes)[j] == HexString(bytes)[2 * i..2 * i + 2][j - 2 * i];
  }

  lemma UnsignedValuesLast(bytes: seq<Byte>)
    requires bytes != []
    ensures UnsignedValues(bytes) == UnsignedValues(bytes[..|bytes| - 1]) + [Unsigned(bytes[|bytes| - 1])]
  {
    var us, ui := UnsignedValues(bytes), UnsignedValues(bytes[..|bytes| - 1]);
    assert forall i :: 0 <= i < |ui| ==> us[i] == ui[i];
  }

  /** Decoding a string extended by two characters adds one value at the end. */
  lemma DecodeHexAppend(s: string, t: string)
    requires |t| == 2
    ensures DecodeHex(s + t) == DecodeHex(s) + [16 * DigitValue(t[0]) + DigitValue(t[1])]
  {
    var st := s + t;
    assert st[..|st| - 2] == s;
    assert st[|st| - 2] == t[0] && st[|st| - 1] == t[1];
  }

  /** Reading the encoding back gives every byte's unsigned value: the
      encoding loses nothing. */
  lemma {:induction false} DecodeHexString(bytes: seq<Byte>)
    ensures DecodeHex(HexString(bytes)) == UnsignedValues(bytes)
  {
    if bytes != [] {
      var init, last := bytes[..|bytes| - 1], bytes[|bytes| - 1];
      DecodeHexAppend(HexString(init), ByteHex(last));
      DecodeHexString(init);
      UnsignedValuesLast(bytes);
    }
  }

  /** Two byte strings with the same encoding hold the same unsigned values. */
  lemma HexStringInjective(xs: seq<Byte>, ys: seq<Byte>)
    requires HexString(xs) == HexString(ys)
    ensures xs == ys
  {
    DecodeHexString(xs);
    DecodeHexString(ys);
    assert |xs| == |ys|;
    forall i | 0 <= i < |xs|
      ensures xs[i] == ys[i]
    {
      assert UnsignedValues(xs)[i] == UnsignedValues(ys)[i];
    }
  }

  // ---------------------------------------------------------------------------
  // The node client's messages, as far as the service reads or writes them
  // ---------------------------------------------------------------------------

  datatype Chain = Chain(chain: string, network: string)
  datatype GetInfoResponse = GetInfoResponse(alias: string, version: string, chains: seq<Chain>)
  datatype Invoice = Invoice(value: Long, memo: string)
  datatype AddInvoiceResponse = AddInvoiceResponse(paymentRequest: string)
  datatype PayReq = PayReq(numSatoshis: Long, destination: string)
  datatype SendRequest = SendRequest(paymentRequest: string)
  /** `paymentError` is `None` when the field is null. */
  datatype SendResponse = SendResponse(paymentError: Option<string>, paymentHash: seq<Byte>)
  datatype WalletBalanceResponse = WalletBalanceResponse(totalBalance: Long)

  /** One remote procedure call issued to the node. */
  datatype NodeCall =
    | GetInfo
    | AddInvoice(invoice: Invoice)
    | DecodePayReq(payReq: string)
    | SendPaymentSync(request: SendRequest)
    | WalletBalance

  /** The node client as constructed: where it connects and with which files. */
  datatype LndEndpoint = LndEndpoint(host: string, port: int, tlsCertPath: string, macaroonPath: string)

  /** The credential files chosen for the connection. */
  datatype Credentials = Credentials(tlsCertPath: string, macaroonPath: string)

  const LndDirProperty: string := "lnd.directory"
  const UserHomeProperty: string := "user.home"
  const LndHost: string := "localhost"
  const LndPort: int := 10009
  const FeeMemo: string := "BISQ Trading Platform Fee - 1%"
  const NotConnectedMessage: string := "Not connected to LND Node"
  const NodeErrorPrefix: string := "Lightning network error: "
  const NotConnected: string := "Not connected"
  const ErrorPrefix: string := "Error: "

  /** The `lnd.directory` system property if set, else the user's home
      directory followed by `/.lnd` (Java prints an unset home as "null"). */
  function LndDirectory(properties: map<string, string>): string {
    if LndDirProperty in properties then properties[LndDirProperty]
    else (if UserHomeProperty in properties then properties[UserHomeProperty] else "null") + "/.lnd"
  }

  function TlsCertPath(lndDir: string): string {
    lndDir + "/tls.cert"
  }

  function MacaroonPath(lndDir: string, network: string): string {
    lndDir + "/data/chain/bitcoin/" + network + "/admin.macaroon"
  }

  /** Chooses the credential files under `lndDir`, given the set of paths that
      exist: the TLS certificate is required, the testnet macaroon is preferred
      and the regtest macaroon is the fallback. */
  function SelectCredentials(lndDir: string, existing: set<string>): (c: Option<Credentials>)
    ensures c.Some? <==> TlsCertPath(lndDir) in existing &&
                         (MacaroonPath(lndDir, "testnet") in existing || MacaroonPath(lndDir, "regtest") in existing)
    ensures c.Some? ==> c.value.tlsCertPath == TlsCertPath(lndDir) && c.value.macaroonPath in existing
    ensures c.Some? ==> c.value.macaroonPath in {MacaroonPath(lndDir, "testnet"), MacaroonPath(lndDir, "regtest")}
    ensures c.Some? && MacaroonPath(lndDir, "testnet") in existing ==>
              c.value.macaroonPath == MacaroonPath(lndDir, "testnet")
  {
    var tls, testnet, regtest := TlsCertPath(lndDir), MacaroonPath(lndDir, "testnet"), MacaroonPath(lndDir, "regtest");
    if tls !in existing then None
    else if testnet in existing then Some(Credentials(tls, testnet))
    else if regtest in existing then Some(Credentials(tls, regtest))
    else None
  }

  /** The summary line of a node whose info lists at least one chain. */
  function NodeSummary(info: GetInfoResponse): string
    requires |info.chains| > 0
  {
    "Node: " + info.alias + ", Version: " + info.version + ", Network: " + info.chains[0].network
  }

  /** A payment error is reported when the field is present and not empty. */
  predicate HasPaymentError(response: SendResponse) {
    response.paymentError.Some? && response.paymentError.value != ""
  }

  // ---------------------------------------------------------------------------
  // The service
  // ---------------------------------------------------------------------------

  class LightningNetworkService {
    /** The node client; `None` while the Java field is null. */
    var lndApi: Option<LndEndpoint>
    var connected: bool
    /** Every node call issued so far, in order. */
    ghost var calls: seq<NodeCall>

    /** A connected service always has a node client to call. */
    ghost predicate Valid()
      reads this
    {
      connected ==> lndApi.Some?
    }

    /** Builds the service and sets up the connection at once. `properties`
        are the JVM system properties, `existing` the paths for which
        `Files.exists` holds, `open` the outcome of constructing the node
        client and `handshake` the outcome of its first `getInfo`. */
    constructor (properties: map<string, string>, existing: set<string>,
                 open: Result<()>, handshake: Result<GetInfoResponse>)
      ensures Valid()
      ensures var creds := SelectCredentials(LndDirectory(properties), existing);
              && (connected <==> creds.Some? && open.Success? && handshake.Success? &&
                                 |handshake.value.chains| > 0)
              && calls == (if creds.Some? && open.Success? then [GetInfo] else [])
    {
      lndApi := None;
      connected := false;
      calls := [];
      new;
      SetupLndConnection(properties, existing, open, handshake);
    }

    /** Locates the credentials, constructs the node client and tests it with
        one `getInfo`. Nothing changes when the credentials are missing; the
        service is connected exactly when the test call returned a node info
        with at least one chain. The client stays assigned even when the test
        call fails. */
    method SetupLndConnection(properties: map<string, string>, existing: set<string>,
                              open: Result<()>, handshake: Result<GetInfoResponse>)
      requires Valid()
      modifies this
      ensures Valid()
      ensures match SelectCredentials(LndDirectory(properties), existing)
              case None =>
                connected == old(connected) && lndApi == old(lndApi) && calls == old(calls)
              case Some(creds) =>
                && lndApi == (if open.Success? then Some(LndEndpoint(LndHost, LndPort, creds.tlsCertPath, creds.macaroonPath))
                              else old(lndApi))
                && calls == old(calls) + (if open.Success? then [GetInfo] else [])
                && (connected <==> open.Success? && handshake.Success? && |handshake.value.chains| > 0)
    {
      var lndDir := LndDirectory(properties);
      var tlsCertPath := TlsCertPath(lndDir);
      var macaroonPath := MacaroonPath(lndDir, "testnet");
      if tlsCertPath !in existing {
        return;
      }
      if macaroonPath !in existing {
        macaroonPath := MacaroonPath(lndDir, "regtest");
        if macaroonPath !in existing {
          return;
        }
      }
      if open.Failure? {
        connected := false;
        return;
      }
      lndApi := Some(LndEndpoint(LndHost, LndPort, tlsCertPath, macaroonPath));
      calls := calls + [GetInfo];
      if handshake.Failure? || |handshake.value.chains| == 0 {
        connected := false;
        return;
      }
      connected := true;
    }

    /** The connection flag, read without any node call. */
    method IsConnected() returns (c: bool)
      ensures c == connected
    {
      c := connected;
    }

    /** `"Not connected"` without a node call when disconnected; otherwise one
        `getInfo`, giving the node summary, or `"Error: "` and the message of
        whatever the call threw. `emptyChains` is the exception the node
        client's chain list throws when its first element is read while it is
        empty; its text is fixed by that library, not by the service. */
    method GetNodeInfo(info: Result<GetInfoResponse>, emptyChains: Exception) returns (s: string)
      requires Valid()
      modifies this`calls
      ensures !connected ==> s == NotConnected && calls == old(calls)
      ensures connected ==> calls == old(calls) + [GetInfo]
      ensures connected && info.Success? && |info.value.chains| > 0 ==> s == NodeSummary(info.value)
      ensures connected && info.Success? && |info.value.chains| == 0 ==> s == ErrorPrefix + emptyChains.message
      ensures connected && info.Failure? ==> s == ErrorPrefix + info.error.message
    {
      if !connected {
        return NotConnected;
      }
      calls := calls + [GetInfo];
      match info
      case Failure(e) =>
        s := ErrorPrefix + e.message;
      case Success(i) =>
        if |i.chains| == 0 {
          s := ErrorPrefix + emptyChains.message;
        } else {
          s := NodeSummary(i);
        }
    }

    /** Refuses with "Not connected to LND Node" before computing anything when
        disconnected; otherwise asks the node for an invoice of exactly the fee
        with the fixed memo and returns its payment request unchanged. */
    method CalculateAndCreateFeeInvoice(tradeAmount: Long, added: Result<AddInvoiceResponse>)
      returns (r: Result<string>)
      requires Valid()
      modifies this`calls
      ensures !connected ==> r == Failure(Exception(NotConnectedMessage)) && calls == old(calls)
      ensures connected ==> calls == old(calls) + [AddInvoice(Invoice(CalculateFee(tradeAmount), FeeMemo))]
      ensures connected && added.Success? ==> r == Success(added.value.paymentRequest)
      ensures connected && added.Failure? && added.error.StatusException? ==>
                r == Failure(Exception(NodeErrorPrefix + added.error.message))
      ensures connected && added.Failure? && added.error.Exception? ==> r == Failure(added.error)
    {
      if !connected {
        return Failure(Exception(NotConnectedMessage));
      }
      var feeAmount := CalculateFee(tradeAmount);
      r := CreateLightningInvoice(feeAmount, added);
    }

    /** One `addInvoice` for `amountSats` with the fee memo. A status error of
        the node is rethrown with "Lightning network error: " in front of its
        message; any other exception passes through as it is. */
    method CreateLightningInvoice(amountSats: Long, added: Result<AddInvoiceResponse>)
      returns (r: Result<string>)
      requires lndApi.Some?
      modifies this`calls
      ensures calls == old(calls) + [AddInvoice(Invoice(amountSats, FeeMemo))]
      ensures added.Success? ==> r == Success(added.value.paymentRequest)
      ensures added.Failure? && added.error.StatusException? ==>
                r == Failure(Exception(NodeErrorPrefix + added.error.message))
      ensures added.Failure? && added.error.Exception? ==> r == Failure(added.error)
    {
      var invoice := Invoice(amountSats, FeeMemo);
      calls := calls + [AddInvoice(invoice)];
      match added
      case Success(response) =>
        r := Success(response.paymentRequest);
      case Failure(StatusException(message)) =>
        r := Failure(Exception(NodeErrorPrefix + message));
      case Failure(e) =>
        r := Failure(e);
    }

    /** False without a node call when disconnected. Otherwise the request is
        decoded and, if that succeeds, sent; the payment counts as made exactly
        when both calls returned and the response carries no payment error. */
    method PayLightningInvoice(paymentRequest: string, decoded: Result<PayReq>,
                               sent: Result<SendResponse>) returns (ok: bool)
      requires Valid()
      modifies this`calls
      ensures !connected ==> calls == old(calls)
      ensures connected ==> calls == old(calls) + [DecodePayReq(paymentRequest)] +
                                     (if decoded.Success? then [SendPaymentSync(SendRequest(paymentRequest))] else [])
      ensures ok <==> connected && decoded.Success? && sent.Success? && !HasPaymentError(sent.value)
    {
      if !connected {
        return false;
      }
      calls := calls + [DecodePayReq(paymentRequest)];
      if decoded.Failure? {
        return false;
      }
      var request := SendRequest(paymentRequest);
      calls := calls + [SendPaymentSync(request)];
      match sent
      case Failure(_) =>
        ok := false;
      case Success(response) =>
        if response.paymentError.Some? && response.paymentError.value != "" {
          ok := false;
        } else {
          ok := true;
        }
    }

    /** Each byte as two lower-case hex digits, in order. */
    static method BytesToHex(bytes: array<Byte>) returns (hex: string)
      ensures hex == HexString(bytes[..])
      ensures |hex| == 2 * bytes.Length
      ensures forall i :: 0 <= i < bytes.Length ==> hex[2 * i..2 * i + 2] == ByteHex(bytes[i])
      ensures forall j :: 0 <= j < |hex| ==> IsHexDigit(hex[j])
      ensures DecodeHex(hex) == UnsignedValues(bytes[..])
    {
      var sb := "";
      for i := 0 to bytes.Length
        invariant sb == HexString(bytes[..i])
      {
        assert bytes[..i + 1][..i] == bytes[..i];
        sb := sb + ByteHex(bytes[i]);
      }
      assert bytes[..bytes.Length] == bytes[..];
      hex := sb;
      HexStringLength(bytes[..]);
      forall i | 0 <= i < bytes.Length
        ensures hex[2 * i..2 * i + 2] == ByteHex(bytes[i])
      {
        HexStringAt(bytes[..], i);
      }
      forall j | 0 <= j < |hex|
        ensures IsHexDigit(hex[j])
      {
        HexStringDigits(bytes[..], j);
      }
      DecodeHexString(bytes[..]);
    }

    /** 0 without a node call when disconnected, -1 when the balance query
        throws, otherwise the node's total balance. */
    method GetWalletBalance(balance: Result<WalletBalanceResponse>) returns (b: Long)
      requires Valid()
      modifies this`calls
      ensures !connected ==> b == 0 && calls == old(calls)
      ensures connected ==> calls == old(calls) + [WalletBalance]
      ensures connected && balance.Success? ==> b == balance.value.totalBalance
      ensures connected && balance.Failure? ==> b == -1
    {
      if !connected {
        return 0;
      }
      calls := calls + [WalletBalance];
      match balance
      case Failure(_) =>
        b := -1;
      case Success(response) =>
        b := response.totalBalance;
    }
  }
}
