/** The trade record: a mutable entity with a constructor that fixes its initial
    state and one plain setter per mutable field. No setter checks its argument
    and none constrains how `status` or `feePaid` may change. */
module TradeModel {
  import opened Jvm

  /** Status given to every new trade. */
  const Created: string := "CREATED"

  /** A snapshot of every field of a trade; `feeInvoice` is `None` while the
      Java field is null. */
  datatype TradeState = TradeState(
    id: string,
    sellerId: string,
    buyerId: string,
    amountSats: Long,
    pricePerBitcoin: Double,
    status: string,
    createdAt: LocalDateTime,
    feeInvoice: Option<string>,
    feePaid: bool)

  class Trade {
    /** Assigned by the constructor only: the Java field has no setter. */
    const id: string
    var sellerId: string
    var buyerId: string
    var amountSats: Long
    var pricePerBitcoin: Double
    var status: string
    /** Assigned by the constructor only: the Java field has no setter. */
    const createdAt: LocalDateTime
    var feeInvoice: Option<string>
    var feePaid: bool

    /** All fields at once, so that a setter can say it changes exactly one. */
    ghost function State(): TradeState
      reads this
    {
      TradeState(id, sellerId, buyerId, amountSats, pricePerBitcoin,
                 status, createdAt, feeInvoice, feePaid)
    }

    /** `uuid` is the text of a fresh random UUID and `now` the clock reading:
        both come from the environment. The other arguments are stored as
        given, without validation (an amount of zero or below is accepted). */
    constructor (sellerId: string, buyerId: string, amountSats: Long,
                 pricePerBitcoin: Double, uuid: string, now: LocalDateTime)
      ensures State() == TradeState(uuid, sellerId, buyerId, amountSats, pricePerBitcoin,
                                    Created, now, None, false)
    {
      this.id := uuid;
      this.sellerId := sellerId;
      this.buyerId := buyerId;
      this.amountSats := amountSats;
      this.pricePerBitcoin := pricePerBitcoin;
      this.status := Created;
      this.createdAt := now;
      this.feeInvoice := None;
      this.feePaid := false;
    }

    method GetId() returns (r: string)
      ensures r == id
    {
      r := id;
    }

    method GetSellerId() returns (r: string)
      ensures r == sellerId
    {
      r := sellerId;
    }

    method SetSellerId(sellerId: string)
      modifies this
      ensures State() == old(State()).(sellerId := sellerId)
    {
      this.sellerId := sellerId;
    }

    method GetBuyerId() returns (r: string)
      ensures r == buyerId
    {
      r := buyerId;
    }

    method SetBuyerId(buyerId: string)
      modifies this
      ensures State() == old(State()).(buyerId := buyerId)
    {
      this.buyerId := buyerId;
    }

    method GetAmountSats() returns (r: Long)
      ensures r == amountSats
    {
      r := amountSats;
    }

    method SetAmountSats(amountSats: Long)
      modifies this
      ensures State() == old(State()).(amountSats := amountSats)
    {
      this.amountSats := amountSats;
    }

    method GetPricePerBitcoin() returns (r: Double)
      ensures r == pricePerBitcoin
    {
      r := pricePerBitcoin;
    }

    method SetPricePerBitcoin(pricePerBitcoin: Double)
      modifies this
      ensures State() == old(State()).(pricePerBitcoin := pricePerBitcoin)
    {
      this.pricePerBitcoin := pricePerBitcoin;
    }

    method GetStatus() returns (r: string)
      ensures r == status
    {
      r := status;
    }

    /** Any text is accepted: there is no state machine behind `status`. */
    method SetStatus(status: string)
      modifies this
      ensures State() == old(State()).(status := status)
    {
      this.status := status;
    }

    method GetCreatedAt() returns (r: LocalDateTime)
      ensures r == createdAt
    {
      r := createdAt;
    }

    method GetFeeInvoice() returns (r: Option<string>)
      ensures r == feeInvoice
    {
      r := feeInvoice;
    }

    method SetFeeInvoice(feeInvoice: Option<string>)
      modifies this
      ensures State() == old(State()).(feeInvoice := feeInvoice)
    {
      this.feeInvoice := feeInvoice;
    }

    method IsFeePaid() returns (r: bool)
      ensures r == feePaid
    {
      r := feePaid;
    }

    /** Either value is accepted at any time: a paid fee can be reset to unpaid. */
    method SetFeePaid(feePaid: bool)
      modifies this
      ensures State() == old(State()).(feePaid := feePaid)
    {
      this.feePaid := feePaid;
    }
  }

  /** A client of the setters and getters alone: every getter returns what its
      setter just stored, the identity and creation time survive every setter,
      and a paid fee can be marked unpaid again. */
  method SetThenGet(seller: string, buyer: string, amount: Long, price: Double,
                    uuid: string, now: LocalDateTime, invoice: string, status: string)
    returns (initialInvoice: Option<string>, storedInvoice: Option<string>,
             storedStatus: string, paidAfterPaying: bool, paidAfterReset: bool,
             storedSeller: string, storedBuyer: string, storedAmount: Long,
             storedPrice: Double, id: string, createdAt: LocalDateTime)
    ensures initialInvoice == None
    ensures storedInvoice == Some(invoice) && storedStatus == status
    ensures paidAfterPaying && !paidAfterReset
    ensures storedSeller == buyer && storedBuyer == seller
    ensures storedAmount == 0 && storedPrice == Double(0)
    ensures id == uuid && createdAt == now
  {
    var t := new Trade(seller, buyer, amount, price, uuid, now);
    initialInvoice := t.GetFeeInvoice();
    t.SetFeeInvoice(Some(invoice));
    storedInvoice := t.GetFeeInvoice();
    t.SetStatus(status);
    storedStatus := t.GetStatus();
    t.SetFeePaid(true);
    paidAfterPaying := t.IsFeePaid();
    t.SetFeePaid(false);
    paidAfterReset := t.IsFeePaid();
    t.SetSellerId(buyer);
    storedSeller := t.GetSellerId();
    t.SetBuyerId(seller);
    storedBuyer := t.GetBuyerId();
    t.SetAmountSats(0);
    storedAmount := t.GetAmountSats();
    t.SetPricePerBitcoin(Double(0));
    storedPrice := t.GetPricePerBitcoin();
    id := t.GetId();
    createdAt := t.GetCreatedAt();
  }
}
