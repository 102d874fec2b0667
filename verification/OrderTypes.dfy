/**
 The value types of the matching engine: orders, fills, and the two enumerations that
 steer a submit. A book serves a single market, so the market field is not carried.
 */
module OrderTypes {

  type OrderId = nat
  type Address = nat

  datatype Option<+T> = None | Some(value: T)

  datatype Side = Buy | Sell {
    function Opposite(): Side {
      match this
      case Buy => Sell
      case Sell => Buy
    }
  }

  datatype OrderType = Market | Limit

  datatype TimeInForce = Gtc | Ioc | Fok

  datatype SelfTradeMode = CancelNewest | CancelBoth | Allow

  datatype Order = Order(
    id: OrderId,
    owner: Address,
    side: Side,
    orderType: OrderType,
    price: real,
    qty: real,
    remaining: real,
    tif: TimeInForce,
    postOnly: bool,
    reduceOnly: bool,
    ts: nat)
  {
    /** True if this order, as a taker, would trade against a maker at `makerPrice`. */
    predicate Crosses(makerPrice: real) {
      match (side, orderType)
      case (Buy, Market) => true
      case (Sell, Market) => true
      case (Buy, Limit) => price >= makerPrice
      case (Sell, Limit) => price <= makerPrice
    }
  }

  datatype Fill = Fill(
    id: nat,
    makerOrderId: OrderId,
    takerOrderId: OrderId,
    makerUser: Address,
    takerUser: Address,
    price: real,
    qty: real,
    takerSide: Side,
    ts: nat)

  datatype SubmitError =
    | PostOnlyWouldCross
    | FokUnfillable
    | ReduceOnlyWouldIncrease
    | SelfTradeRejected
    | ZeroQty
    | ZeroPrice
    | MarketNoLiquidity

  datatype Outcome = Outcome(fills: seq<Fill>, resting: Option<OrderId>, remaining: real)

  datatype SubmitResult = Ok(outcome: Outcome) | Err(error: SubmitError)

  function Min(x: real, y: real): real {
    if x <= y then x else y
  }
}
