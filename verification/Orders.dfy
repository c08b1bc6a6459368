// The values that travel through the exchange: orders, trade events and the
// command record that every stage of the pipeline reads and rewrites.
module Orders {
  const U64_MAX: nat := 0xFFFF_FFFF_FFFF_FFFF
  const TWO_64: nat := 0x1_0000_0000_0000_0000
  const TWO_128: nat := 0x1_0000_0000_0000_0000_0000_0000_0000_0000

  // Number of price levels per side in a market data snapshot.
  const L2_SIZE: nat := 10

  datatype Option<+T> = None | Some(value: T)

  datatype Side = Ask | Bid {
    function Opposite(): Side {
      match this
      case Ask => Bid
      case Bid => Ask
    }
  }

  datatype TimeInForce = Gtc | Ioc | Fok

  datatype Status =
    | Rejected
    | Placed
    | Cancelled
    | PartiallyFilled
    | Filled
    | Processing
    | Processed

  datatype CommandType = PlaceOrder | CancelOrder | DepositFunds | WithdrawFunds

  datatype Order = Order(
    id: nat,
    user: nat,
    price: nat,
    size: nat,
    originalSize: nat,
    side: Side,
    tif: TimeInForce,
    status: Status,
    timestamp: nat)

  datatype TradeEvent = TradeEvent(
    activeCompleted: bool,
    makerId: nat,
    makerUser: nat,
    makerCompleted: bool,
    price: nat,
    size: nat,
    makerRemaining: nat,
    makerOriginal: nat)

  // Level 2 market data: the best price levels of each side, best first.
  datatype L2Data = L2Data(
    bidPrices: seq<nat>,
    bidVolumes: seq<nat>,
    askPrices: seq<nat>,
    askVolumes: seq<nat>)

  datatype Command = Command(
    kind: CommandType,
    clientOrderId: nat,
    orderId: nat,
    userId: nat,
    marketId: nat,
    price: nat,
    size: nat,
    side: Side,
    tif: TimeInForce,
    timestamp: nat,
    status: Status,
    events: seq<TradeEvent>,
    l2Data: Option<L2Data>,
    routeGatewayId: nat,
    originalSize: nat)

  // The command as journaling stamps it: cancels keep the id of the order they name.
  function Stamped(c: Command, id: nat, now: nat): Command {
    c.(orderId := if c.kind == CancelOrder then c.orderId else id, timestamp := now)
  }

  // What a release build keeps of a result: its low 64 bits.
  function Wrap64(x: int): (r: nat)
    ensures r <= U64_MAX
    ensures 0 <= x <= U64_MAX ==> r == x
  {
    x % TWO_64
  }

  // Numbers a multiple of 2^64 apart wrap to the same word.
  lemma SameWord(x: int, y: int, k: int)
    requires x == y + k * TWO_64
    ensures Wrap64(x) == Wrap64(y)
  {
    var p, q := x / TWO_64, y / TWO_64;
    assert x == TWO_64 * p + x % TWO_64 && y == TWO_64 * q + y % TWO_64;
    assert x % TWO_64 - y % TWO_64 == TWO_64 * (q + k - p);
  }

  // Wrapping early or late makes no difference.
  lemma WrapSum(a: int, b: int)
    ensures Wrap64(Wrap64(a) + b) == Wrap64(a + b)
    ensures Wrap64(Wrap64(a) - b) == Wrap64(a - b)
  {
    assert a == Wrap64(a) + (a / TWO_64) * TWO_64;
    SameWord(a + b, Wrap64(a) + b, a / TWO_64);
    SameWord(a - b, Wrap64(a) - b, a / TWO_64);
  }

  // A number survives exactly when it is a machine word; otherwise it shrinks.
  lemma WrapShrinks(x: nat)
    ensures Wrap64(x) <= x
    ensures Wrap64(x) == x <==> x <= U64_MAX
  {
  }

  function Min(a: nat, b: nat): nat {
    if a <= b then a else b
  }
}
