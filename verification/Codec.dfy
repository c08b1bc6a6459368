// The journal codec: an 8-byte message header and a 56-byte block of fixed
// fields, little endian, without padding, after FIX Simple Binary Encoding 1.0
// (sections 2 and 3).
module Codec {
  import Arithmetic
  import opened Orders

  type Byte = x: nat | x < 256

  const MESSAGE_LENGTH: nat := 64
  const HEADER_LENGTH: nat := 8
  const BLOCK_LENGTH: nat := 64
  const TEMPLATE_ID: nat := 1
  const SCHEMA_ID: nat := 1
  const SCHEMA_VERSION: nat := 1

  datatype DecodeError = BadCommand | BadSide | BadTimeInForce | BadStatus

  datatype Decoded = Ok(cmd: Command) | Err(error: DecodeError)

  // --- Little-endian numbers -----------------------------------------------------------

  function ToLe(n: nat, value: nat): (bytes: seq<Byte>)
    ensures |bytes| == n
  {
    if n == 0 then [] else [value % 256] + ToLe(n - 1, value / 256)
  }

  function FromLe(bytes: seq<Byte>): nat {
    if bytes == [] then 0 else bytes[0] + 256 * FromLe(bytes[1..])
  }

  function Pow256(n: nat): (p: nat)
    ensures p > 0
  {
    if n == 0 then 1 else 256 * Pow256(n - 1)
  }

  lemma {:induction false} LeRoundTrip(n: nat, value: nat)
    requires value < Pow256(n)
    ensures FromLe(ToLe(n, value)) == value
  {
    if n > 0 {
      LeRoundTrip(n - 1, value / 256);
      assert ToLe(n, value)[1..] == ToLe(n - 1, value / 256);
    }
  }

  lemma {:induction false} LeReencodes(bytes: seq<Byte>)
    ensures ToLe(|bytes|, FromLe(bytes)) == bytes
    ensures FromLe(bytes) < Pow256(|bytes|)
  {
    if bytes != [] {
      LeReencodes(bytes[1..]);
      assert FromLe(bytes) / 256 == FromLe(bytes[1..]) && FromLe(bytes) % 256 == bytes[0];
      assert bytes == [bytes[0]] + bytes[1..];
    }
  }

  lemma Widths()
    ensures Pow256(4) == 0x1_0000_0000 && Pow256(8) == TWO_64
  {
    assert Pow256(2) == 0x1_0000 && Pow256(4) == 0x1_0000_0000;
    assert Pow256(6) == 0x1_0000_0000_0000;
  }

  // --- Enumerations -----------------------------------------------------------------------

  function CommandCode(k: CommandType): Byte {
    match k
    case PlaceOrder => 0
    case CancelOrder => 1
    case DepositFunds => 2
    case WithdrawFunds => 3
  }

  function CommandOf(b: Byte): Option<CommandType> {
    if b == 0 then Some(PlaceOrder)
    else if b == 1 then Some(CancelOrder)
    else if b == 2 then Some(DepositFunds)
    else if b == 3 then Some(WithdrawFunds)
    else None
  }

  function SideCode(s: Side): Byte {
    if s == Ask then 0 else 1
  }

  function SideOf(b: Byte): Option<Side> {
    if b == 0 then Some(Ask) else if b == 1 then Some(Bid) else None
  }

  function TifCode(t: TimeInForce): Byte {
    match t
    case Gtc => 0
    case Ioc => 1
    case Fok => 2
  }

  function TifOf(b: Byte): Option<TimeInForce> {
    if b == 0 then Some(Gtc) else if b == 1 then Some(Ioc) else if b == 2 then Some(Fok) else None
  }

  function StatusCode(s: Status): Byte {
    match s
    case Rejected => 0
    case Placed => 1
    case Cancelled => 2
    case PartiallyFilled => 3
    case Filled => 4
    case Processing => 5
    case Processed => 6
  }

  function StatusOf(b: Byte): Option<Status> {
    if b == 0 then Some(Rejected)
    else if b == 1 then Some(Placed)
    else if b == 2 then Some(Cancelled)
    else if b == 3 then Some(PartiallyFilled)
    else if b == 4 then Some(Filled)
    else if b == 5 then Some(Processing)
    else if b == 6 then Some(Processed)
    else None
  }

  // --- The message as a list of fields --------------------------------------------------------

  function Header(): seq<Byte> {
    ToLe(2, BLOCK_LENGTH) + ToLe(2, TEMPLATE_ID) + ToLe(2, SCHEMA_ID) + ToLe(2, SCHEMA_VERSION)
  }

  function Fields(c: Command): (fields: seq<seq<Byte>>)
    ensures |fields| == 11
  {
    [[CommandCode(c.kind)], ToLe(8, c.clientOrderId), ToLe(8, c.orderId), ToLe(8, c.userId), ToLe(4, c.marketId),
     ToLe(8, c.price), ToLe(8, c.size), [SideCode(c.side)], [TifCode(c.tif)], ToLe(8, c.timestamp),
     [StatusCode(c.status)]]
  }

  function Join(fields: seq<seq<Byte>>): seq<Byte> {
    if fields == [] then [] else Join(fields[..|fields| - 1]) + fields[|fields| - 1]
  }

  function Message(c: Command): seq<Byte> { Header() + Join(Fields(c)) }

  // Field i of the block starts at offset OFFSETS[i] of it.
  const OFFSETS: seq<nat> := [0, 1, 9, 17, 25, 29, 37, 45, 46, 47, 55, 56]

  // s holds f where field i of the block belongs.
  predicate FieldIn(s: seq<Byte>, f: seq<Byte>, i: nat)
    requires i < 11
  {
    OFFSETS[i] <= OFFSETS[i + 1] <= |s| && s[OFFSETS[i]..OFFSETS[i + 1]] == f
  }

  predicate FieldSized(f: seq<Byte>, i: nat)
    requires i < 11
  {
    |f| == OFFSETS[i + 1] - OFFSETS[i]
  }

  // s holds the given fields one after the other.
  ghost predicate Tiled(s: seq<Byte>, fields: seq<seq<Byte>>)
    requires |fields| <= 11
  {
    OFFSETS[|fields|] <= |s| && forall i :: 0 <= i < |fields| ==> FieldIn(s, fields[i], i)
  }

  lemma {:induction false} TiledJoin(s: seq<Byte>, fields: seq<seq<Byte>>)
    requires |fields| <= 11 && Tiled(s, fields)
    ensures s[..OFFSETS[|fields|]] == Join(fields)
  {
    if fields != [] {
      var n := |fields| - 1;
      assert forall i :: 0 <= i < n ==> fields[..n][i] == fields[i];
      assert FieldIn(s, fields[n], n);
      TiledJoin(s, fields[..n]);
      SliceJoin(s, OFFSETS[n], OFFSETS[n + 1]);
    }
  }

  lemma SliceJoin(s: seq<Byte>, a: nat, b: nat)
    requires a <= b <= |s|
    ensures s[..b] == s[..a] + s[a..b]
  {
  }

  lemma PrefixSlice(init: seq<Byte>, tail: seq<Byte>, a: nat, b: nat)
    requires a <= b <= |init|
    ensures (init + tail)[a..b] == init[a..b]
  {
  }

  lemma {:induction false} JoinTiled(fields: seq<seq<Byte>>)
    requires |fields| <= 11
    requires forall i :: 0 <= i < |fields| ==> FieldSized(fields[i], i)
    ensures |Join(fields)| == OFFSETS[|fields|] && Tiled(Join(fields), fields)
  {
    if fields != [] {
      var n := |fields| - 1;
      assert forall i :: 0 <= i < n ==> fields[..n][i] == fields[i];
      JoinTiled(fields[..n]);
      var init, last := Join(fields[..n]), fields[n];
      assert FieldSized(last, n);
      assert Join(fields) == init + last;
      LastField(init, last, n);
      forall i | 0 <= i < n
        ensures FieldIn(init + last, fields[i], i)
      {
        assert FieldIn(init, fields[..n][i], i);
        FieldStays(init, last, fields[i], i);
      }
    }
  }

  lemma LastField(init: seq<Byte>, last: seq<Byte>, n: nat)
    requires n < 11 && |init| == OFFSETS[n] && FieldSized(last, n)
    ensures |init + last| == OFFSETS[n + 1] && FieldIn(init + last, last, n)
  {
  }

  lemma FieldStays(init: seq<Byte>, tail: seq<Byte>, f: seq<Byte>, i: nat)
    requires i < 11 && FieldIn(init, f, i)
    ensures FieldIn(init + tail, f, i)
  {
    PrefixSlice(init, tail, OFFSETS[i], OFFSETS[i + 1]);
  }

  lemma MessageTiled(c: Command)
    ensures |Join(Fields(c))| == 56 && Tiled(Join(Fields(c)), Fields(c))
    ensures |Message(c)| == MESSAGE_LENGTH
  {
    JoinTiled(Fields(c));
  }

  // --- The layout in bytes --------------------------------------------------------------------

  // n bytes from `at` on hold the value, least significant byte first.
  ghost predicate HoldsWord(s: seq<Byte>, at: nat, n: nat, value: nat) {
    at + n <= |s| && forall i: nat :: i < n ==> s[at + i] as int == value / Pow256(i) % 256
  }

  lemma {:induction false} DigitOf(n: nat, value: nat, i: nat)
    requires i < n
    ensures ToLe(n, value)[i] as int == value / Pow256(i) % 256
  {
    if i > 0 {
      DigitOf(n - 1, value / 256, i - 1);
      NestedDivision(value, 256, Pow256(i - 1));
    }
  }

  lemma NestedDivision(n: nat, a: nat, b: nat)
    requires a > 0 && b > 0
    ensures a * b > 0 && n / a / b == n / (a * b)
  {
    var q, r := n / a, n % a;
    var x, y := q / b, q % b;
    ProductPositive(a, b);
    DividedTwice(n, a, b, q, r, x, y);
    Arithmetic.Euclid(n, a * b, x, a * y + r);
  }

  lemma DividedTwice(n: nat, a: nat, b: nat, q: nat, r: nat, x: nat, y: nat)
    requires n == a * q + r && r < a && q == b * x + y && y < b
    ensures n == a * b * x + (a * y + r) && a * y + r < a * b
  {
    Regroup(a, b, x, y);
    Arithmetic.LessMul(y, b, a);
  }

  lemma Regroup(a: nat, b: nat, x: nat, y: nat)
    ensures a * (b * x + y) == a * b * x + a * y
  {
  }

  lemma ProductPositive(a: nat, b: nat)
    requires a > 0 && b > 0
    ensures a * b > 0
  {
  }

  lemma PlacedField(c: Command, i: nat)
    requires i < 11
    ensures |Message(c)| == MESSAGE_LENGTH
    ensures Message(c)[8 + OFFSETS[i]..8 + OFFSETS[i + 1]] == Fields(c)[i]
  {
    MessageTiled(c);
    var block := Join(Fields(c));
    assert FieldIn(block, Fields(c)[i], i);
    assert Message(c)[8..64] == block;
    SliceOfSlice(Message(c), 8, 64, OFFSETS[i], OFFSETS[i + 1]);
  }

  lemma PlacedWord(c: Command, i: nat, n: nat, value: nat)
    requires i < 11 && Fields(c)[i] == ToLe(n, value)
    ensures HoldsWord(Message(c), 8 + OFFSETS[i], n, value)
  {
    PlacedField(c, i);
    forall k: nat | k < n
      ensures Message(c)[8 + OFFSETS[i] + k] as int == value / Pow256(k) % 256
    {
      DigitOf(n, value, k);
      assert Message(c)[8 + OFFSETS[i]..8 + OFFSETS[i + 1]][k] == ToLe(n, value)[k];
    }
  }

  // Every field at its own byte.
  lemma WordLayout(c: Command)
    ensures var m := Message(c);
            && |m| == 64
            && HoldsWord(m, 9, 8, c.clientOrderId) && HoldsWord(m, 17, 8, c.orderId)
            && HoldsWord(m, 25, 8, c.userId) && HoldsWord(m, 33, 4, c.marketId)
            && HoldsWord(m, 37, 8, c.price) && HoldsWord(m, 45, 8, c.size) && HoldsWord(m, 55, 8, c.timestamp)
  {
    MessageTiled(c);
    PartyLayout(c);
    AmountLayout(c);
  }

  lemma PartyLayout(c: Command)
    ensures var m := Message(c);
            && HoldsWord(m, 9, 8, c.clientOrderId) && HoldsWord(m, 17, 8, c.orderId)
            && HoldsWord(m, 25, 8, c.userId) && HoldsWord(m, 33, 4, c.marketId)
  {
    PlacedWord(c, 1, 8, c.clientOrderId);
    PlacedWord(c, 2, 8, c.orderId);
    PlacedWord(c, 3, 8, c.userId);
    PlacedWord(c, 4, 4, c.marketId);
  }

  lemma AmountLayout(c: Command)
    ensures var m := Message(c);
            HoldsWord(m, 37, 8, c.price) && HoldsWord(m, 45, 8, c.size) && HoldsWord(m, 55, 8, c.timestamp)
  {
    PlacedWord(c, 5, 8, c.price);
    PlacedWord(c, 6, 8, c.size);
    PlacedWord(c, 9, 8, c.timestamp);
  }

  // The header and the four enumerations, byte by byte.
  lemma ByteLayout(c: Command)
    ensures |Message(c)| == 64 && Message(c)[..8] == [64, 0, 1, 0, 1, 0, 1, 0]
    ensures Message(c)[8] as int ==
            match c.kind { case PlaceOrder => 0 case CancelOrder => 1 case DepositFunds => 2 case WithdrawFunds => 3 }
    ensures Message(c)[53] as int == match c.side { case Ask => 0 case Bid => 1 }
    ensures Message(c)[54] as int == match c.tif { case Gtc => 0 case Ioc => 1 case Fok => 2 }
    ensures Message(c)[63] as int ==
            match c.status {
              case Rejected => 0 case Placed => 1 case Cancelled => 2 case PartiallyFilled => 3
              case Filled => 4 case Processing => 5 case Processed => 6
            }
  {
    MessageTiled(c);
    HeaderBytes();
    assert Message(c)[..8] == Header();
    PlacedField(c, 0);
    PlacedField(c, 7);
    PlacedField(c, 8);
    PlacedField(c, 10);
    assert Message(c)[8..9][0] == Message(c)[8] && Message(c)[53..54][0] == Message(c)[53];
    assert Message(c)[54..55][0] == Message(c)[54] && Message(c)[63..64][0] == Message(c)[63];
  }

  lemma HeaderBytes()
    ensures Header() == [64, 0, 1, 0, 1, 0, 1, 0]
  {
    assert ToLe(2, 64) == [64, 0] && ToLe(2, 1) == [1, 0];
  }

  // --- Decoding -------------------------------------------------------------------------------

  function Field(bytes: seq<Byte>, i: nat): seq<Byte>
    requires i < 11 && |bytes| >= MESSAGE_LENGTH
  {
    bytes[HEADER_LENGTH + OFFSETS[i]..HEADER_LENGTH + OFFSETS[i + 1]]
  }

  // The decoder skips the header and reads every field at its own offset.
  function Decode(bytes: seq<Byte>): Decoded
    requires |bytes| >= MESSAGE_LENGTH
  {
    var kind, side := CommandOf(bytes[8]), SideOf(bytes[53]);
    var tif, status := TifOf(bytes[54]), StatusOf(bytes[63]);
    if kind.None? then Err(BadCommand)
    else if side.None? then Err(BadSide)
    else if tif.None? then Err(BadTimeInForce)
    else if status.None? then Err(BadStatus)
    else
      Ok(Command(kind.value, FromLe(bytes[9..17]), FromLe(bytes[17..25]), FromLe(bytes[25..33]),
                 FromLe(bytes[33..37]), FromLe(bytes[37..45]), FromLe(bytes[45..53]), side.value, tif.value,
                 FromLe(bytes[55..63]), status.value, [], None, 0, 0))
  }

  // Fields that travel; the rest comes back as the defaults of the decoder.
  function OnWire(c: Command): Command {
    c.(events := [], l2Data := None, routeGatewayId := 0, originalSize := 0)
  }

  predicate Encodable(c: Command) {
    && c.clientOrderId <= U64_MAX && c.orderId <= U64_MAX && c.userId <= U64_MAX && c.marketId < 0x1_0000_0000
    && c.price <= U64_MAX && c.size <= U64_MAX && c.timestamp <= U64_MAX
  }

  lemma MessageFields(c: Command, rest: seq<Byte>, i: nat)
    requires i < 11
    ensures |Message(c)| == MESSAGE_LENGTH
    ensures Field(Message(c) + rest, i) == Fields(c)[i]
  {
    PlacedField(c, i);
    PrefixSlice(Message(c), rest, HEADER_LENGTH + OFFSETS[i], HEADER_LENGTH + OFFSETS[i + 1]);
  }

  // Decoding what was encoded gives back every field that travels.
  lemma DecodeEncoded(c: Command, rest: seq<Byte>)
    requires Encodable(c)
    ensures |Message(c)| == MESSAGE_LENGTH && Decode(Message(c) + rest) == Ok(OnWire(c))
  {
    MessageTiled(c);
    var bytes := Message(c) + rest;
    forall i | 0 <= i < 11
      ensures Field(bytes, i) == Fields(c)[i]
    {
      MessageFields(c, rest, i);
    }
    SingleFields(c, bytes);
    NumberFields(c, bytes);
  }

  lemma SingleFields(c: Command, bytes: seq<Byte>)
    requires |bytes| >= MESSAGE_LENGTH && forall i :: 0 <= i < 11 ==> Field(bytes, i) == Fields(c)[i]
    ensures CommandOf(bytes[8]) == Some(c.kind) && SideOf(bytes[53]) == Some(c.side)
    ensures TifOf(bytes[54]) == Some(c.tif) && StatusOf(bytes[63]) == Some(c.status)
  {
    assert bytes[8] == Field(bytes, 0)[0];
    assert bytes[53] == Field(bytes, 7)[0];
    assert bytes[54] == Field(bytes, 8)[0];
    assert bytes[63] == Field(bytes, 10)[0];
  }

  lemma NumberFields(c: Command, bytes: seq<Byte>)
    requires Encodable(c)
    requires |bytes| >= MESSAGE_LENGTH && forall i :: 0 <= i < 11 ==> Field(bytes, i) == Fields(c)[i]
    ensures FromLe(bytes[9..17]) == c.clientOrderId && FromLe(bytes[17..25]) == c.orderId
    ensures FromLe(bytes[25..33]) == c.userId && FromLe(bytes[33..37]) == c.marketId
    ensures FromLe(bytes[37..45]) == c.price && FromLe(bytes[45..53]) == c.size
    ensures FromLe(bytes[55..63]) == c.timestamp
  {
    WordField(c, bytes, 1, c.clientOrderId);
    WordField(c, bytes, 2, c.orderId);
    WordField(c, bytes, 3, c.userId);
    MarketField(c, bytes);
    WordField(c, bytes, 5, c.price);
    WordField(c, bytes, 6, c.size);
    WordField(c, bytes, 9, c.timestamp);
  }

  lemma WordField(c: Command, bytes: seq<Byte>, i: nat, value: nat)
    requires i < 11 && |bytes| >= MESSAGE_LENGTH && Field(bytes, i) == Fields(c)[i]
    requires value <= U64_MAX && Fields(c)[i] == ToLe(8, value)
    ensures FromLe(Field(bytes, i)) == value
  {
    Widths();
    LeRoundTrip(8, value);
  }

  lemma MarketField(c: Command, bytes: seq<Byte>)
    requires Encodable(c) && |bytes| >= MESSAGE_LENGTH && Field(bytes, 4) == Fields(c)[4]
    ensures FromLe(bytes[33..37]) == c.marketId
  {
    Widths();
    LeRoundTrip(4, c.marketId);
  }

  // The decoder accepts exactly the blocks whose four enumerations are known.
  lemma Accepts(bytes: seq<Byte>)
    requires |bytes| >= MESSAGE_LENGTH
    ensures Decode(bytes).Ok? <==> bytes[8] <= 3 && bytes[53] <= 1 && bytes[54] <= 2 && bytes[63] <= 6
    ensures Decode(bytes).Ok? ==> Encodable(Decode(bytes).cmd)
  {
    Widths();
    LeReencodes(bytes[9..17]);
    LeReencodes(bytes[17..25]);
    LeReencodes(bytes[25..33]);
    LeReencodes(bytes[33..37]);
    LeReencodes(bytes[37..45]);
    LeReencodes(bytes[45..53]);
    LeReencodes(bytes[55..63]);
  }

  // What the decoder accepts is reproduced byte for byte, except for a header
  // that the encoder would not have written.
  lemma EncodeDecoded(bytes: seq<Byte>)
    requires |bytes| >= MESSAGE_LENGTH && Decode(bytes).Ok?
    ensures var m := Message(Decode(bytes).cmd);
            && |m| == MESSAGE_LENGTH
            && m[HEADER_LENGTH..] == bytes[HEADER_LENGTH..MESSAGE_LENGTH]
            && (m + bytes[MESSAGE_LENGTH..] == bytes <==> bytes[..HEADER_LENGTH] == Header())
  {
    var c := Decode(bytes).cmd;
    var block := bytes[HEADER_LENGTH..MESSAGE_LENGTH];
    MessageTiled(c);
    DecodedFields(bytes);
    forall i | 0 <= i < 11
      ensures block[OFFSETS[i]..OFFSETS[i + 1]] == Fields(c)[i]
    {
      BlockField(bytes, i);
    }
    TiledJoin(block, Fields(c));
    assert block[..56] == block;
    var m := Message(c);
    assert m[HEADER_LENGTH..] == block && m[..HEADER_LENGTH] == Header();
    assert bytes == bytes[..HEADER_LENGTH] + block + bytes[MESSAGE_LENGTH..];
    assert (m + bytes[MESSAGE_LENGTH..])[..HEADER_LENGTH] == Header();
  }

  lemma BlockField(bytes: seq<Byte>, i: nat)
    requires i < 11 && |bytes| >= MESSAGE_LENGTH
    ensures bytes[HEADER_LENGTH..MESSAGE_LENGTH][OFFSETS[i]..OFFSETS[i + 1]] == Field(bytes, i)
  {
    SliceOfSlice(bytes, HEADER_LENGTH, MESSAGE_LENGTH, OFFSETS[i], OFFSETS[i + 1]);
  }

  lemma SliceOfSlice(s: seq<Byte>, n: nat, m: nat, a: nat, b: nat)
    requires n <= m <= |s| && a <= b <= m - n
    ensures s[n..m][a..b] == s[n + a..n + b]
  {
    var t := s[n..m];
    assert forall i :: a <= i < b ==> t[i] == s[n + i];
    assert forall i :: 0 <= i < b - a ==> t[a..b][i] == t[a + i];
  }

  lemma DecodedFields(bytes: seq<Byte>)
    requires |bytes| >= MESSAGE_LENGTH && Decode(bytes).Ok?
    ensures forall i :: 0 <= i < 11 ==> Field(bytes, i) == Fields(Decode(bytes).cmd)[i]
  {
    LeReencodes(bytes[9..17]);
    LeReencodes(bytes[17..25]);
    LeReencodes(bytes[25..33]);
    LeReencodes(bytes[33..37]);
    LeReencodes(bytes[37..45]);
    LeReencodes(bytes[45..53]);
    LeReencodes(bytes[55..63]);
    assert Field(bytes, 0) == [bytes[8]] && Field(bytes, 7) == [bytes[53]];
    assert Field(bytes, 8) == [bytes[54]] && Field(bytes, 10) == [bytes[63]];
  }

  // --- Encoding in place ------------------------------------------------------------------------

  function Written(s: seq<Byte>, index: nat, bytes: seq<Byte>): seq<Byte>
    requires index + |bytes| <= |s|
  {
    s[..index] + bytes + s[index + |bytes|..]
  }

  // A writer over a caller's buffer.
  class WriteBuf {
    const data: array<Byte>

    constructor (data: array<Byte>)
      ensures this.data == data
    {
      this.data := data;
    }

    method PutBytesAt(index: nat, bytes: seq<Byte>)
      requires index + |bytes| <= data.Length
      modifies data
      ensures data[..] == Written(old(data[..]), index, bytes)
    {
      var i := 0;
      while i < |bytes|
        invariant 0 <= i <= |bytes|
        invariant forall j :: 0 <= j < data.Length ==>
                    data[j] == if index <= j < index + i then bytes[j - index] else old(data[j])
      {
        data[index + i] := bytes[i];
        i := i + 1;
      }
    }

    method PutU8At(index: nat, value: Byte)
      requires index < data.Length
      modifies data
      ensures data[..] == Written(old(data[..]), index, [value])
    {
      data[index] := value;
    }

    method PutU16At(index: nat, value: nat)
      requires index + 2 <= data.Length
      modifies data
      ensures data[..] == Written(old(data[..]), index, ToLe(2, value))
    {
      PutBytesAt(index, ToLe(2, value));
    }

    method PutU32At(index: nat, value: nat)
      requires index + 4 <= data.Length
      modifies data
      ensures data[..] == Written(old(data[..]), index, ToLe(4, value))
    {
      PutBytesAt(index, ToLe(4, value));
    }

    method PutU64At(index: nat, value: nat)
      requires index + 8 <= data.Length
      modifies data
      ensures data[..] == Written(old(data[..]), index, ToLe(8, value))
    {
      PutBytesAt(index, ToLe(8, value));
    }
  }

  // The first n bytes are written, and nothing beyond the message has changed.
  ghost predicate WrittenTo(before: seq<Byte>, s: seq<Byte>, prefix: seq<Byte>) {
    && |s| == |before| && |prefix| <= MESSAGE_LENGTH <= |s|
    && s[..|prefix|] == prefix && s[MESSAGE_LENGTH..] == before[MESSAGE_LENGTH..]
  }

  lemma Extends(before: seq<Byte>, s: seq<Byte>, prefix: seq<Byte>, bytes: seq<Byte>)
    requires WrittenTo(before, s, prefix) && |prefix| + |bytes| <= MESSAGE_LENGTH
    ensures WrittenTo(before, Written(s, |prefix|, bytes), prefix + bytes)
  {
  }

  // Two adjacent fields written in the other order.
  lemma ExtendsTwice(before: seq<Byte>, s: seq<Byte>, prefix: seq<Byte>, a: seq<Byte>, b: seq<Byte>)
    requires WrittenTo(before, s, prefix) && |prefix| + |a| + |b| <= MESSAGE_LENGTH
    ensures WrittenTo(before, Written(Written(s, |prefix| + |a|, b), |prefix|, a), prefix + a + b)
  {
    var t := Written(s, |prefix| + |a|, b);
    var u := Written(t, |prefix|, a);
    assert u[..|prefix| + |a| + |b|] == prefix + a + b;
  }

  method EncodeHeader(buf: WriteBuf)
    requires buf.data.Length >= MESSAGE_LENGTH
    modifies buf.data
    ensures WrittenTo(old(buf.data[..]), buf.data[..], Header())
  {
    ghost var before := buf.data[..];
    Extends(before, buf.data[..], [], ToLe(2, BLOCK_LENGTH));
    buf.PutU16At(0, BLOCK_LENGTH);
    ghost var p := [] + ToLe(2, BLOCK_LENGTH);
    Extends(before, buf.data[..], p, ToLe(2, TEMPLATE_ID));
    buf.PutU16At(2, TEMPLATE_ID);
    p := p + ToLe(2, TEMPLATE_ID);
    Extends(before, buf.data[..], p, ToLe(2, SCHEMA_ID));
    buf.PutU16At(4, SCHEMA_ID);
    p := p + ToLe(2, SCHEMA_ID);
    Extends(before, buf.data[..], p, ToLe(2, SCHEMA_VERSION));
    buf.PutU16At(6, SCHEMA_VERSION);
    assert p + ToLe(2, SCHEMA_VERSION) == Header();
  }

  // The header and the first k fields of the block.
  function Prefix(c: Command, k: nat): seq<Byte>
    requires k <= 11
  {
    Header() + Join(Fields(c)[..k])
  }

  lemma PrefixStep(c: Command, k: nat)
    requires k < 11
    ensures Prefix(c, k) + Fields(c)[k] == Prefix(c, k + 1)
    ensures |Prefix(c, k)| == HEADER_LENGTH + OFFSETS[k] && |Prefix(c, k + 1)| == HEADER_LENGTH + OFFSETS[k + 1]
  {
    assert Fields(c)[..k + 1][..k] == Fields(c)[..k];
    JoinTiled(Fields(c)[..k]);
    JoinTiled(Fields(c)[..k + 1]);
    Associates(Header(), Join(Fields(c)[..k]), Fields(c)[k]);
  }

  lemma Associates(a: seq<Byte>, b: seq<Byte>, c: seq<Byte>)
    ensures (a + b) + c == a + (b + c)
  {
  }

  lemma ExtendsField(before: seq<Byte>, s: seq<Byte>, c: Command, k: nat)
    requires k < 11 && WrittenTo(before, s, Prefix(c, k))
    ensures HEADER_LENGTH + OFFSETS[k] + |Fields(c)[k]| <= |s|
    ensures WrittenTo(before, Written(s, HEADER_LENGTH + OFFSETS[k], Fields(c)[k]), Prefix(c, k + 1))
  {
    PrefixStep(c, k);
    Extends(before, s, Prefix(c, k), Fields(c)[k]);
  }

  lemma ExtendsUserMarket(before: seq<Byte>, s: seq<Byte>, c: Command)
    requires WrittenTo(before, s, Prefix(c, 3))
    ensures WrittenTo(before, Written(Written(s, 33, ToLe(4, c.marketId)), 25, ToLe(8, c.userId)), Prefix(c, 5))
  {
    PrefixStep(c, 3);
    PrefixStep(c, 4);
    ExtendsTwice(before, s, Prefix(c, 3), Fields(c)[3], Fields(c)[4]);
  }

  // The block, in the order the encoder writes it.
  method EncodeKind(c: Command, buf: WriteBuf, ghost before: seq<Byte>)
    requires WrittenTo(before, buf.data[..], Prefix(c, 0))
    modifies buf.data
    ensures WrittenTo(before, buf.data[..], Prefix(c, 1))
  {
    ExtendsField(before, buf.data[..], c, 0);
    buf.PutU8At(8, CommandCode(c.kind));
  }

  method EncodeClientOrderId(c: Command, buf: WriteBuf, ghost before: seq<Byte>)
    requires WrittenTo(before, buf.data[..], Prefix(c, 1))
    modifies buf.data
    ensures WrittenTo(before, buf.data[..], Prefix(c, 2))
  {
    ExtendsField(before, buf.data[..], c, 1);
    buf.PutU64At(9, c.clientOrderId);
  }

  method EncodeOrderId(c: Command, buf: WriteBuf, ghost before: seq<Byte>)
    requires WrittenTo(before, buf.data[..], Prefix(c, 2))
    modifies buf.data
    ensures WrittenTo(before, buf.data[..], Prefix(c, 3))
  {
    ExtendsField(before, buf.data[..], c, 2);
    buf.PutU64At(17, c.orderId);
  }

  // The market goes in before the user that precedes it.
  method EncodeParties(c: Command, buf: WriteBuf, ghost before: seq<Byte>)
    requires WrittenTo(before, buf.data[..], Prefix(c, 3))
    modifies buf.data
    ensures WrittenTo(before, buf.data[..], Prefix(c, 5))
  {
    ExtendsUserMarket(before, buf.data[..], c);
    buf.PutU32At(33, c.marketId);
    buf.PutU64At(25, c.userId);
  }

  // Price, size and side.
  method EncodeTerms(c: Command, buf: WriteBuf, ghost before: seq<Byte>)
    requires WrittenTo(before, buf.data[..], Prefix(c, 5))
    modifies buf.data
    ensures WrittenTo(before, buf.data[..], Prefix(c, 8))
  {
    ExtendsField(before, buf.data[..], c, 5);
    buf.PutU64At(37, c.price);
    ExtendsField(before, buf.data[..], c, 6);
    buf.PutU64At(45, c.size);
    ExtendsField(before, buf.data[..], c, 7);
    buf.PutU8At(53, SideCode(c.side));
  }

  // Time in force, timestamp and status.
  method EncodeState(c: Command, buf: WriteBuf, ghost before: seq<Byte>)
    requires WrittenTo(before, buf.data[..], Prefix(c, 8))
    modifies buf.data
    ensures WrittenTo(before, buf.data[..], Prefix(c, 11))
  {
    ExtendsField(before, buf.data[..], c, 8);
    buf.PutU8At(54, TifCode(c.tif));
    ExtendsField(before, buf.data[..], c, 9);
    buf.PutU64At(55, c.timestamp);
    ExtendsField(before, buf.data[..], c, 10);
    buf.PutU8At(63, StatusCode(c.status));
  }

  // Encodes into the first 64 bytes of a buffer and leaves the rest alone.
  method EncodeOrderCommand(c: Command, data: array<Byte>)
    requires data.Length >= MESSAGE_LENGTH
    modifies data
    ensures data[..] == Message(c) + old(data[MESSAGE_LENGTH..])
  {
    ghost var before := data[..];
    var buf := new WriteBuf(data);
    EncodeHeader(buf);
    assert Prefix(c, 0) == Header() && Prefix(c, 11) == Message(c) by {
      assert Header() + [] == Header() && Fields(c)[..11] == Fields(c);
    }
    EncodeKind(c, buf, before);
    EncodeClientOrderId(c, buf, before);
    EncodeOrderId(c, buf, before);
    EncodeParties(c, buf, before);
    EncodeTerms(c, buf, before);
    EncodeState(c, buf, before);
    MessageTiled(c);
    assert data[..] == data[..MESSAGE_LENGTH] + data[MESSAGE_LENGTH..];
  }
}
