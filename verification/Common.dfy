/** Types shared by every component, and the arithmetic of the C++ host language. */
module Common {

  type U16 = x: int | 0 <= x < 0x1_0000
  type U32 = x: int | 0 <= x < 0x1_0000_0000
  type U64 = x: int | 0 <= x < 0x1_0000_0000_0000_0000
  type I64 = x: int | -0x8000_0000_0000_0000 <= x < 0x8000_0000_0000_0000
  type Byte = x: int | 0 <= x < 0x100

  datatype Option<+T> = None | Some(value: T)

  datatype Side = Buy | Sell

  function Opposite(side: Side): Side {
    if side.Buy? then Sell else Buy
  }

  datatype TimeInForce = Gtc | Ioc | Fok | GoodTilBlock | GoodTilTime

  /** The four bits of the flag word that the engine ever tests. */
  datatype Flags = Flags(postOnly: bool, reduceOnly: bool, hidden: bool, iceberg: bool)

  datatype OrderId = OrderId(market: U16, session: U16, local: U32)

  function Min(a: int, b: int): int {
    if a <= b then a else b
  }

  function Max(a: int, b: int): int {
    if a >= b then a else b
  }

  function Abs(a: int): nat {
    if a >= 0 then a else -a
  }

  /** C++ integer division: the quotient is rounded toward zero. */
  function TruncDiv(a: int, b: int): (q: int)
    requires b > 0
    ensures Abs(a - q * b) < b
    ensures a >= 0 ==> 0 <= a - q * b
    ensures a <= 0 ==> a - q * b <= 0
  {
    if a >= 0 then a / b else -((-a) / b)
  }

  /** The 64-bit key of an order: market, session and local number packed side by side. */
  function Encode(id: OrderId): U64 {
    id.market * 0x1_0000_0000_0000 + id.session * 0x1_0000_0000 + id.local
  }

  function Decode(key: U64): OrderId {
    OrderId(key / 0x1_0000_0000_0000, (key / 0x1_0000_0000) % 0x1_0000, key % 0x1_0000_0000)
  }

  lemma DecodeEncode(id: OrderId)
    ensures Decode(Encode(id)) == id
  {
    var low := id.session * 0x1_0000_0000 + id.local;
    assert Encode(id) == id.market * 0x1_0000_0000_0000 + low;
    assert Encode(id) / 0x1_0000_0000 == id.market * 0x1_0000 + id.session;
  }

  lemma EncodeDecode(key: U64)
    ensures Encode(Decode(key)) == key
  {
    var upper := key / 0x1_0000_0000;
    assert upper / 0x1_0000 == key / 0x1_0000_0000_0000;
  }

  lemma EncodeInjective(a: OrderId, b: OrderId)
    requires Encode(a) == Encode(b)
    ensures a == b
  {
    DecodeEncode(a);
    DecodeEncode(b);
  }

  /** Where the three parts of an id stand in its key: bits 48 to 63, 32 to 47, and 0 to 31. */
  lemma EncodeLayout(id: OrderId)
    ensures Encode(id) / 0x1_0000_0000_0000 == id.market
    ensures (Encode(id) / 0x1_0000_0000) % 0x1_0000 == id.session
    ensures Encode(id) % 0x1_0000_0000 == id.local
  {
    DecodeEncode(id);
  }
}
