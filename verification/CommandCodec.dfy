/** The payload encoding of recorded commands. */
module CommandCodec {
  import opened Types
  import opened Bytes
  import opened Engine

  /** The integer widths of the program's types; a symbol name is a string of bytes. */
  predicate CommandOk(c: Command) {
    match c
    case RegisterSymbol(name) => forall i :: 0 <= i < |name| ==> name[i] as int < 256
    case NewLimit(symbol, id, _, price, quantity, _) =>
      symbol < 0x1_0000_0000 && id < TWO64 && IsInt64(price)
      && quantity < 0x1_0000_0000
    case NewMarket(symbol, id, _, quantity) => symbol < 0x1_0000_0000 && id < TWO64 && quantity < 0x1_0000_0000
    case CancelOrder(symbol, id) => symbol < 0x1_0000_0000 && id < TWO64
    case ModifyOrder(symbol, id, price, quantity) =>
      symbol < 0x1_0000_0000 && id < TWO64 && IsInt64(price)
      && quantity < 0x1_0000_0000
  }

  function SideByte(side: Side): Byte {
    if side.Buy? then 0 else 1
  }

  function TifByte(tif: TimeInForce): Byte {
    if tif.GTC? then 0 else 1
  }

  function NameBytes(name: string): (s: seq<Byte>)
    requires forall i :: 0 <= i < |name| ==> name[i] as int < 256
    ensures |s| == |name|
  {
    seq(|name|, i requires 0 <= i < |name| => name[i] as int)
  }

  function BytesName(s: seq<Byte>): string {
    seq(|s|, i requires 0 <= i < |s| => s[i] as char)
  }

  /** Tag byte, then fixed-width big-endian fields; a limit order ends in one zero byte. */
  function Encode(c: Command): (s: seq<Byte>)
    requires CommandOk(c)
    ensures |s| == match c
                   case RegisterSymbol(name) => 1 + |name|
                   case NewLimit(_, _, _, _, _, _) => 28
                   case NewMarket(_, _, _, _) => 18
                   case CancelOrder(_, _) => 13
                   case ModifyOrder(_, _, _, _) => 25
  {
    match c
    case RegisterSymbol(name) => [0] + NameBytes(name)
    case NewLimit(symbol, id, side, price, quantity, tif) =>
      [1] + Store(symbol, 4) + Store(id, 8) + Store(Bits64(price), 8) + Store(quantity, 4)
      + [SideByte(side), TifByte(tif), 0]
    case NewMarket(symbol, id, side, quantity) =>
      [2] + Store(symbol, 4) + Store(id, 8) + [SideByte(side)] + Store(quantity, 4)
    case CancelOrder(symbol, id) => [3] + Store(symbol, 4) + Store(id, 8)
    case ModifyOrder(symbol, id, price, quantity) =>
      [4] + Store(symbol, 4) + Store(id, 8) + Store(Bits64(price), 8) + Store(quantity, 4)
  }

  function ByteSide(b: Byte): Option<Side> {
    if b == 0 then Some(Buy) else if b == 1 then Some(Sell) else None
  }

  function ByteTif(b: Byte): Option<TimeInForce> {
    if b == 0 then Some(GTC) else if b == 1 then Some(IOC) else None
  }

  /** A short payload, an unknown tag or an out-of-domain enum byte is refused. */
  function Decode(s: seq<Byte>): Option<Command> {
    if s == [] then None
    else if s[0] == 0 then Some(RegisterSymbol(BytesName(s[1..])))
    else if s[0] == 1 then
      if |s| < 28 || ByteSide(s[25]).None? || ByteTif(s[26]).None? then None
      else Some(NewLimit(Load(s[1..5]), Load(s[5..13]), ByteSide(s[25]).value, Signed64(Load(s[13..21])),
                         Load(s[21..25]),
                         ByteTif(s[26]).value))
    else if s[0] == 2 then
      if |s| < 18 || ByteSide(s[13]).None? then None
      else Some(NewMarket(Load(s[1..5]), Load(s[5..13]), ByteSide(s[13]).value, Load(s[14..18])))
    else if s[0] == 3 then
      if |s| < 13 then None else Some(CancelOrder(Load(s[1..5]), Load(s[5..13])))
    else if s[0] == 4 then
      if |s| < 25 then None
      else Some(ModifyOrder(Load(s[1..5]), Load(s[5..13]), Signed64(Load(s[13..21])), Load(s[21..25])))
    else None
  }

  lemma {:induction false} Ids(symbol: nat, id: nat, tag: Byte, rest: seq<Byte>)
    requires symbol < 0x1_0000_0000 && id < TWO64
    ensures var s := [tag] + Store(symbol, 4) + Store(id, 8) + rest;
            && s[0] == tag && Load(s[1..5]) == symbol && Load(s[5..13]) == id && s[13..] == rest
  {
    hide Store, Load, Pow256;
    var s := [tag] + Store(symbol, 4) + Store(id, 8) + rest;
    assert s[1..5] == Store(symbol, 4) && s[5..13] == Store(id, 8) && s[13..] == rest;
    Widths();
    LoadStore(symbol, 4);
    LoadStore(id, 8);
  }

  lemma {:induction false} PriceAndQuantity(price: Price, quantity: Quantity, rest: seq<Byte>)
    requires IsInt64(price) && quantity < 0x1_0000_0000
    ensures var t := Store(Bits64(price), 8) + Store(quantity, 4) + rest;
            Signed64(Load(t[..8])) == price && Load(t[8..12]) == quantity && t[12..] == rest
  {
    hide Store, Load, Pow256;
    var t := Store(Bits64(price), 8) + Store(quantity, 4) + rest;
    assert t[..8] == Store(Bits64(price), 8) && t[8..12] == Store(quantity, 4) && t[12..] == rest;
    Widths();
    SignedRoundTrip(price);
    LoadStore(quantity, 4);
  }

  /** The fields after tag, symbol and id, seen from the front of the payload. */
  lemma {:induction false} Shifted(s: seq<Byte>, rest: seq<Byte>, i: nat, j: nat)
    requires |s| >= 13 && s[13..] == rest && i <= j <= |rest|
    ensures s[13 + i..13 + j] == rest[i..j] && (i < |rest| ==> s[13 + i] == rest[i])
  {
    var a, b := s[13 + i..13 + j], rest[i..j];
    forall k | 0 <= k < j - i ensures a[k] == b[k] {
      assert rest[i + k] == s[13..][i + k];
    }
  }

  lemma {:induction false} DecodeLimit(c: Command)
    requires CommandOk(c) && c.NewLimit?
    ensures Decode(Encode(c)) == Some(c)
  {
    hide Store, Load, Bits64, Signed64;
    var flags := [SideByte(c.side), TifByte(c.tif), 0];
    var rest := Store(Bits64(c.price), 8) + Store(c.quantity, 4) + flags;
    var s := Encode(c);
    assert s == [1] + Store(c.symbol, 4) + Store(c.id, 8) + rest;
    Ids(c.symbol, c.id, 1, rest);
    PriceAndQuantity(c.price, c.quantity, flags);
    Shifted(s, rest, 0, 8);
    Shifted(s, rest, 8, 12);
    Shifted(s, rest, 12, 13);
    Shifted(s, rest, 13, 14);
    assert rest[0..8] == rest[..8];
    assert rest[12] == flags[0] && rest[13] == flags[1];
  }

  lemma {:induction false} DecodeModify(c: Command)
    requires CommandOk(c) && c.ModifyOrder?
    ensures Decode(Encode(c)) == Some(c)
  {
    hide Store, Load, Bits64, Signed64;
    var rest := Store(Bits64(c.price), 8) + Store(c.quantity, 4) + [];
    var s := Encode(c);
    assert s == [4] + Store(c.symbol, 4) + Store(c.id, 8) + rest;
    Ids(c.symbol, c.id, 4, rest);
    PriceAndQuantity(c.price, c.quantity, []);
    Shifted(s, rest, 0, 8);
    Shifted(s, rest, 8, 12);
    assert rest[0..8] == rest[..8];
  }

  lemma {:induction false} DecodeMarket(c: Command)
    requires CommandOk(c) && c.NewMarket?
    ensures Decode(Encode(c)) == Some(c)
  {
    hide Store, Load, Pow256;
    var rest := [SideByte(c.side)] + Store(c.quantity, 4);
    var s := Encode(c);
    assert s == [2] + Store(c.symbol, 4) + Store(c.id, 8) + rest;
    Ids(c.symbol, c.id, 2, rest);
    Shifted(s, rest, 0, 1);
    Shifted(s, rest, 1, 5);
    assert rest[1..5] == Store(c.quantity, 4);
    Widths();
    LoadStore(c.quantity, 4);
  }

  lemma {:induction false} DecodeCancel(c: Command)
    requires CommandOk(c) && c.CancelOrder?
    ensures Decode(Encode(c)) == Some(c)
  {
    hide Store, Load;
    assert Encode(c) == [3] + Store(c.symbol, 4) + Store(c.id, 8) + [];
    Ids(c.symbol, c.id, 3, []);
  }

  lemma {:induction false} DecodeRegister(c: Command)
    requires CommandOk(c) && c.RegisterSymbol?
    ensures Decode(Encode(c)) == Some(c)
  {
    var s := Encode(c);
    assert s[1..] == NameBytes(c.name);
    assert BytesName(NameBytes(c.name)) == c.name;
  }

  /** Decoding undoes encoding on the full range of every field. */
  lemma {:induction false} DecodeEncode(c: Command)
    requires CommandOk(c)
    ensures Decode(Encode(c)) == Some(c)
  {
    hide Decode, Encode, CommandOk;
    match c
    case RegisterSymbol(_) => DecodeRegister(c);
    case NewLimit(_, _, _, _, _, _) => DecodeLimit(c);
    case NewMarket(_, _, _, _) => DecodeMarket(c);
    case CancelOrder(_, _) => DecodeCancel(c);
    case ModifyOrder(_, _, _, _) => DecodeModify(c);
  }
}
