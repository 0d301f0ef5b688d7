/** The FIX order messages: envelope, BodyLength and CheckSum, typed encoding and decoding. */
module FixCodec {
  import opened Types
  import opened Decimal
  import opened FixText

  const BEGIN_STRING := "FIX.4.2"
  const MAX_MESSAGE := 1024
  const U32_MAX := 0xFFFF_FFFF
  const U64_MAX := 0xFFFF_FFFF_FFFF_FFFF
  const I64_MIN := -0x8000_0000_0000_0000
  const I64_MAX := 0x7FFF_FFFF_FFFF_FFFF

  datatype FixError =
    | Malformed
    | UnsupportedBeginString
    | UnknownMsgType
    | MissingField
    | InvalidField
    | BodyLengthMismatch
    | ChecksumMismatch
    | InvalidEnumValue
    | OutOfRange

  datatype Result<T> = Ok(value: T) | Err(error: FixError)

  datatype NewOrder = NewOrder(id: nat, symbol: nat, price: int, quantity: nat, side: Side, isMarket: bool,
                               tif: TimeInForce)

  datatype CancelOrder = CancelOrder(id: nat, symbol: nat)

  // ---- The envelope --------------------------------------------------------------------------

  /** The sum of all bytes, as CheckSum counts them. */
  function ByteSum(s: string): nat {
    if s == [] then 0 else ByteSum(s[..|s| - 1]) + (s[|s| - 1] as int) % 256
  }

  function WholeNumber(s: string, hi: nat): Option<nat> {
    var n := FromChars(s, 0, hi);
    if n.Read? && n.length == |s| then Some(n.value) else None
  }

  function CheckShape(p: seq<Field>): Option<FixError> {
    if |p| < 3 then Some(Malformed)
    else if !(p[0].tag == 8 && p[1].tag == 9 && p[2].tag == 35 && p[|p| - 1].tag == 10) then Some(Malformed)
    else if p[0].value != BEGIN_STRING then Some(UnsupportedBeginString)
    else None
  }

  function CheckLengthAndSum(msg: string, p: seq<Field>): Option<FixError>
    requires |p| >= 3
  {
    var last := p[|p| - 1];
    var length := WholeNumber(p[1].value, U64_MAX);
    if length.None? then Some(InvalidField)
    else if p[2].start + length.value != last.start then Some(BodyLengthMismatch)
    else
      var declared := WholeNumber(last.value, U32_MAX);
      if |last.value| != 3 || declared.None? then Some(InvalidField)
      else if last.start > |msg| || ByteSum(msg[..last.start]) % 256 != declared.value then Some(ChecksumMismatch)
      else None
  }

  function ParseEnvelope(msg: string): Result<seq<Field>> {
    if msg == [] || |msg| > MAX_MESSAGE then Err(Malformed)
    else
      var p := Tokens(msg, 0, []);
      if p.None? then Err(Malformed)
      else
        var shape := CheckShape(p.value);
        if shape.Some? then Err(shape.value)
        else
          var sums := CheckLengthAndSum(msg, p.value);
          if sums.Some? then Err(sums.value) else Ok(p.value)
  }

  // ---- Reading typed fields ------------------------------------------------------------------

  function Find(p: seq<Field>, tag: nat): Option<string> {
    if p == [] then None else if p[0].tag == tag then Some(p[0].value) else Find(p[1..], tag)
  }

  function RequireInt(p: seq<Field>, tag: nat, lo: int, hi: int): (r: Result<int>)
    ensures r.Ok? ==> lo <= r.value <= hi
  {
    var f := Find(p, tag);
    if f.None? then Err(MissingField)
    else if f.value == [] then Err(InvalidField)
    else
      var n := FromChars(f.value, lo, hi);
      if n.TooBig? then Err(OutOfRange)
      else if n.NotANumber? || n.length != |f.value| then Err(InvalidField)
      else Ok(n.value)
  }

  /** A one-character code: false for the first, true for the second. */
  function RequireCode(p: seq<Field>, tag: nat, first: char, second: char): Result<bool> {
    var f := Find(p, tag);
    if f.None? then Err(MissingField)
    else if |f.value| != 1 then Err(InvalidEnumValue)
    else if f.value[0] == first then Ok(false)
    else if f.value[0] == second then Ok(true)
    else Err(InvalidEnumValue)
  }

  function Typed(msg: string, kind: char): Result<seq<Field>> {
    var p := ParseEnvelope(msg);
    if p.Err? then p
    else
      var f := Find(p.value, 35);
      if f.None? || |f.value| != 1 || f.value[0] != kind then Err(UnknownMsgType) else p
  }

  /** The fields are read in a fixed order; the first that fails decides the error. */
  function DecodeNewOrder(msg: string): Result<NewOrder> {
    var t := Typed(msg, 'D');
    if t.Err? then Err(t.error)
    else
      var p := t.value;
      var seqNo := RequireInt(p, 34, 0, U64_MAX);
      if seqNo.Err? then Err(seqNo.error)
      else
        var id := RequireInt(p, 11, 0, U64_MAX);
        if id.Err? then Err(id.error)
        else
          var symbol := RequireInt(p, 55, 0, U32_MAX);
          if symbol.Err? then Err(symbol.error)
          else
            var quantity := RequireInt(p, 38, 0, U32_MAX);
            if quantity.Err? then Err(quantity.error)
            else
              var price := RequireInt(p, 44, I64_MIN, I64_MAX);
              if price.Err? then Err(price.error)
              else DecodeCodes(p, id.value, symbol.value, quantity.value, price.value)
  }

  function DecodeCodes(p: seq<Field>, id: nat, symbol: nat, quantity: nat, price: int): Result<NewOrder> {
    var side := RequireCode(p, 54, '1', '2');
    if side.Err? then Err(side.error)
    else
      var market := RequireCode(p, 40, '2', '1');
      if market.Err? then Err(market.error)
      else
        var ioc := RequireCode(p, 59, '1', '3');
        if ioc.Err? then Err(ioc.error)
        else Ok(NewOrder(id, symbol, price, quantity, if side.value then Sell else Buy, market.value,
                         if ioc.value then IOC else GTC))
  }

  function DecodeCancelOrder(msg: string): Result<CancelOrder> {
    var t := Typed(msg, 'F');
    if t.Err? then Err(t.error)
    else
      var p := t.value;
      var seqNo := RequireInt(p, 34, 0, U64_MAX);
      if seqNo.Err? then Err(seqNo.error)
      else
        var id := RequireInt(p, 41, 0, U64_MAX);
        if id.Err? then Err(id.error)
        else
          var request := RequireInt(p, 11, 0, U64_MAX);
          if request.Err? then Err(request.error)
          else
            var symbol := RequireInt(p, 55, 0, U32_MAX);
            if symbol.Err? then Err(symbol.error)
            else Ok(CancelOrder(id.value, symbol.value))
  }

  function PeekSeq(msg: string): Result<int> {
    var p := ParseEnvelope(msg);
    if p.Err? then Err(p.error) else RequireInt(p.value, 34, 0, U64_MAX)
  }

  function PeekMsgType(msg: string): Result<char> {
    var p := ParseEnvelope(msg);
    if p.Err? then Err(p.error)
    else
      var f := Find(p.value, 35);
      if f.None? || |f.value| != 1 then Err(UnknownMsgType) else Ok(f.value[0])
  }

  // ---- Writing -------------------------------------------------------------------------------

  function ThreeDigits(n: nat): (s: string)
    requires n < 1000
    ensures |s| == 3
  {
    [Digit(n / 100), Digit(n / 10 % 10), Digit(n % 10)]
  }

  function Lead(body: seq<Entry>): seq<Entry> {
    [Entry(8, BEGIN_STRING), Entry(9, Render(|Texts(body)|))]
  }

  function Head(body: seq<Entry>): string {
    Texts(Lead(body)) + Texts(body)
  }

  function Framed(body: seq<Entry>): string {
    Head(body) + Text(Entry(10, ThreeDigits(ByteSum(Head(body)) % 256)))
  }

  /** `frame`: the checksum is summed over the bytes written so far. */
  method Frame(body: seq<Entry>) returns (msg: string)
    ensures msg == Framed(body)
  {
    msg := Texts(Lead(body)) + Texts(body);
    var sum, i := 0, 0;
    while i < |msg|
      invariant 0 <= i <= |msg| && sum == ByteSum(msg[..i])
    {
      assert msg[..i + 1][..i] == msg[..i];
      sum := sum + (msg[i] as int) % 256;
      i := i + 1;
    }
    assert msg[..i] == msg;
    msg := msg + Text(Entry(10, ThreeDigits(sum % 256)));
  }

  function OrderEntries(o: NewOrder, seqNo: nat): seq<Entry> {
    [Entry(35, "D"), Entry(34, Render(seqNo)), Entry(11, Render(o.id)), Entry(55, Render(o.symbol)),
     Entry(54, if o.side.Buy? then "1" else "2"), Entry(38, Render(o.quantity)),
     Entry(40, if o.isMarket then "1" else "2"),
     Entry(44, RenderInt(o.price)), Entry(59, if o.tif.GTC? then "1" else "3")]
  }

  function CancelEntries(c: CancelOrder, seqNo: nat): seq<Entry> {
    [Entry(35, "F"), Entry(34, Render(seqNo)), Entry(41, Render(c.id)), Entry(11, Render(c.id)),
     Entry(55, Render(c.symbol))]
  }

  function EncodeNewOrder(o: NewOrder, seqNo: nat): string {
    Framed(OrderEntries(o, seqNo))
  }

  function EncodeCancelOrder(c: CancelOrder, seqNo: nat): string {
    Framed(CancelEntries(c, seqNo))
  }

  // ---- The envelope of a written message -----------------------------------------------------

  /** Small enough for twenty fields to fit a message. */
  ghost predicate Small(e: Entry) {
    e.tag < 100 && |e.value| <= 20 && Clean(e.value)
  }

  /** A body that begins with the message type and stays clear of the envelope's own tags. */
  ghost predicate BodyOk(body: seq<Entry>) {
    && 0 < |body| <= 20 && body[0].tag == 35
    && (forall i :: 0 <= i < |body| ==> Small(body[i]) && body[i].tag != 8 && body[i].tag != 9 && body[i].tag != 10)
    && (forall i, j :: 0 <= i < j < |body| ==> body[i].tag != body[j].tag)
  }

  function Whole(body: seq<Entry>): seq<Entry> {
    Lead(body) + body + [Entry(10, ThreeDigits(ByteSum(Head(body)) % 256))]
  }

  lemma {:induction false} TextsJoin(a: seq<Entry>, b: seq<Entry>)
    ensures Texts(a + b) == Texts(a) + Texts(b)
    decreases |a|
  {
    hide Text;
    if a == [] {
      assert [] + b == b;
    } else {
      TextsJoin(a[1..], b);
      assert (a + b)[1..] == a[1..] + b && (a + b)[0] == a[0];
    }
  }

  lemma {:induction false} FramedIsTexts(body: seq<Entry>)
    ensures Framed(body) == Texts(Whole(body))
  {
    hide Text, ByteSum, Lead;
    var tail := [Entry(10, ThreeDigits(ByteSum(Head(body)) % 256))];
    TextsJoin(Lead(body), body);
    TextsJoin(Lead(body) + body, tail);
    assert Texts(tail) == Text(tail[0]) + Texts([]) by { assert tail[1..] == []; }
    assert Text(tail[0]) + [] == Text(tail[0]);
  }

  lemma {:induction false} PlacedAt(es: seq<Entry>, start: nat, i: nat)
    requires i < |es|
    ensures |Placed(es, start)| == |es|
    ensures Placed(es, start)[i] == Field(es[i].tag, es[i].value, start + |Texts(es[..i])|)
    decreases |es|
  {
    hide Text;
    if |es| > 1 {
      PlacedAt(es[1..], start + |Text(es[0])|, if i > 0 then i - 1 else 0);
    }
    if i > 0 {
      assert es[..i][0] == es[0] && es[..i][1..] == es[1..][..i - 1];
    }
  }

  lemma {:induction false} TextsLength(es: seq<Entry>)
    requires forall i :: 0 <= i < |es| ==> Small(es[i])
    ensures |Texts(es)| <= 24 * |es|
    decreases |es|
  {
    if es != [] {
      assert Pow10(1) == 10 && Pow10(2) == 100;
      RenderLength(es[0].tag, 2);
      TextsLength(es[1..]);
    }
  }

  lemma {:induction false} DigitsAreClean(n: nat)
    ensures Clean(Render(n))
  {
  }

  lemma {:induction false} Pow10Twenty()
    ensures Pow10(20) == 100000000000000000000
  {
    assert Pow10(0) == 1;
    assert Pow10(4) == 10000;
    assert Pow10(8) == 100000000;
    assert Pow10(12) == 1000000000000;
    assert Pow10(16) == 10000000000000000;
  }

  /** Every number the messages carry takes at most twenty characters. */
  lemma {:induction false} NumbersAreSmall(n: int)
    requires I64_MIN <= n <= U64_MAX
    ensures |RenderInt(n)| <= 20 && Clean(RenderInt(n)) && RenderInt(n) != []
  {
    hide Render, Pow10;
    Pow10Twenty();
    if n < 0 {
      DigitsAreClean(-n);
      Nineteen();
      RenderLength(-n, 19);
    } else {
      DigitsAreClean(n);
      RenderLength(n, 20);
    }
  }

  lemma {:induction false} Nineteen()
    ensures Pow10(19) == 10000000000000000000
  {
    Pow10Twenty();
    assert Pow10(20) == 10 * Pow10(19);
  }

  lemma {:induction false} ValueOfThree(a: char, b: char, c: char)
    requires IsDigit(a) && IsDigit(b) && IsDigit(c)
    ensures Value([a, b, c]) == 100 * DigitValue(a) + 10 * DigitValue(b) + DigitValue(c)
    ensures DigitRun([a, b, c]) == 3
  {
    var s := [a, b, c];
    AllDigits(s);
    assert s[..2] == [a, b] && [a, b][..1] == [a] && [a][..0] == [];
    assert Value([a]) == DigitValue(a);
    assert Value([a, b]) == 10 * Value([a]) + DigitValue(b);
  }

  lemma {:induction false} ThreeDigitsRead(n: nat)
    requires n < 256
    ensures WholeNumber(ThreeDigits(n), U32_MAX) == Some(n) && Clean(ThreeDigits(n))
  {
    hide Value, DigitRun, Digit;
    var s := ThreeDigits(n);
    ValueOfThree(s[0], s[1], s[2]);
    assert s == [s[0], s[1], s[2]];
    assert s[0..] == s && s[..3] == s;
    assert IsDigit(s[0]);
  }

  lemma {:induction false} WholeIsWritable(body: seq<Entry>)
    requires BodyOk(body)
    ensures Writable(Whole(body)) && |Whole(body)| <= 23 && |Texts(Whole(body))| <= MAX_MESSAGE
    ensures forall i :: 0 <= i < |Whole(body)| ==> Small(Whole(body)[i])
  {
    hide Texts, ByteSum, Render, ThreeDigits;
    var es := Whole(body);
    TextsLength(body);
    DigitsAreClean(|Texts(body)|);
    NumbersAreSmall(|Texts(body)|);
    RenderOfNat(|Texts(body)|);
    ThreeDigitsRead(ByteSum(Head(body)) % 256);
    assert forall i :: 2 <= i < |es| - 1 ==> es[i] == body[i - 2];
    assert es[0] == Entry(8, BEGIN_STRING) && es[1].tag == 9 && es[|es| - 1].tag == 10;
    TextsLength(es);
  }

  /** A written message passes every envelope check and parses to its own fields. */
  lemma {:induction false} FramedParses(body: seq<Entry>)
    requires BodyOk(body)
    ensures ParseEnvelope(Framed(body)) == Ok(Placed(Whole(body), 0))
  {
    hide Texts, ByteSum, Tokens, Placed, FromChars, WholeNumber, BodyOk, Writable, Lead, Small;
    var msg, es := Framed(body), Whole(body);
    FramedIsTexts(body);
    WholeIsWritable(body);
    assert msg[0..] == msg;
    NoTags(es);
    TokensOfTexts(msg, 0, es, []);
    var p := Placed(es, 0);
    assert [] + p == p;
    EnvelopeFields(body, p);
  }

  lemma {:induction false} NoTags(es: seq<Entry>)
    ensures forall i :: 0 <= i < |es| ==> !HasTag([], es[i].tag)
  {
  }

  lemma {:induction false} EnvelopeFields(body: seq<Entry>, p: seq<Field>)
    requires BodyOk(body) && p == Placed(Whole(body), 0)
    ensures |p| >= 3 && CheckShape(p).None? && CheckLengthAndSum(Framed(body), p).None? && Framed(body) != []
  {
    hide Texts, ByteSum, Placed, WholeNumber, Text, Render, ThreeDigits;
    var es, n := Whole(body), |body| + 3;
    PlacedAt(es, 0, 0);
    PlacedAt(es, 0, 1);
    PlacedAt(es, 0, 2);
    PlacedAt(es, 0, n - 1);
    assert es[2] == body[0];
    assert es[..2] == Lead(body) && es[..n - 1] == Lead(body) + body;
    TextsJoin(Lead(body), body);
    var length := |Texts(body)|;
    TextsAreSmall(body);
    LengthReads(length);
    ThreeDigitsRead(ByteSum(Head(body)) % 256);
    assert Framed(body)[..|Head(body)|] == Head(body);
    NonEmptyHead(body);
  }

  lemma {:induction false} TextsAreSmall(body: seq<Entry>)
    requires BodyOk(body)
    ensures |Texts(body)| <= 480
  {
    hide Texts;
    TextsLength(body);
  }

  lemma {:induction false} LengthReads(n: nat)
    requires n <= U64_MAX
    ensures WholeNumber(Render(n), U64_MAX) == Some(n)
  {
    hide FromChars, Render;
    ReadRendered(n, 0, U64_MAX);
    RenderOfNat(n);
  }

  lemma {:induction false} NonEmptyHead(body: seq<Entry>)
    ensures Framed(body) != []
  {
    hide ByteSum, Texts;
    TextSize(Entry(10, ThreeDigits(ByteSum(Head(body)) % 256)));
  }

  // ---- Finding the fields again --------------------------------------------------------------

  lemma {:induction false} FindPlaced(es: seq<Entry>, start: nat, i: nat)
    requires i < |es| && forall a, b :: 0 <= a < b < |es| ==> es[a].tag != es[b].tag
    ensures Find(Placed(es, start), es[i].tag) == Some(es[i].value)
    decreases |es|
  {
    hide Text;
    var rest := Placed(es[1..], start + |Text(es[0])|);
    assert Placed(es, start)[1..] == rest;
    if i > 0 {
      FindPlaced(es[1..], start + |Text(es[0])|, i - 1);
    }
  }

  lemma {:induction false} BodyField(body: seq<Entry>, i: nat)
    requires BodyOk(body) && i < |body|
    ensures Find(Placed(Whole(body), 0), body[i].tag) == Some(body[i].value)
  {
    hide Placed, Find, Texts, ByteSum, Lead, BodyOk, Small;
    WholeIsWritable(body);
    assert Whole(body)[i + 2] == body[i] by { LeadSize(body); }
    FindPlaced(Whole(body), 0, i + 2);
  }

  lemma {:induction false} LeadSize(body: seq<Entry>)
    ensures |Lead(body)| == 2
  {
  }

  lemma {:induction false} ReadsBack(p: seq<Field>, tag: nat, n: int, lo: int, hi: int)
    requires Find(p, tag) == Some(RenderInt(n)) && lo <= n <= hi && I64_MIN <= n <= U64_MAX
    ensures RequireInt(p, tag, lo, hi) == Ok(n)
  {
    hide Find, FromChars, RenderInt;
    ReadRendered(n, lo, hi);
    NumbersAreSmall(n);
  }

  predicate OrderOk(o: NewOrder) {
    o.id <= U64_MAX && o.symbol <= U32_MAX && o.quantity <= U32_MAX && I64_MIN <= o.price <= I64_MAX
  }

  predicate CancelOk(c: CancelOrder) {
    c.id <= U64_MAX && c.symbol <= U32_MAX
  }

  lemma {:induction false} OrderBodyOk(o: NewOrder, seqNo: nat)
    requires OrderOk(o) && seqNo <= U64_MAX
    ensures BodyOk(OrderEntries(o, seqNo))
  {
    hide Render, RenderInt;
    NumbersAreSmall(seqNo);
    NumbersAreSmall(o.id);
    NumbersAreSmall(o.symbol);
    NumbersAreSmall(o.quantity);
    NumbersAreSmall(o.price);
    RenderOfNat(seqNo);
    RenderOfNat(o.id);
    RenderOfNat(o.symbol);
    RenderOfNat(o.quantity);
  }

  lemma {:induction false} CancelBodyOk(c: CancelOrder, seqNo: nat)
    requires CancelOk(c) && seqNo <= U64_MAX
    ensures BodyOk(CancelEntries(c, seqNo))
  {
    hide Render, RenderInt;
    NumbersAreSmall(seqNo);
    NumbersAreSmall(c.id);
    NumbersAreSmall(c.symbol);
    RenderOfNat(seqNo);
    RenderOfNat(c.id);
    RenderOfNat(c.symbol);
  }

  /** A new order comes back exactly, over the full range of every field and every sequence number. */
  lemma {:induction false} NewOrderRoundTrip(o: NewOrder, seqNo: nat)
    requires OrderOk(o) && seqNo <= U64_MAX
    ensures DecodeNewOrder(EncodeNewOrder(o, seqNo)) == Ok(o)
    ensures PeekSeq(EncodeNewOrder(o, seqNo)) == Ok(seqNo) && PeekMsgType(EncodeNewOrder(o, seqNo)) == Ok('D')
  {
    hide ParseEnvelope, Framed, Whole, Placed, Find, BodyOk, RequireInt, Render, RenderInt;
    var body := OrderEntries(o, seqNo);
    OrderBodyOk(o, seqNo);
    FramedParses(body);
    var p := Placed(Whole(body), 0);
    BodyField(body, 0);
    BodyField(body, 1);
    BodyField(body, 2);
    BodyField(body, 3);
    BodyField(body, 4);
    BodyField(body, 5);
    BodyField(body, 6);
    BodyField(body, 7);
    BodyField(body, 8);
    RenderOfNat(seqNo);
    RenderOfNat(o.id);
    RenderOfNat(o.symbol);
    RenderOfNat(o.quantity);
    ReadsBack(p, 34, seqNo, 0, U64_MAX);
    ReadsBack(p, 11, o.id, 0, U64_MAX);
    ReadsBack(p, 55, o.symbol, 0, U32_MAX);
    ReadsBack(p, 38, o.quantity, 0, U32_MAX);
    ReadsBack(p, 44, o.price, I64_MIN, I64_MAX);
  }

  lemma {:induction false} CancelRoundTrip(c: CancelOrder, seqNo: nat)
    requires CancelOk(c) && seqNo <= U64_MAX
    ensures DecodeCancelOrder(EncodeCancelOrder(c, seqNo)) == Ok(c)
    ensures PeekSeq(EncodeCancelOrder(c, seqNo)) == Ok(seqNo) && PeekMsgType(EncodeCancelOrder(c, seqNo)) == Ok('F')
  {
    hide ParseEnvelope, Framed, Whole, Placed, Find, BodyOk, RequireInt, Render, RenderInt;
    var body := CancelEntries(c, seqNo);
    CancelBodyOk(c, seqNo);
    FramedParses(body);
    var p := Placed(Whole(body), 0);
    BodyField(body, 0);
    BodyField(body, 1);
    BodyField(body, 2);
    BodyField(body, 3);
    BodyField(body, 4);
    RenderOfNat(seqNo);
    RenderOfNat(c.id);
    RenderOfNat(c.symbol);
    ReadsBack(p, 34, seqNo, 0, U64_MAX);
    ReadsBack(p, 41, c.id, 0, U64_MAX);
    ReadsBack(p, 11, c.id, 0, U64_MAX);
    ReadsBack(p, 55, c.symbol, 0, U32_MAX);
  }

  // ---- What the typed decoders accept --------------------------------------------------------

  /** The field `tag` is a whole decimal number within its range. */
  ghost predicate Says(p: seq<Field>, tag: nat, lo: int, hi: int, n: int) {
    Find(p, tag).Some? && FromChars(Find(p, tag).value, lo, hi) == Read(n, |Find(p, tag).value|)
  }

  lemma {:induction false} RequiredIsSaid(p: seq<Field>, tag: nat, lo: int, hi: int)
    ensures forall n :: RequireInt(p, tag, lo, hi) == Ok(n) <==> Says(p, tag, lo, hi, n)
  {
    hide Find, FromChars;
    if Find(p, tag) == Some([]) {
      NothingRead(lo, hi);
    }
  }

  lemma {:induction false} NothingRead(lo: int, hi: int)
    ensures FromChars([], lo, hi) == NotANumber
  {
  }

  /**
   * A text is a new order exactly when its envelope is sound, its type is D, and every tag of the order holds
   * what the standard says: 11, 55, 38 and 44 whole numbers in range, 54 a side, 40 an order type, 59 a time in force.
   */
  lemma {:induction false} OrderMeans(msg: string, o: NewOrder)
    ensures DecodeNewOrder(msg) == Ok(o) <==>
              && ParseEnvelope(msg).Ok?
              && (var p := ParseEnvelope(msg).value;
                  && Find(p, 35) == Some("D") && (exists seqNo :: Says(p, 34, 0, U64_MAX, seqNo))
                  && Says(p, 11, 0, U64_MAX, o.id) && Says(p, 55, 0, U32_MAX, o.symbol)
                  && Says(p, 38, 0, U32_MAX, o.quantity) && Says(p, 44, I64_MIN, I64_MAX, o.price)
                  && Find(p, 54) == Some(if o.side.Buy? then "1" else "2")
                  && Find(p, 40) == Some(if o.isMarket then "1" else "2")
                  && Find(p, 59) == Some(if o.tif.GTC? then "1" else "3"))
  {
    hide ParseEnvelope, Find, RequireInt, Says, RequireCode;
    if ParseEnvelope(msg).Ok? {
      var p := ParseEnvelope(msg).value;
      RequiredIsSaid(p, 34, 0, U64_MAX);
      RequiredIsSaid(p, 11, 0, U64_MAX);
      RequiredIsSaid(p, 55, 0, U32_MAX);
      RequiredIsSaid(p, 38, 0, U32_MAX);
      RequiredIsSaid(p, 44, I64_MIN, I64_MAX);
      CodeIs(p, 54, '1', '2');
      CodeIs(p, 40, '2', '1');
      CodeIs(p, 59, '1', '3');
      TypeIs(p, 'D');
    }
  }

  lemma {:induction false} CodeIs(p: seq<Field>, tag: nat, first: char, second: char)
    requires first != second
    ensures RequireCode(p, tag, first, second) == Ok(false) <==> Find(p, tag) == Some([first])
    ensures RequireCode(p, tag, first, second) == Ok(true) <==> Find(p, tag) == Some([second])
  {
    hide Find;
    OneCharacter(Find(p, tag));
  }

  lemma {:induction false} OneCharacter(f: Option<string>)
    ensures f.Some? && |f.value| == 1 ==> f == Some([f.value[0]])
  {
    if f.Some? && |f.value| == 1 {
      assert f.value == [f.value[0]];
    }
  }

  lemma {:induction false} TypeIs(p: seq<Field>, kind: char)
    ensures Find(p, 35) == Some([kind])
            <==> Find(p, 35).Some? && |Find(p, 35).value| == 1 && Find(p, 35).value[0] == kind
  {
    hide Find;
    OneCharacter(Find(p, 35));
  }

  /** A text is a cancel exactly when its envelope is sound, its type is F, and 41, 11 and 55 are numbers in range. */
  lemma {:induction false} CancelMeans(msg: string, c: CancelOrder)
    ensures DecodeCancelOrder(msg) == Ok(c) <==>
              && ParseEnvelope(msg).Ok?
              && (var p := ParseEnvelope(msg).value;
                  && Find(p, 35) == Some("F") && (exists seqNo :: Says(p, 34, 0, U64_MAX, seqNo))
                  && Says(p, 41, 0, U64_MAX, c.id) && (exists request :: Says(p, 11, 0, U64_MAX, request))
                  && Says(p, 55, 0, U32_MAX, c.symbol))
  {
    hide ParseEnvelope, Find, RequireInt, Says;
    if ParseEnvelope(msg).Ok? {
      var p := ParseEnvelope(msg).value;
      RequiredIsSaid(p, 34, 0, U64_MAX);
      RequiredIsSaid(p, 41, 0, U64_MAX);
      RequiredIsSaid(p, 11, 0, U64_MAX);
      RequiredIsSaid(p, 55, 0, U32_MAX);
      TypeIs(p, 'F');
    }
  }
}
