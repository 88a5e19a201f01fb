/**
  The wire format of commands: the encoding a client writes, the reader the unmarshaller runs, and the
  proof that the reader accepts exactly the buffers that start with an encoding.
 */
module Wire {
  import opened Types

  datatype ParseError =
    | EmptyBuffer | UnknownTag | BufferUnderflow
    | InvalidSide | InvalidOrderType | InvalidTimeInForce | InvalidOptionFlag

  // ---------------------------------------------------------------- the encoding

  /** The `k` little-endian bytes of `n`. */
  function LittleEndian(n: nat, k: nat): (bytes: seq<u8>)
    ensures |bytes| == k
  {
    if k == 0 then [] else [n % 256] + LittleEndian(n / 256, k - 1)
  }

  function EncodeU64(n: u64): (bytes: seq<u8>)
    ensures |bytes| == 8
  {
    LittleEndian(n, 8)
  }

  function EncodeOption(x: Option<u64>): seq<u8> {
    match x
    case None => [0]
    case Some(n) => [1] + EncodeU64(n)
  }

  function SideByte(side: Side): u8 {
    if side == Buy then 0 else 1
  }

  function OrderTypeByte(orderType: OrderType): u8 {
    if orderType == Limit then 0 else 1
  }

  /** The wire knows three of the five times in force. */
  predicate OnWire(tif: TimeInForce) {
    tif == Gtc || tif == Ioc || tif == Fok
  }

  function TimeInForceByte(tif: TimeInForce): u8 {
    if tif == Gtc then 0 else if tif == Ioc then 1 else 2
  }

  predicate Encodable(cmd: Command) {
    cmd.Place? ==> OnWire(cmd.timeInForce)
  }

  function EncodePlace(cmd: Command): seq<u8>
    requires cmd.Place?
  {
    EncodeU64(cmd.clientId) + (EncodeU64(cmd.clientOrderId) + (cmd.symbol
    + ([SideByte(cmd.side)] + ([OrderTypeByte(cmd.orderType)] + (EncodeOption(cmd.price)
    + (EncodeU64(cmd.quantity) + [TimeInForceByte(cmd.timeInForce)]))))))
  }

  function EncodeModify(cmd: Command): seq<u8>
    requires cmd.Modify?
  {
    EncodeU64(cmd.clientId) + (EncodeU64(cmd.clientOrderId) + (EncodeOption(cmd.newPrice) + EncodeOption(cmd.newQty)))
  }

  function Encode(cmd: Command): seq<u8> {
    match cmd
    case Place(_, _, _, _, _, _, _, _) =>
      [1] + EncodePlace(cmd)
    case Cancel(clientId, clientOrderId) =>
      [2] + (EncodeU64(clientId) + EncodeU64(clientOrderId))
    case Modify(_, _, _, _) =>
      [3] + EncodeModify(cmd)
  }

  // ---------------------------------------------------------------- the reader

  /** A value and the offset after it, or an error. */
  datatype Read<+T> = Value(value: T, off: nat) | Fail(error: ParseError)
  {
    predicate IsFailure() {
      Fail?
    }

    function PropagateFailure<U>(): Read<U>
      requires Fail?
    {
      Fail(error)
    }

    function Extract(): (T, nat)
      requires Value?
    {
      (value, off)
    }
  }

  function ReadU8(buf: seq<u8>, off: nat): Read<u8> {
    if off + 1 > |buf| then Fail(BufferUnderflow) else Value(buf[off], off + 1)
  }

  function FromLittleEndian(bytes: seq<u8>): nat {
    if bytes == [] then 0 else bytes[0] + 256 * FromLittleEndian(bytes[1..])
  }

  function ReadU64(buf: seq<u8>, off: nat): Read<u64> {
    if off + 8 > |buf| then
      Fail(BufferUnderflow)
    else
      FitsU64(buf[off..off + 8]);
      Value(FromLittleEndian(buf[off..off + 8]), off + 8)
  }

  function ReadSymbol(buf: seq<u8>, off: nat): Read<Symbol> {
    if off + 8 > |buf| then Fail(BufferUnderflow) else Value(buf[off..off + 8], off + 8)
  }

  function ReadSide(buf: seq<u8>, off: nat): Read<Side> {
    var (b, off) :- ReadU8(buf, off);
    if b == 0 then Value(Buy, off) else if b == 1 then Value(Sell, off) else Fail(InvalidSide)
  }

  function ReadOrderType(buf: seq<u8>, off: nat): Read<OrderType> {
    var (b, off) :- ReadU8(buf, off);
    if b == 0 then Value(Limit, off) else if b == 1 then Value(Market, off) else Fail(InvalidOrderType)
  }

  function ReadTimeInForce(buf: seq<u8>, off: nat): Read<TimeInForce> {
    var (b, off) :- ReadU8(buf, off);
    if b == 0 then Value(Gtc, off) else if b == 1 then Value(Ioc, off) else if b == 2 then Value(Fok, off)
    else Fail(InvalidTimeInForce)
  }

  function ReadOption(buf: seq<u8>, off: nat): Read<Option<u64>> {
    var (flag, off) :- ReadU8(buf, off);
    if flag == 0 then
      Value(None, off)
    else if flag == 1 then
      var (n, off) :- ReadU64(buf, off);
      Value(Some(n), off)
    else
      Fail(InvalidOptionFlag)
  }

  function ParsePlace(buf: seq<u8>, off: nat): Read<Command> {
    var (clientId, off) :- ReadU64(buf, off);
    var (clientOrderId, off) :- ReadU64(buf, off);
    var (symbol, off) :- ReadSymbol(buf, off);
    var (side, off) :- ReadSide(buf, off);
    var (orderType, off) :- ReadOrderType(buf, off);
    var (price, off) :- ReadOption(buf, off);
    var (quantity, off) :- ReadU64(buf, off);
    var (timeInForce, off) :- ReadTimeInForce(buf, off);
    Value(Place(clientId, clientOrderId, symbol, side, orderType, price, quantity, timeInForce), off)
  }

  function ParseCancel(buf: seq<u8>, off: nat): Read<Command> {
    var (clientId, off) :- ReadU64(buf, off);
    var (clientOrderId, off) :- ReadU64(buf, off);
    Value(Cancel(clientId, clientOrderId), off)
  }

  function ParseModify(buf: seq<u8>, off: nat): Read<Command> {
    var (clientId, off) :- ReadU64(buf, off);
    var (clientOrderId, off) :- ReadU64(buf, off);
    var (newPrice, off) :- ReadOption(buf, off);
    var (newQty, off) :- ReadOption(buf, off);
    Value(Modify(clientId, clientOrderId, newPrice, newQty), off)
  }

  function ParseTagged(buf: seq<u8>): Read<Command> {
    if buf == [] then Fail(EmptyBuffer)
    else if buf[0] == 1 then ParsePlace(buf, 1)
    else if buf[0] == 2 then ParseCancel(buf, 1)
    else if buf[0] == 3 then ParseModify(buf, 1)
    else Fail(UnknownTag)
  }

  function Parse(buf: seq<u8>): Result<Command, ParseError> {
    match ParseTagged(buf)
    case Value(cmd, _) => Ok(cmd)
    case Fail(error) => Err(error)
  }

  // ---------------------------------------------------------------- little-endian integers

  function Pow256(k: nat): nat {
    if k == 0 then 1 else 256 * Pow256(k - 1)
  }

  lemma {:induction false} Fits(bytes: seq<u8>)
    ensures FromLittleEndian(bytes) < Pow256(|bytes|)
  {
    if bytes != [] {
      Fits(bytes[1..]);
    }
  }

  lemma FitsU64(bytes: seq<u8>)
    requires |bytes| == 8
    ensures FromLittleEndian(bytes) < 0x1_0000_0000_0000_0000
  {
    Fits(bytes);
    assert Pow256(8) == 0x1_0000_0000_0000_0000;
  }

  lemma {:induction false} BytesOfNumber(n: nat, k: nat)
    requires n < Pow256(k)
    ensures FromLittleEndian(LittleEndian(n, k)) == n
  {
    if k > 0 {
      BytesOfNumber(n / 256, k - 1);
    }
  }

  lemma {:induction false} NumberOfBytes(bytes: seq<u8>)
    ensures LittleEndian(FromLittleEndian(bytes), |bytes|) == bytes
  {
    if bytes != [] {
      NumberOfBytes(bytes[1..]);
      assert FromLittleEndian(bytes) / 256 == FromLittleEndian(bytes[1..]);
      assert [bytes[0]] + bytes[1..] == bytes;
    }
  }

  // ---------------------------------------------------------------- each field, both ways

  /** `bytes` stands at `off` in `buf`. */
  predicate At(buf: seq<u8>, off: nat, bytes: seq<u8>) {
    off + |bytes| <= |buf| && buf[off..off + |bytes|] == bytes
  }

  lemma AtConcat(buf: seq<u8>, off: nat, a: seq<u8>, b: seq<u8>)
    ensures At(buf, off, a + b) <==> At(buf, off, a) && At(buf, off + |a|, b)
  {
    if off + |a + b| <= |buf| {
      assert buf[off..off + |a + b|] == buf[off..off + |a|] + buf[off + |a|..off + |a| + |b|];
      if At(buf, off, a + b) {
        assert buf[off..off + |a|] == (a + b)[..|a|];
        assert buf[off + |a|..off + |a| + |b|] == (a + b)[|a|..];
      }
    }
  }

  lemma U64Reads(buf: seq<u8>, off: nat, n: u64)
    requires At(buf, off, EncodeU64(n))
    ensures ReadU64(buf, off) == Value(n, off + 8)
  {
    assert Pow256(8) == 0x1_0000_0000_0000_0000;
    BytesOfNumber(n, 8);
  }

  lemma U64Read(buf: seq<u8>, off: nat)
    requires ReadU64(buf, off).Value?
    ensures ReadU64(buf, off).off == off + 8 && At(buf, off, EncodeU64(ReadU64(buf, off).value))
  {
    NumberOfBytes(buf[off..off + 8]);
  }

  lemma OptionReads(buf: seq<u8>, off: nat, x: Option<u64>)
    requires At(buf, off, EncodeOption(x))
    ensures ReadOption(buf, off) == Value(x, off + |EncodeOption(x)|)
  {
    hide ReadU64, EncodeU64;
    assert buf[off] == buf[off..off + |EncodeOption(x)|][0] == EncodeOption(x)[0];
    match x
    case None =>
    case Some(n) =>
      AtConcat(buf, off, [1], EncodeU64(n));
      U64Reads(buf, off + 1, n);
  }

  lemma OptionRead(buf: seq<u8>, off: nat)
    requires ReadOption(buf, off).Value?
    ensures var r := ReadOption(buf, off);
            r.off == off + |EncodeOption(r.value)| && At(buf, off, EncodeOption(r.value))
  {
    hide ReadU64, EncodeU64;
    if buf[off] == 1 {
      U64Read(buf, off + 1);
      AtConcat(buf, off, [1], EncodeU64(ReadU64(buf, off + 1).value));
    }
  }

  // ---------------------------------------------------------------- whole commands, both ways

  lemma PlaceReads(buf: seq<u8>, off: nat, cmd: Command)
    requires cmd.Place? && Encodable(cmd) && At(buf, off, EncodePlace(cmd))
    ensures ParsePlace(buf, off) == Value(cmd, off + |EncodePlace(cmd)|)
  {
    hide ReadU64, EncodeU64, At, ReadOption, EncodeOption;
    var tif := [TimeInForceByte(cmd.timeInForce)];
    var qty := EncodeU64(cmd.quantity) + tif;
    var price := EncodeOption(cmd.price) + qty;
    var kind := [OrderTypeByte(cmd.orderType)] + price;
    var side := [SideByte(cmd.side)] + kind;
    var symbol := cmd.symbol + side;
    var ids := EncodeU64(cmd.clientOrderId) + symbol;
    AtConcat(buf, off, EncodeU64(cmd.clientId), ids);
    AtConcat(buf, off + 8, EncodeU64(cmd.clientOrderId), symbol);
    AtConcat(buf, off + 16, cmd.symbol, side);
    AtConcat(buf, off + 24, [SideByte(cmd.side)], kind);
    AtConcat(buf, off + 25, [OrderTypeByte(cmd.orderType)], price);
    AtConcat(buf, off + 26, EncodeOption(cmd.price), qty);
    var n := off + 26 + |EncodeOption(cmd.price)|;
    AtConcat(buf, n, EncodeU64(cmd.quantity), tif);
    U64Reads(buf, off, cmd.clientId);
    U64Reads(buf, off + 8, cmd.clientOrderId);
    SymbolReads(buf, off + 16, cmd.symbol);
    BytesRead(buf, off + 24, cmd.side, cmd.orderType);
    OptionReads(buf, off + 26, cmd.price);
    U64Reads(buf, n, cmd.quantity);
    TimeInForceReads(buf, n + 8, cmd.timeInForce);
  }

  lemma SymbolReads(buf: seq<u8>, off: nat, symbol: Symbol)
    requires At(buf, off, symbol)
    ensures ReadSymbol(buf, off) == Value(symbol, off + 8)
  {
  }

  lemma BytesRead(buf: seq<u8>, off: nat, side: Side, orderType: OrderType)
    requires At(buf, off, [SideByte(side)]) && At(buf, off + 1, [OrderTypeByte(orderType)])
    ensures ReadSide(buf, off) == Value(side, off + 1)
    ensures ReadOrderType(buf, off + 1) == Value(orderType, off + 2)
  {
    assert buf[off] == buf[off..off + 1][0] && buf[off + 1] == buf[off + 1..off + 2][0];
  }

  lemma TimeInForceReads(buf: seq<u8>, off: nat, tif: TimeInForce)
    requires OnWire(tif) && At(buf, off, [TimeInForceByte(tif)])
    ensures ReadTimeInForce(buf, off) == Value(tif, off + 1)
  {
    assert buf[off] == buf[off..off + 1][0];
  }

  lemma PlaceRead(buf: seq<u8>, off: nat)
    requires ParsePlace(buf, off).Value?
    ensures var cmd := ParsePlace(buf, off).value;
            cmd.Place? && Encodable(cmd) && At(buf, off, EncodePlace(cmd))
  {
    hide ReadU64, EncodeU64, At, ReadOption, EncodeOption, ReadSide, ReadOrderType, ReadTimeInForce, ReadSymbol,
         SideByte, OrderTypeByte, TimeInForceByte, OnWire;
    var cmd := ParsePlace(buf, off).value;
    U64Read(buf, off);
    U64Read(buf, off + 8);
    SymbolRead(buf, off + 16);
    SideRead(buf, off + 24);
    OrderTypeRead(buf, off + 25);
    OptionRead(buf, off + 26);
    var n := ReadOption(buf, off + 26).off;
    U64Read(buf, n);
    TimeInForceRead(buf, n + 8);
    var tif := [TimeInForceByte(cmd.timeInForce)];
    var qty := EncodeU64(cmd.quantity) + tif;
    var price := EncodeOption(cmd.price) + qty;
    var kind := [OrderTypeByte(cmd.orderType)] + price;
    var side := [SideByte(cmd.side)] + kind;
    var symbol := cmd.symbol + side;
    AtConcat(buf, n, EncodeU64(cmd.quantity), tif);
    AtConcat(buf, off + 26, EncodeOption(cmd.price), qty);
    AtConcat(buf, off + 25, [OrderTypeByte(cmd.orderType)], price);
    AtConcat(buf, off + 24, [SideByte(cmd.side)], kind);
    AtConcat(buf, off + 16, cmd.symbol, side);
    AtConcat(buf, off + 8, EncodeU64(cmd.clientOrderId), symbol);
    AtConcat(buf, off, EncodeU64(cmd.clientId), EncodeU64(cmd.clientOrderId) + symbol);
  }

  lemma SymbolRead(buf: seq<u8>, off: nat)
    requires ReadSymbol(buf, off).Value?
    ensures ReadSymbol(buf, off).off == off + 8 && At(buf, off, ReadSymbol(buf, off).value)
  {
  }

  lemma SideRead(buf: seq<u8>, off: nat)
    requires ReadSide(buf, off).Value?
    ensures ReadSide(buf, off).off == off + 1 && At(buf, off, [SideByte(ReadSide(buf, off).value)])
  {
  }

  lemma OrderTypeRead(buf: seq<u8>, off: nat)
    requires ReadOrderType(buf, off).Value?
    ensures ReadOrderType(buf, off).off == off + 1 && At(buf, off, [OrderTypeByte(ReadOrderType(buf, off).value)])
  {
  }

  lemma TimeInForceRead(buf: seq<u8>, off: nat)
    requires ReadTimeInForce(buf, off).Value?
    ensures OnWire(ReadTimeInForce(buf, off).value)
    ensures At(buf, off, [TimeInForceByte(ReadTimeInForce(buf, off).value)])
  {
  }

  lemma CancelReads(buf: seq<u8>, off: nat, cmd: Command)
    requires cmd.Cancel? && At(buf, off, EncodeU64(cmd.clientId) + EncodeU64(cmd.clientOrderId))
    ensures ParseCancel(buf, off) == Value(cmd, off + 16)
  {
    hide ReadU64, EncodeU64, At;
    AtConcat(buf, off, EncodeU64(cmd.clientId), EncodeU64(cmd.clientOrderId));
    U64Reads(buf, off, cmd.clientId);
    U64Reads(buf, off + 8, cmd.clientOrderId);
  }

  lemma CancelRead(buf: seq<u8>, off: nat)
    requires ParseCancel(buf, off).Value?
    ensures var cmd := ParseCancel(buf, off).value;
            cmd.Cancel? && At(buf, off, EncodeU64(cmd.clientId) + EncodeU64(cmd.clientOrderId))
  {
    hide ReadU64, EncodeU64, At;
    U64Read(buf, off);
    U64Read(buf, off + 8);
    var cmd := ParseCancel(buf, off).value;
    AtConcat(buf, off, EncodeU64(cmd.clientId), EncodeU64(cmd.clientOrderId));
  }

  lemma ModifyParts(buf: seq<u8>, off: nat, cmd: Command)
    requires cmd.Modify?
    ensures At(buf, off, EncodeModify(cmd)) <==>
            && At(buf, off, EncodeU64(cmd.clientId)) && At(buf, off + 8, EncodeU64(cmd.clientOrderId))
            && At(buf, off + 16, EncodeOption(cmd.newPrice))
            && At(buf, off + 16 + |EncodeOption(cmd.newPrice)|, EncodeOption(cmd.newQty))
  {
    hide EncodeU64, At, EncodeOption;
    AtConcat(buf, off + 16, EncodeOption(cmd.newPrice), EncodeOption(cmd.newQty));
    AtConcat(buf, off + 8, EncodeU64(cmd.clientOrderId), EncodeOption(cmd.newPrice) + EncodeOption(cmd.newQty));
    AtConcat(buf, off, EncodeU64(cmd.clientId),
             EncodeU64(cmd.clientOrderId) + (EncodeOption(cmd.newPrice) + EncodeOption(cmd.newQty)));
  }

  lemma ModifyReads(buf: seq<u8>, off: nat, cmd: Command)
    requires cmd.Modify? && At(buf, off, EncodeModify(cmd))
    ensures ParseModify(buf, off).Value? && ParseModify(buf, off).value == cmd
  {
    hide ReadU64, EncodeU64, At, ReadOption, EncodeOption;
    ModifyParts(buf, off, cmd);
    U64Reads(buf, off, cmd.clientId);
    U64Reads(buf, off + 8, cmd.clientOrderId);
    OptionReads(buf, off + 16, cmd.newPrice);
    OptionReads(buf, off + 16 + |EncodeOption(cmd.newPrice)|, cmd.newQty);
  }

  lemma ModifyRead(buf: seq<u8>, off: nat)
    requires ParseModify(buf, off).Value?
    ensures var cmd := ParseModify(buf, off).value; cmd.Modify? && At(buf, off, EncodeModify(cmd))
  {
    hide ReadU64, EncodeU64, At, ReadOption, EncodeOption;
    U64Read(buf, off);
    U64Read(buf, off + 8);
    OptionRead(buf, off + 16);
    OptionRead(buf, ReadOption(buf, off + 16).off);
    ModifyParts(buf, off, ParseModify(buf, off).value);
  }

  lemma PrefixAt(buf: seq<u8>, tag: u8, body: seq<u8>)
    ensures [tag] + body <= buf <==> buf != [] && buf[0] == tag && At(buf, 1, body)
  {
    if [tag] + body <= buf {
      assert buf[1..1 + |body|] == ([tag] + body)[1..];
    }
    if buf != [] && buf[0] == tag && At(buf, 1, body) {
      assert buf[..1 + |body|] == [tag] + buf[1..1 + |body|];
    }
  }

  /** The reader accepts exactly the buffers that start with the encoding of a command, whatever
      follows it, and returns that command. */
  lemma ParseIffEncoded(buf: seq<u8>, cmd: Command)
    ensures Parse(buf) == Ok(cmd) <==> Encodable(cmd) && Encode(cmd) <= buf
  {
    hide ParsePlace, ParseCancel, ParseModify, EncodePlace, EncodeU64, EncodeOption, At;
    if Parse(buf) == Ok(cmd) {
      if buf[0] == 1 { PlaceRead(buf, 1); } else if buf[0] == 2 { CancelRead(buf, 1); } else { ModifyRead(buf, 1); }
    }
    match cmd
    case Place(_, _, _, _, _, _, _, _) =>
      PrefixAt(buf, 1, EncodePlace(cmd));
      if Encodable(cmd) && Encode(cmd) <= buf { PlaceReads(buf, 1, cmd); }
    case Cancel(clientId, clientOrderId) =>
      PrefixAt(buf, 2, EncodeU64(clientId) + EncodeU64(clientOrderId));
      if Encode(cmd) <= buf { CancelReads(buf, 1, cmd); }
    case Modify(_, _, _, _) =>
      PrefixAt(buf, 3, EncodeModify(cmd));
      if Encode(cmd) <= buf { ModifyReads(buf, 1, cmd); }
  }

  /** What a client encodes is what the engine gets. */
  lemma RoundTrip(cmd: Command, rest: seq<u8>)
    requires Encodable(cmd)
    ensures Parse(Encode(cmd) + rest) == Ok(cmd)
  {
    ParseIffEncoded(Encode(cmd) + rest, cmd);
    hide Encode, Parse;
  }

  /** No encoding is a proper prefix of another: a buffer holds at most one command. */
  lemma PrefixFree(a: Command, b: Command)
    requires Encodable(a) && Encodable(b) && Encode(a) <= Encode(b)
    ensures a == b
  {
    ParseIffEncoded(Encode(b), a);
    ParseIffEncoded(Encode(b), b);
    hide Encode, Parse;
  }

  // ---------------------------------------------------------------- truncation

  /** A slot of the input ring has room for 256 bytes. */
  const SLOT_BYTES: nat := 256

  /** The first 256 bytes of a message, or all of it. */
  function Truncated(raw: seq<u8>): (kept: seq<u8>)
    ensures kept <= raw && |kept| == if |raw| < 256 then |raw| else 256
  {
    if |raw| <= SLOT_BYTES then raw else raw[..SLOT_BYTES]
  }

  lemma FieldsAgree(buf: seq<u8>, buf': seq<u8>, off: nat)
    requires |buf| >= SLOT_BYTES && buf' == buf[..SLOT_BYTES] && off + 9 <= SLOT_BYTES
    ensures ReadU8(buf', off) == ReadU8(buf, off)
    ensures ReadU64(buf', off) == ReadU64(buf, off)
    ensures ReadSymbol(buf', off) == ReadSymbol(buf, off)
    ensures ReadSide(buf', off) == ReadSide(buf, off)
    ensures ReadOrderType(buf', off) == ReadOrderType(buf, off)
    ensures ReadTimeInForce(buf', off) == ReadTimeInForce(buf, off)
    ensures ReadOption(buf', off) == ReadOption(buf, off)
    ensures ReadU64(buf, off).Value? ==> ReadU64(buf, off).off == off + 8
    ensures ReadSymbol(buf, off).Value? ==> ReadSymbol(buf, off).off == off + 8
    ensures ReadSide(buf, off).Value? ==> ReadSide(buf, off).off == off + 1
    ensures ReadOrderType(buf, off).Value? ==> ReadOrderType(buf, off).off == off + 1
    ensures ReadOption(buf, off).Value? ==> ReadOption(buf, off).off <= off + 9
  {
    assert buf'[off..off + 8] == buf[off..off + 8];
    assert buf'[off + 1..off + 9] == buf[off + 1..off + 9];
  }

  /** Cutting a message to the size of a slot changes neither the command read nor the error. */
  lemma TruncationHarmless(raw: seq<u8>)
    ensures Parse(Truncated(raw)) == Parse(raw)
  {
    hide ReadU64, ReadSymbol, ReadSide, ReadOrderType, ReadTimeInForce, ReadOption;
    if |raw| > SLOT_BYTES {
      var cut := Truncated(raw);
      FieldsAgree(raw, cut, 1);
      FieldsAgree(raw, cut, 9);
      FieldsAgree(raw, cut, 17);
      FieldsAgree(raw, cut, 25);
      FieldsAgree(raw, cut, 26);
      FieldsAgree(raw, cut, 27);
      if ReadOption(raw, 27).Value? {
        FieldsAgree(raw, cut, ReadOption(raw, 27).off);
        FieldsAgree(raw, cut, ReadOption(raw, 27).off + 8);
      }
      if ReadOption(raw, 17).Value? {
        FieldsAgree(raw, cut, ReadOption(raw, 17).off);
      }
    }
  }

  // ---------------------------------------------------------------- the cursor

  /** A method's result `r`, and the cursor it leaves at `off`, are those of the reading function. */
  ghost predicate Did<T>(read: Read<T>, r: Result<T, ParseError>, off: nat) {
    match read
    case Value(value, next) => r == Ok(value) && off == next
    case Fail(error) => r == Err(error)
  }

  /** The unmarshaller's reader: a buffer and a cursor that each read moves forward. */
  class Cursor {
    const buf: seq<u8>
    var off: nat

    constructor (buf: seq<u8>)
      ensures this.buf == buf && off == 0
    {
      this.buf := buf;
      off := 0;
    }

    method NextU8() returns (r: Result<u8, ParseError>)
      modifies this
      ensures Did(ReadU8(buf, old(off)), r, off)
    {
      if off + 1 > |buf| {
        return Err(BufferUnderflow);
      }
      var v := buf[off];
      off := off + 1;
      return Ok(v);
    }

    method NextU64() returns (r: Result<u64, ParseError>)
      modifies this
      ensures Did(ReadU64(buf, old(off)), r, off)
    {
      if off + 8 > |buf| {
        return Err(BufferUnderflow);
      }
      var bytes := buf[off..off + 8];
      off := off + 8;
      FitsU64(bytes);
      return Ok(FromLittleEndian(bytes));
    }

    method NextSymbol() returns (r: Result<Symbol, ParseError>)
      modifies this
      ensures Did(ReadSymbol(buf, old(off)), r, off)
    {
      if off + 8 > |buf| {
        return Err(BufferUnderflow);
      }
      var bytes := buf[off..off + 8];
      off := off + 8;
      return Ok(bytes);
    }

    method NextSide() returns (r: Result<Side, ParseError>)
      modifies this
      ensures Did(ReadSide(buf, old(off)), r, off)
    {
      var b :- NextU8();
      return if b == 0 then Ok(Buy) else if b == 1 then Ok(Sell) else Err(InvalidSide);
    }

    method NextOrderType() returns (r: Result<OrderType, ParseError>)
      modifies this
      ensures Did(ReadOrderType(buf, old(off)), r, off)
    {
      var b :- NextU8();
      return if b == 0 then Ok(Limit) else if b == 1 then Ok(Market) else Err(InvalidOrderType);
    }

    method NextTimeInForce() returns (r: Result<TimeInForce, ParseError>)
      modifies this
      ensures Did(ReadTimeInForce(buf, old(off)), r, off)
    {
      var b :- NextU8();
      return if b == 0 then Ok(Gtc)
             else if b == 1 then Ok(Ioc)
             else if b == 2 then Ok(Fok)
             else Err(InvalidTimeInForce);
    }

    method NextOption() returns (r: Result<Option<u64>, ParseError>)
      modifies this
      ensures Did(ReadOption(buf, old(off)), r, off)
    {
      var flag :- NextU8();
      if flag == 0 {
        return Ok(None);
      }
      if flag != 1 {
        return Err(InvalidOptionFlag);
      }
      var n :- NextU64();
      return Ok(Some(n));
    }

    method NextPlace() returns (r: Result<Command, ParseError>)
      modifies this
      ensures Did(ParsePlace(buf, old(off)), r, off)
    {
      hide ReadU64, ReadSymbol, ReadSide, ReadOrderType, ReadTimeInForce, ReadOption;
      var clientId :- NextU64();
      var clientOrderId :- NextU64();
      var symbol :- NextSymbol();
      var side :- NextSide();
      var orderType :- NextOrderType();
      var price :- NextOption();
      var quantity :- NextU64();
      var timeInForce :- NextTimeInForce();
      return Ok(Place(clientId, clientOrderId, symbol, side, orderType, price, quantity, timeInForce));
    }

    method NextCancel() returns (r: Result<Command, ParseError>)
      modifies this
      ensures Did(ParseCancel(buf, old(off)), r, off)
    {
      hide ReadU64;
      var clientId :- NextU64();
      var clientOrderId :- NextU64();
      return Ok(Cancel(clientId, clientOrderId));
    }

    method NextModify() returns (r: Result<Command, ParseError>)
      modifies this
      ensures Did(ParseModify(buf, old(off)), r, off)
    {
      hide ReadU64, ReadOption;
      var clientId :- NextU64();
      var clientOrderId :- NextU64();
      var newPrice :- NextOption();
      var newQty :- NextOption();
      return Ok(Modify(clientId, clientOrderId, newPrice, newQty));
    }
  }

  method ParseCommand(buf: seq<u8>) returns (r: Result<Command, ParseError>)
    ensures r == Parse(buf)
    ensures r.Ok? ==> Encodable(r.value) && Encode(r.value) <= buf
    ensures r.Err? ==> forall cmd | Encodable(cmd) :: !(Encode(cmd) <= buf)
  {
    hide ParsePlace, ParseCancel, ParseModify, Encode;
    forall cmd: Command
      ensures Parse(buf) == Ok(cmd) <==> Encodable(cmd) && Encode(cmd) <= buf
    {
      ParseIffEncoded(buf, cmd);
    }
    if buf == [] {
      return Err(EmptyBuffer);
    }
    var tag := buf[0];
    var cursor := new Cursor(buf);
    cursor.off := 1;
    if tag == 1 {
      r := cursor.NextPlace();
    } else if tag == 2 {
      r := cursor.NextCancel();
    } else if tag == 3 {
      r := cursor.NextModify();
    } else {
      r := Err(UnknownTag);
    }
  }
}
