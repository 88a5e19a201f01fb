/**
  The wire format byte by byte and in numbers: what every buffer parses to, and what every encoding holds.
 */
module WireLayout {
  import opened Types
  import opened Wire

  /** The unsigned 64-bit number that starts at `at`, least significant byte first. */
  function Number(buf: seq<u8>, at: nat): (n: nat)
    requires at + 8 <= |buf|
    ensures n < 0x1_0000_0000_0000_0000
  {
    (buf[at] as int) + (buf[at + 1] as int) * 0x100 + (buf[at + 2] as int) * 0x1_0000
    + (buf[at + 3] as int) * 0x100_0000 + (buf[at + 4] as int) * 0x1_0000_0000
    + (buf[at + 5] as int) * 0x100_0000_0000 + (buf[at + 6] as int) * 0x1_0000_0000_0000
    + (buf[at + 7] as int) * 0x100_0000_0000_0000
  }

  lemma OneByte(buf: seq<u8>, at: nat, k: nat)
    requires 1 <= k && at + k <= |buf|
    ensures FromLittleEndian(buf[at..at + k]) == buf[at] + 256 * FromLittleEndian(buf[at + 1..at + k])
  {
    assert buf[at..at + k][1..] == buf[at + 1..at + k];
  }

  /** A field of eight bytes reads as its number, or is cut short. */
  lemma NumberRead(buf: seq<u8>, at: nat)
    ensures ReadU64(buf, at) == if at + 8 <= |buf| then Value(Number(buf, at), at + 8) else Fail(BufferUnderflow)
  {
    if at + 8 <= |buf| {
      EightBytes(buf, at);
      hide FromLittleEndian, Number;
    }
  }

  lemma EightBytes(buf: seq<u8>, at: nat)
    requires at + 8 <= |buf|
    ensures FromLittleEndian(buf[at..at + 8]) == Number(buf, at)
  {
    hide FromLittleEndian;
    OneByte(buf, at, 8);
    OneByte(buf, at + 1, 7);
    OneByte(buf, at + 2, 6);
    OneByte(buf, at + 3, 5);
    OneByte(buf, at + 4, 4);
    OneByte(buf, at + 5, 3);
    OneByte(buf, at + 6, 2);
    OneByte(buf, at + 7, 1);
    NoBytes(buf, at + 8);
  }

  lemma NoBytes(buf: seq<u8>, at: nat)
    requires at <= |buf|
    ensures FromLittleEndian(buf[at..at]) == 0
  {
  }

  /** An optional number: a flag of 0, or a flag of 1 and the number. */
  lemma OptionalRead(buf: seq<u8>, at: nat)
    ensures ReadOption(buf, at) ==
            if at >= |buf| then Fail(BufferUnderflow)
            else if buf[at] == 0 then Value(None, at + 1)
            else if buf[at] != 1 then Fail(InvalidOptionFlag)
            else if at + 9 <= |buf| then Value(Some(Number(buf, at + 1)), at + 9)
            else Fail(BufferUnderflow)
  {
    NumberRead(buf, at + 1);
    hide Number, ReadU64;
  }

  /** What a buffer that starts with 1 parses to, or the first error in it. */
  function PlaceAt(buf: seq<u8>): Result<Command, ParseError> {
    var p := if |buf| > 27 && buf[27] == 1 then 36 else 28;
    if |buf| < 26 then Err(BufferUnderflow)
    else if buf[25] > 1 then Err(InvalidSide)
    else if |buf| < 27 then Err(BufferUnderflow)
    else if buf[26] > 1 then Err(InvalidOrderType)
    else if |buf| < 28 then Err(BufferUnderflow)
    else if buf[27] > 1 then Err(InvalidOptionFlag)
    else if |buf| < p + 9 then Err(BufferUnderflow)
    else if buf[p + 8] > 2 then Err(InvalidTimeInForce)
    else
      Ok(Place(clientId := Number(buf, 1),
               clientOrderId := Number(buf, 9),
               symbol := buf[17..25],
               side := if buf[25] == 0 then Buy else Sell,
               orderType := if buf[26] == 0 then Limit else Market,
               price := if buf[27] == 0 then None else Some(Number(buf, 28)),
               quantity := Number(buf, p),
               timeInForce := if buf[p + 8] == 0 then Gtc else if buf[p + 8] == 1 then Ioc else Fok))
  }

  /** What a buffer that starts with 2 parses to. */
  function CancelAt(buf: seq<u8>): Result<Command, ParseError> {
    if |buf| < 17 then Err(BufferUnderflow)
    else Ok(Cancel(clientId := Number(buf, 1), clientOrderId := Number(buf, 9)))
  }

  /** What a buffer that starts with 3 parses to, or the first error in it. */
  function ModifyAt(buf: seq<u8>): Result<Command, ParseError> {
    var p := if |buf| > 17 && buf[17] == 1 then 26 else 18;
    if |buf| < 18 then Err(BufferUnderflow)
    else if buf[17] > 1 then Err(InvalidOptionFlag)
    else if |buf| < p + 1 then Err(BufferUnderflow)
    else if buf[p] > 1 then Err(InvalidOptionFlag)
    else if buf[p] == 1 && |buf| < p + 9 then Err(BufferUnderflow)
    else
      Ok(Modify(clientId := Number(buf, 1),
                clientOrderId := Number(buf, 9),
                newPrice := if buf[17] == 0 then None else Some(Number(buf, 18)),
                newQty := if buf[p] == 0 then None else Some(Number(buf, p + 1))))
  }

  lemma PlaceIs(buf: seq<u8>)
    requires buf != [] && buf[0] == 1
    ensures Parse(buf) == PlaceAt(buf)
  {
    NumberRead(buf, 1);
    NumberRead(buf, 9);
    OptionalRead(buf, 27);
    NumberRead(buf, 28);
    NumberRead(buf, 36);
    hide Number, ReadU64, ReadOption;
  }

  lemma CancelIs(buf: seq<u8>)
    requires buf != [] && buf[0] == 2
    ensures Parse(buf) == CancelAt(buf)
  {
    NumberRead(buf, 1);
    NumberRead(buf, 9);
    hide Number, ReadU64;
  }

  lemma ModifyIs(buf: seq<u8>)
    requires buf != [] && buf[0] == 3
    ensures Parse(buf) == ModifyAt(buf)
  {
    NumberRead(buf, 1);
    NumberRead(buf, 9);
    OptionalRead(buf, 17);
    OptionalRead(buf, 18);
    OptionalRead(buf, 26);
    hide Number, ReadU64, ReadOption;
  }

  /** What every buffer parses to, by its bytes: the first byte tells the command, the numbers are eight
      bytes with the least significant first, and each error is the first there is. */
  lemma ParsedBytes(buf: seq<u8>)
    ensures Parse(buf) ==
            if buf == [] then Err(EmptyBuffer)
            else if buf[0] == 1 then PlaceAt(buf)
            else if buf[0] == 2 then CancelAt(buf)
            else if buf[0] == 3 then ModifyAt(buf)
            else Err(UnknownTag)
  {
    if buf != [] {
      if buf[0] == 1 { PlaceIs(buf); }
      if buf[0] == 2 { CancelIs(buf); }
      if buf[0] == 3 { ModifyIs(buf); }
    }
  }

  /** How long an encoding is, and its tag. */
  lemma EncodingSize(cmd: Command)
    ensures |Encode(cmd)| ==
            match cmd
            case Place(_, _, _, _, _, price, _, _) => if price.Some? then 45 else 37
            case Cancel(_, _) => 17
            case Modify(_, _, price, qty) =>
              (if price.Some? then 26 else 18) + if qty.Some? then 9 else 1
    ensures Encode(cmd)[0] == if cmd.Place? then 1 else if cmd.Cancel? then 2 else 3
  {
    hide EncodeU64;
  }

  /** The bytes of an encoded place. */
  lemma EncodedPlace(cmd: Command)
    requires cmd.Place? && Encodable(cmd)
    ensures var buf, p := Encode(cmd), if cmd.price.Some? then 36 else 28;
            && |buf| == p + 9 && buf[0] == 1
            && Number(buf, 1) == cmd.clientId && Number(buf, 9) == cmd.clientOrderId && buf[17..25] == cmd.symbol
            && buf[25] == (if cmd.side == Buy then 0 else 1)
            && buf[26] == (if cmd.orderType == Limit then 0 else 1)
            && buf[27] == (if cmd.price.Some? then 1 else 0)
            && (cmd.price.Some? ==> Number(buf, 28) == cmd.price.value)
            && Number(buf, p) == cmd.quantity
            && buf[p + 8] == (if cmd.timeInForce == Gtc then 0 else if cmd.timeInForce == Ioc then 1 else 2)
  {
    hide Encode, Parse, Number;
    var buf := Encode(cmd);
    EncodingSize(cmd);
    RoundTrip(cmd, []);
    assert buf + [] == buf;
    PlaceIs(buf);
  }

  /** The bytes of an encoded cancel. */
  lemma EncodedCancel(cmd: Command)
    requires cmd.Cancel?
    ensures var buf := Encode(cmd);
            && |buf| == 17 && buf[0] == 2
            && Number(buf, 1) == cmd.clientId && Number(buf, 9) == cmd.clientOrderId
  {
    hide Encode, Parse, Number;
    var buf := Encode(cmd);
    EncodingSize(cmd);
    RoundTrip(cmd, []);
    assert buf + [] == buf;
    CancelIs(buf);
  }

  /** The bytes of an encoded modify. */
  lemma EncodedModify(cmd: Command)
    requires cmd.Modify?
    ensures var buf, p := Encode(cmd), if cmd.newPrice.Some? then 26 else 18;
            && |buf| == (if cmd.newQty.Some? then p + 9 else p + 1) && buf[0] == 3
            && Number(buf, 1) == cmd.clientId && Number(buf, 9) == cmd.clientOrderId
            && buf[17] == (if cmd.newPrice.Some? then 1 else 0)
            && (cmd.newPrice.Some? ==> Number(buf, 18) == cmd.newPrice.value)
            && buf[p] == (if cmd.newQty.Some? then 1 else 0)
            && (cmd.newQty.Some? ==> Number(buf, p + 1) == cmd.newQty.value)
  {
    hide Encode, Parse, Number;
    var buf := Encode(cmd);
    EncodingSize(cmd);
    RoundTrip(cmd, []);
    assert buf + [] == buf;
    ModifyIs(buf);
  }
}
