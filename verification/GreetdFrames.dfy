/**
  Frames of the greetd protocol: a length in four bytes, least significant first, then JSON.  What
  arrives is cut into pieces anywhere, and may stop at any point.
*/
module GreetdFrames {
  import opened Wrappers
  import opened JsonValues

  type Byte = x: int | 0 <= x < 256
  type Message = map<string, Json>

  // What recv meets next: bytes (none of them means the other side closed), or an error.
  datatype Arrival = Data(bytes: seq<Byte>) | TimesOut | Breaks

  // A failure of the protocol, of the socket, or one that no handler expects.
  datatype Failure = Protocol(category: string) | Timeout | Disconnected | Unexpected

  // JSON text of messages; some texts cannot be encoded, and some raise more than a parse error: numbers
  // of too many digits, and values nested too deeply.
  datatype Parsed = Malformed | ParserRaises | NotAnObject | Parsed(message: Message)
  datatype Codec = Codec(render: Message -> Option<seq<Byte>>, parse: seq<Byte> -> Parsed)

  ghost predicate CodecOk(c: Codec) {
    forall m :: c.render(m).Some? ==> c.render(m).value != [] && c.parse(c.render(m).value) == Parsed(m)
  }

  const LIMIT := 0x1_0000_0000

  // ----- the length -----------------------------------------------------------------------------------

  function Pack(n: nat): (b: seq<Byte>)
    requires n < LIMIT
    ensures |b| == 4
  {
    [n % 256, n / 256 % 256, n / 65536 % 256, n / 16777216]
  }

  function Unpack(b: seq<Byte>): nat
    requires |b| == 4
  {
    (b[0] as int) + 256 * (b[1] as int) + 65536 * (b[2] as int) + 16777216 * (b[3] as int)
  }

  lemma UnpackPack(n: nat)
    requires n < LIMIT
    ensures Unpack(Pack(n)) == n
  {
    var a := n / 256;
    var b := a / 256;
    assert b == n / 65536;
    assert b / 256 == n / 16777216;
    assert n == a * 256 + n % 256 && a == b * 256 + a % 256 && b == b / 256 * 256 + b % 256;
  }

  // ----- receiving --------------------------------------------------------------------------------------

  datatype Received<T> = Received(result: Result<T, Failure>, rest: seq<Arrival>)

  // Exactly so many bytes, piece by piece.
  function RecvExact(incoming: seq<Arrival>, size: nat): Received<seq<Byte>>
    decreases |incoming|
  {
    if size == 0 then Received(Ok([]), incoming)
    else if incoming == [] then Received(Err(Protocol("disconnected")), [])
    else
      match incoming[0]
      case TimesOut => Received(Err(Timeout), incoming[1..])
      case Breaks => Received(Err(Disconnected), incoming[1..])
      case Data(bytes) =>
        if bytes == [] then Received(Err(Protocol("disconnected")), incoming[1..])
        else if |bytes| > size then Received(Ok(bytes[..size]), [Data(bytes[size..])] + incoming[1..])
        else
          match RecvExact(incoming[1..], size - |bytes|)
          case Received(Err(e), rest) => Received(Err(e), rest)
          case Received(Ok(more), rest) => Received(Ok(bytes + more), rest)
  }

  // The bytes that arrive before anything else happens.
  function Bytes(incoming: seq<Arrival>): seq<Byte> {
    if incoming == [] || !incoming[0].Data? || incoming[0].bytes == [] then []
    else incoming[0].bytes + Bytes(incoming[1..])
  }

  // However they are cut: enough bytes give exactly the first of them and leave the others.
  lemma {:induction false} RecvTakesExactly(incoming: seq<Arrival>, size: nat)
    requires size <= |Bytes(incoming)|
    ensures var r := RecvExact(incoming, size);
            r.result == Ok(Bytes(incoming)[..size]) && Bytes(r.rest) == Bytes(incoming)[size..]
    decreases |incoming|
  {
    if size > 0 {
      var bytes := incoming[0].bytes;
      if |bytes| > size {
        TakesPart(bytes, incoming[1..], size);
      } else {
        RecvTakesExactly(incoming[1..], size - |bytes|);
        assert Bytes(incoming)[..size] == bytes + Bytes(incoming[1..])[..size - |bytes|];
        assert Bytes(incoming)[size..] == Bytes(incoming[1..])[size - |bytes|..];
      }
    }
  }

  lemma TakesPart(bytes: seq<Byte>, others: seq<Arrival>, size: nat)
    requires size < |bytes|
    ensures Bytes([Data(bytes[size..])] + others) == (bytes + Bytes(others))[size..]
    ensures (bytes + Bytes(others))[..size] == bytes[..size]
  {
    assert ([Data(bytes[size..])] + others)[1..] == others;
  }

  // Too few bytes are an error, never a shorter answer.
  lemma {:induction false} RecvNeverTruncates(incoming: seq<Arrival>, size: nat)
    ensures RecvExact(incoming, size).result.Ok? <==> size <= |Bytes(incoming)|
    ensures RecvExact(incoming, size).result.Ok? ==> |RecvExact(incoming, size).result.value| == size
    decreases |incoming|
  {
    if size <= |Bytes(incoming)| { RecvTakesExactly(incoming, size); }
    if size > 0 && incoming != [] && incoming[0].Data? && incoming[0].bytes != [] && |incoming[0].bytes| <= size {
      RecvNeverTruncates(incoming[1..], size - |incoming[0].bytes|);
    }
  }

  // ----- messages ---------------------------------------------------------------------------------------

  function Field(m: Message, name: string): Json {
    if name in m then m[name] else Null
  }

  // Looking a value up in a set of names: an array or an object cannot be looked up at all.
  function LookUp(v: Json, names: set<string>): Result<bool, Failure> {
    if v.Array? || v.Object? then Err(Unexpected) else Ok(v.String? && v.text in names)
  }

  function ValidateFields(m: Message, kind: string, names: set<string>, text: string): Option<Failure> {
    match LookUp(Field(m, kind), names)
    case Err(e) => Some(e)
    case Ok(known) => if !known || !Field(m, text).String? then Some(Protocol("invalid_schema")) else None
  }

  function Validate(m: Message): Option<Failure> {
    var kind := Field(m, "type");
    if kind == String("success") then
      if m.Keys <= {"type"} then None else Some(Protocol("invalid_schema"))
    else if kind == String("error") then
      if m.Keys <= {"type", "error_type", "description"}
      then ValidateFields(m, "error_type", {"auth_error", "error"}, "description")
      else Some(Protocol("invalid_schema"))
    else if kind == String("auth_message") then
      if m.Keys <= {"type", "auth_message_type", "auth_message"}
      then ValidateFields(m, "auth_message_type", {"visible", "secret", "info", "error"}, "auth_message")
      else Some(Protocol("invalid_schema"))
    else Some(Protocol("unexpected_message"))
  }

  function Encode(c: Codec, m: Message, max: nat): Result<seq<Byte>, Failure> {
    match c.render(m)
    case None => Err(Unexpected)
    case Some(payload) =>
      if payload == [] || |payload| > max then Err(Protocol("oversize_frame"))
      else if |payload| >= LIMIT then Err(Unexpected)
      else Ok(Pack(|payload|) + payload)
  }

  function DecodePayload(c: Codec, payload: seq<Byte>): Result<Message, Failure> {
    match c.parse(payload)
    case Malformed => Err(Protocol("malformed_frame"))
    case ParserRaises => Err(Unexpected)
    case NotAnObject => Err(Protocol("invalid_schema"))
    case Parsed(m) =>
      match Validate(m)
      case Some(e) => Err(e)
      case None => Ok(m)
  }

  function DecodeFrame(c: Codec, incoming: seq<Arrival>, max: nat): Received<Message> {
    var header := RecvExact(incoming, 4);
    match header.result
    case Err(e) => Received(Err(e), header.rest)
    case Ok(bytes) =>
      if |bytes| != 4 || Unpack(bytes) == 0 || Unpack(bytes) > max then
        Received(Err(Protocol("oversize_frame")), header.rest)
      else
        var body := RecvExact(header.rest, Unpack(bytes));
        match body.result
        case Err(e) => Received(Err(e), body.rest)
        case Ok(payload) => Received(DecodePayload(c, payload), body.rest)
  }

  // Decoding an encoded valid message returns it and consumes exactly its bytes, however they arrive
  // and whatever follows.
  lemma DecodeEncoded(c: Codec, m: Message, max: nat, incoming: seq<Arrival>, more: seq<Byte>)
    requires CodecOk(c) && Validate(m).None? && Encode(c, m, max).Ok?
    requires Bytes(incoming) == Encode(c, m, max).value + more
    ensures var r := DecodeFrame(c, incoming, max); r.result == Ok(m) && Bytes(r.rest) == more
  {
    var payload := c.render(m).value;
    var n := |payload|;
    UnpackPack(n);
    RecvTakesExactly(incoming, 4);
    assert Bytes(incoming)[..4] == Pack(n) && Bytes(incoming)[4..] == payload + more;
    var header := RecvExact(incoming, 4);
    RecvTakesExactly(header.rest, n);
    assert (payload + more)[..n] == payload && (payload + more)[n..] == more;
  }

  // ----- what no handler expects ----------------------------------------------------------------------

  lemma {:induction false} RecvExpected(incoming: seq<Arrival>, size: nat)
    ensures RecvExact(incoming, size).result != Err(Unexpected)
    decreases |incoming|
  {
    if size > 0 && incoming != [] && incoming[0].Data? && |incoming[0].bytes| <= size && incoming[0].bytes != [] {
      RecvExpected(incoming[1..], size - |incoming[0].bytes|);
    }
  }

  // A field that is looked up is an array or an object.
  predicate IsUnhashable(m: Message) {
    || (Field(m, "type") == String("error") && m.Keys <= {"type", "error_type", "description"}
        && (Field(m, "error_type").Array? || Field(m, "error_type").Object?))
    || (Field(m, "type") == String("auth_message") && m.Keys <= {"type", "auth_message_type", "auth_message"}
        && (Field(m, "auth_message_type").Array? || Field(m, "auth_message_type").Object?))
  }

  // A frame of an admissible length arrives completely.
  predicate Arrives(incoming: seq<Arrival>, max: nat) {
    var bytes := Bytes(incoming);
    |bytes| >= 4 && 0 < Unpack(bytes[..4]) <= max && |bytes| >= 4 + Unpack(bytes[..4])
  }

  function Body(incoming: seq<Arrival>, max: nat): seq<Byte>
    requires Arrives(incoming, max)
  {
    var bytes := Bytes(incoming);
    bytes[4..4 + Unpack(bytes[..4])]
  }

  lemma PayloadSurprises(c: Codec, payload: seq<Byte>)
    ensures DecodePayload(c, payload) == Err(Unexpected) <==>
      c.parse(payload) == ParserRaises || (c.parse(payload).Parsed? && IsUnhashable(c.parse(payload).message))
  {
  }

  // However the bytes are cut: an exception nobody handles is raised exactly if a whole frame arrived and
  // parsing it raises, or it is an object with a field that cannot be looked up.
  lemma WhatSurprises(c: Codec, incoming: seq<Arrival>, max: nat)
    ensures DecodeFrame(c, incoming, max).result == Err(Unexpected) <==>
      && Arrives(incoming, max)
      && var parsed := c.parse(Body(incoming, max));
         parsed == ParserRaises || (parsed.Parsed? && IsUnhashable(parsed.message))
  {
    RecvExpected(incoming, 4);
    RecvNeverTruncates(incoming, 4);
    if |Bytes(incoming)| >= 4 {
      RecvTakesExactly(incoming, 4);
      var header := RecvExact(incoming, 4);
      var n := Unpack(header.result.value);
      if 0 < n <= max {
        RecvExpected(header.rest, n);
        RecvNeverTruncates(header.rest, n);
        if n <= |Bytes(header.rest)| {
          RecvTakesExactly(header.rest, n);
          assert Body(incoming, max) == Bytes(header.rest)[..n];
          PayloadSurprises(c, Body(incoming, max));
        }
      }
    }
  }

  lemma {:induction false} RecvUsesUp(incoming: seq<Arrival>, size: nat)
    ensures Bulk(RecvExact(incoming, size).rest) <= Bulk(incoming)
    ensures size > 0 && RecvExact(incoming, size).result.Ok? ==> Bulk(RecvExact(incoming, size).rest) < Bulk(incoming)
    decreases |incoming|
  {
    if size > 0 && incoming != [] && incoming[0].Data? && incoming[0].bytes != [] {
      var bytes := incoming[0].bytes;
      if |bytes| > size {
        assert ([Data(bytes[size..])] + incoming[1..])[1..] == incoming[1..];
      } else {
        RecvUsesUp(incoming[1..], size - |bytes|);
      }
    }
  }

  // What is left to arrive: it shrinks with every message.
  function Bulk(incoming: seq<Arrival>): nat {
    if incoming == [] then 0
    else (if incoming[0].Data? then |incoming[0].bytes| else 0) + 1 + Bulk(incoming[1..])
  }

  lemma DecodeUsesUp(c: Codec, incoming: seq<Arrival>, max: nat)
    ensures Bulk(DecodeFrame(c, incoming, max).rest) <= Bulk(incoming)
    ensures DecodeFrame(c, incoming, max).result.Ok? ==> Bulk(DecodeFrame(c, incoming, max).rest) < Bulk(incoming)
    ensures DecodeFrame(c, incoming, max).result.Ok? ==> Validate(DecodeFrame(c, incoming, max).result.value).None?
  {
    RecvUsesUp(incoming, 4);
    var header := RecvExact(incoming, 4);
    if header.result.Ok? && |header.result.value| == 4 {
      RecvUsesUp(header.rest, Unpack(header.result.value));
    }
  }
}
