/**
  The MeshPacket, Data and Position messages: builders (internal/serial/encode.go:75-160) and
  decoders (internal/serial/framing.go:612-662, 712-849; the Position decoder is repeated in
  internal/meshtastic/dispatcher.go:691-740).
 */
module MeshCodec {
  import opened Prelude
  import opened Varint
  import opened Wire

  /** uint32(v) of a 64-bit word. */
  function Low32(v: nat): (u: nat)
    ensures u < TWO32
  {
    v % TWO32
  }

  /** int32(v): the low 32 bits as a two's complement number. */
  function Int32(v: nat): int {
    var u := v % TWO32;
    if u < TWO32 / 2 then u else u - TWO32
  }

  predicate IsInt32(x: int) {
    -TWO32 / 2 <= x < TWO32 / 2
  }

  /** uint32(x) and uint64(x) of a signed number. */
  function Bits32(x: int): (u: nat)
    requires IsInt32(x)
    ensures u < TWO32
  {
    if x >= 0 then x else TWO32 + x
  }

  function Bits64(x: int): (u: nat)
    requires IsInt32(x)
    ensures u < TWO64
  {
    if x >= 0 then x else TWO64 + x
  }

  lemma SignSurvives(x: int)
    requires IsInt32(x)
    ensures Int32(Bits32(x)) == x && Int32(Bits64(x)) == x
  {
    if x < 0 {
      assert (TWO64 + x) % TWO32 == TWO32 + x by {
        var q := TWO32 - 1;
        assert TWO64 + x == q * TWO32 + (TWO32 + x);
      }
    }
  }

  /** decodeZigzag followed by int32. */
  function Zigzag32(v: nat): int
    requires v < TWO64
  {
    var n := if v % 2 == 0 then v / 2 else -(v / 2) - 1;
    Int32(if n >= 0 then n else TWO64 + n)
  }

  /** Decoding undoes the zigzag encoding 2n, -2n-1 of every int32. */
  lemma ZigzagInverse(x: int)
    requires IsInt32(x)
    ensures Zigzag32(if x >= 0 then 2 * x else -2 * x - 1) == x
  {
    SignSurvives(x);
  }

  datatype Data = Data(port: nat, payload: seq<Byte>, requestId: nat)

  datatype Mesh = Mesh(from: nat, to: nat, channel: nat, id: nat, rxTime: nat, rxSnrBits: nat, rxRssi: int,
                       hopLimit: nat, hopStart: nat, priority: nat, wantAck: bool, data: Data)

  datatype Position = Position(latitude: int, longitude: int, altitude: int, time: nat, sats: nat)

  const NO_DATA := Data(0, [], 0)
  const NO_MESH := Mesh(0, 0, 0, 0, 0, 0, 0, 0, 0, 0, false, NO_DATA)
  const NO_POSITION := Position(0, 0, 0, 0, 0)

  // ---------------------------------------------------------------------------
  // What one field does
  // ---------------------------------------------------------------------------

  function ApplyData(d: Data, num: nat, body: Body): Option<Data> {
    match body
    case Word(v) => Some(if num == 1 then d.(port := Low32(v)) else d)
    case Bytes(b) => Some(if num == 2 then d.(payload := b) else d)
    case Fixed32(u) => Some(if num == 6 then d.(requestId := u) else d)
    case Fixed64 => Some(d)
  }

  function DataOf(s: seq<Byte>): Option<Data> {
    Fold(ApplyData, NO_DATA, s)
  }

  function ApplyPosition(p: Position, num: nat, body: Body): Option<Position> {
    match body
    case Fixed32(u) =>
      Some(if num == 1 then p.(latitude := Int32(u)) else if num == 2 then p.(longitude := Int32(u)) else p)
    case Word(v) =>
      Some(if num == 3 then p.(altitude := Int32(v))
           else if num == 4 then p.(time := Low32(v))
           else if num == 21 then p.(sats := Low32(v))
           else p)
    case _ => Some(p)
  }

  function PositionOf(s: seq<Byte>): Option<Position> {
    Fold(ApplyPosition, NO_POSITION, s)
  }

  function ApplyMeshWord(m: Mesh, num: nat, v: nat): Mesh {
    if num == 1 then m.(from := Low32(v))
    else if num == 2 then m.(to := Low32(v))
    else if num == 3 then m.(channel := Low32(v))
    else if num == 6 then m.(id := Low32(v))
    else if num == 7 then m.(rxTime := Low32(v))
    else if num == 9 then m.(rxRssi := Zigzag32(v % TWO64))
    else if num == 10 then m.(hopLimit := Low32(v))
    else if num == 11 then m.(wantAck := v != 0)
    else if num == 12 then m.(priority := Low32(v))
    else if num == 15 then m.(hopStart := Low32(v))
    else m
  }

  function ApplyMeshFixed(m: Mesh, num: nat, u: nat): Mesh {
    if num == 1 then m.(from := u)
    else if num == 2 then m.(to := u)
    else if num == 6 then m.(id := u)
    else if num == 7 then m.(rxTime := u)
    else if num == 8 then m.(rxSnrBits := u)
    else if num == 9 then m.(rxRssi := Int32(u))
    else m
  }

  function ApplyMesh(m: Mesh, num: nat, body: Body): Option<Mesh> {
    match body
    case Word(v) => Some(ApplyMeshWord(m, num, v))
    case Bytes(b) =>
      if num != 4 then Some(m)
      else
        var d := DataOf(b);
        if d.None? then None else Some(m.(data := d.value))
    case Fixed32(u) => Some(ApplyMeshFixed(m, num, u))
    case Fixed64 => Some(m)
  }

  function MeshOf(s: seq<Byte>): Option<Mesh> {
    Fold(ApplyMesh, NO_MESH, s)
  }

  // ---------------------------------------------------------------------------
  // The decoder loops
  // ---------------------------------------------------------------------------

  /** decodeDataPayload. */
  method DecodeDataPayload(data: seq<Byte>) returns (r: Option<Data>)
    ensures r == DataOf(data)
  {
    hide Fold, ParseField, At;
    var d, pos := NO_DATA, 0;
    AtStart(ApplyData, NO_DATA, data);
    while pos < |data|
      invariant 0 <= pos <= |data| && At(ApplyData, NO_DATA, data, d, pos)
    {
      var p := ReadField(data, pos);
      if !p.Field? {
        AtStop(ApplyData, NO_DATA, data, d, pos);
        return if p.Stop? then Some(d) else None;
      }
      AtField(ApplyData, NO_DATA, data, d, pos);
      match p.body {
        case Word(val) => if p.num == 1 { d := d.(port := Low32(val)); }
        case Bytes(bytes) => if p.num == 2 { d := d.(payload := bytes); }
        case Fixed32(u32) => if p.num == 6 { d := d.(requestId := u32); }
        case Fixed64 =>
      }
      pos := pos + p.size;
    }
    AtEnd(ApplyData, NO_DATA, data, d, pos);
    return Some(d);
  }

  /** decodePosition and decodePositionPayload. */
  method DecodePosition(data: seq<Byte>) returns (r: Option<Position>)
    ensures r == PositionOf(data)
  {
    hide Fold, ParseField, At;
    var p, pos := NO_POSITION, 0;
    AtStart(ApplyPosition, NO_POSITION, data);
    while pos < |data|
      invariant 0 <= pos <= |data| && At(ApplyPosition, NO_POSITION, data, p, pos)
    {
      var f := ReadField(data, pos);
      if !f.Field? {
        AtStop(ApplyPosition, NO_POSITION, data, p, pos);
        return if f.Stop? then Some(p) else None;
      }
      AtField(ApplyPosition, NO_POSITION, data, p, pos);
      match f.body {
        case Fixed32(u32) =>
          if f.num == 1 {
            p := p.(latitude := Int32(u32));
          } else if f.num == 2 {
            p := p.(longitude := Int32(u32));
          }
        case Word(val) =>
          if f.num == 3 {
            p := p.(altitude := Int32(val));
          } else if f.num == 4 {
            p := p.(time := Low32(val));
          } else if f.num == 21 {
            p := p.(sats := Low32(val));
          }
        case _ =>
      }
      pos := pos + f.size;
    }
    AtEnd(ApplyPosition, NO_POSITION, data, p, pos);
    return Some(p);
  }

  /** decodeMeshPacket. */
  method DecodeMeshPacket(data: seq<Byte>) returns (r: Option<Mesh>)
    ensures r == MeshOf(data)
  {
    hide Fold, ParseField, At;
    var mp, pos := NO_MESH, 0;
    AtStart(ApplyMesh, NO_MESH, data);
    while pos < |data|
      invariant 0 <= pos <= |data| && At(ApplyMesh, NO_MESH, data, mp, pos)
    {
      var f := ReadField(data, pos);
      if !f.Field? {
        AtStop(ApplyMesh, NO_MESH, data, mp, pos);
        return if f.Stop? then Some(mp) else None;
      }
      AtField(ApplyMesh, NO_MESH, data, mp, pos);
      match f.body {
        case Word(val) => mp := ApplyMeshWord(mp, f.num, val);
        case Bytes(subData) =>
          if f.num == 4 {
            var d := DecodeDataPayload(subData);
            if d.None? {
              return None;
            }
            mp := mp.(data := d.value);
          }
        case Fixed32(u32) => mp := ApplyMeshFixed(mp, f.num, u32);
        case Fixed64 =>
      }
      pos := pos + f.size;
    }
    AtEnd(ApplyMesh, NO_MESH, data, mp, pos);
    return Some(mp);
  }

  // ---------------------------------------------------------------------------
  // Fields the decoders do not know
  // ---------------------------------------------------------------------------

  predicate DataHandles(num: nat, body: Body) {
    (body.Word? && num == 1) || (body.Bytes? && num == 2) || (body.Fixed32? && num == 6)
  }

  predicate PositionHandles(num: nat, body: Body) {
    (body.Fixed32? && num in {1, 2}) || (body.Word? && num in {3, 4, 21})
  }

  predicate MeshHandles(num: nat, body: Body) {
    || (body.Word? && num in {1, 2, 3, 6, 7, 9, 10, 11, 12, 15})
    || (body.Bytes? && num == 4)
    || (body.Fixed32? && num in {1, 2, 6, 7, 8, 9})
  }

  /** x is one complete field. */
  predicate OneField(x: seq<Byte>) {
    ParseField(x).Field? && ParseField(x).size == |x|
  }

  /**
    A complete field whose number is not handled for its wire type may be inserted at any
    field boundary of any message, also before malformed bytes, without changing the result.
   */
  lemma UnknownFieldIgnored(a: seq<Byte>, x: seq<Byte>, b: seq<Byte>)
    requires WellFormed(a) && OneField(x)
    ensures !DataHandles(ParseField(x).num, ParseField(x).body) ==> DataOf(a + x + b) == DataOf(a + b)
    ensures !PositionHandles(ParseField(x).num, ParseField(x).body) ==> PositionOf(a + x + b) == PositionOf(a + b)
    ensures !MeshHandles(ParseField(x).num, ParseField(x).body) ==> MeshOf(a + x + b) == MeshOf(a + b)
  {
    var num, body := ParseField(x).num, ParseField(x).body;
    if !DataHandles(num, body) {
      assert forall d :: ApplyData(d, num, body) == Some(d);
      IgnoredFieldAnywhere(ApplyData, NO_DATA, a, x, b);
    }
    if !PositionHandles(num, body) {
      assert forall p :: ApplyPosition(p, num, body) == Some(p);
      IgnoredFieldAnywhere(ApplyPosition, NO_POSITION, a, x, b);
    }
    if !MeshHandles(num, body) {
      assert forall m :: ApplyMesh(m, num, body) == Some(m);
      IgnoredFieldAnywhere(ApplyMesh, NO_MESH, a, x, b);
    }
  }

  // ---------------------------------------------------------------------------
  // What each field sets
  // ---------------------------------------------------------------------------

  /** One more field after a well-formed message is applied to what the message says. */
  lemma OneMoreWord<A>(apply: (A, nat, Body) -> Option<A>, acc: A, a: seq<Byte>, m: A, num: nat, v: nat)
    requires WellFormed(a) && Fold(apply, acc, a) == Some(m) && num < 32 && v < TWO64
    ensures Fold(apply, acc, a + VarintField(num, v)) == apply(m, num, Word(v))
  {
    hide ParseField, VarintField;
    FoldSplit(apply, acc, a, VarintField(num, v));
    assert VarintField(num, v) + [] == VarintField(num, v);
    FoldWord(apply, m, num, v, []);
  }

  lemma OneMoreFixed32<A>(apply: (A, nat, Body) -> Option<A>, acc: A, a: seq<Byte>, m: A, num: nat, u: nat)
    requires WellFormed(a) && Fold(apply, acc, a) == Some(m) && num < 32 && u < TWO32
    ensures Fold(apply, acc, a + Fixed32Field(num, u)) == apply(m, num, Fixed32(u))
  {
    hide ParseField, Fixed32Field;
    FoldSplit(apply, acc, a, Fixed32Field(num, u));
    assert Fixed32Field(num, u) + [] == Fixed32Field(num, u);
    FoldFixed32(apply, m, num, u, []);
  }

  lemma OneMoreBytes<A>(apply: (A, nat, Body) -> Option<A>, acc: A, a: seq<Byte>, m: A, num: nat, data: seq<Byte>)
    requires WellFormed(a) && Fold(apply, acc, a) == Some(m) && num < 32 && |data| < HUGE
    ensures Fold(apply, acc, a + BytesField(num, data)) == apply(m, num, Bytes(data))
  {
    hide ParseField, BytesField;
    FoldSplit(apply, acc, a, BytesField(num, data));
    assert BytesField(num, data) + [] == BytesField(num, data);
    FoldBytes(apply, m, num, data, []);
  }

  /** The varint fields of a packet; the signal strength is zigzag encoded, and the rest of a word is cut off. */
  lemma MeshWords(a: seq<Byte>, m: Mesh, v: nat)
    requires WellFormed(a) && MeshOf(a) == Some(m) && v < TWO64
    ensures MeshOf(a + VarintField(1, v)) == Some(m.(from := v % 0x1_0000_0000))
    ensures MeshOf(a + VarintField(2, v)) == Some(m.(to := v % 0x1_0000_0000))
    ensures MeshOf(a + VarintField(3, v)) == Some(m.(channel := v % 0x1_0000_0000))
    ensures MeshOf(a + VarintField(6, v)) == Some(m.(id := v % 0x1_0000_0000))
    ensures MeshOf(a + VarintField(7, v)) == Some(m.(rxTime := v % 0x1_0000_0000))
    ensures MeshOf(a + VarintField(10, v)) == Some(m.(hopLimit := v % 0x1_0000_0000))
    ensures MeshOf(a + VarintField(11, v)) == Some(m.(wantAck := v != 0))
    ensures MeshOf(a + VarintField(12, v)) == Some(m.(priority := v % 0x1_0000_0000))
    ensures MeshOf(a + VarintField(15, v)) == Some(m.(hopStart := v % 0x1_0000_0000))
  {
    hide Fold, VarintField;
    OneMoreWord(ApplyMesh, NO_MESH, a, m, 1, v);
    OneMoreWord(ApplyMesh, NO_MESH, a, m, 2, v);
    OneMoreWord(ApplyMesh, NO_MESH, a, m, 3, v);
    OneMoreWord(ApplyMesh, NO_MESH, a, m, 6, v);
    OneMoreWord(ApplyMesh, NO_MESH, a, m, 7, v);
    OneMoreWord(ApplyMesh, NO_MESH, a, m, 10, v);
    OneMoreWord(ApplyMesh, NO_MESH, a, m, 11, v);
    OneMoreWord(ApplyMesh, NO_MESH, a, m, 12, v);
    OneMoreWord(ApplyMesh, NO_MESH, a, m, 15, v);
  }

  /** Every int32 signal strength, sent as a zigzag varint or as a fixed32. */
  lemma MeshSignal(a: seq<Byte>, m: Mesh, x: int)
    requires WellFormed(a) && MeshOf(a) == Some(m) && -0x8000_0000 <= x < 0x8000_0000
    ensures MeshOf(a + VarintField(9, if x >= 0 then 2 * x else -2 * x - 1)) == Some(m.(rxRssi := x))
    ensures MeshOf(a + Fixed32Field(9, if x >= 0 then x else 0x1_0000_0000 + x)) == Some(m.(rxRssi := x))
  {
    hide Fold, VarintField, Fixed32Field, Zigzag32, Int32;
    var z := if x >= 0 then 2 * x else -2 * x - 1;
    ZigzagInverse(x);
    SignSurvives(x);
    assert z % TWO64 == z;
    OneMoreWord(ApplyMesh, NO_MESH, a, m, 9, z);
    OneMoreFixed32(ApplyMesh, NO_MESH, a, m, 9, Bits32(x));
  }

  /** The fixed32 fields of a packet. */
  lemma MeshFixed32s(a: seq<Byte>, m: Mesh, u: nat)
    requires WellFormed(a) && MeshOf(a) == Some(m) && u < TWO32
    ensures MeshOf(a + Fixed32Field(1, u)) == Some(m.(from := u))
    ensures MeshOf(a + Fixed32Field(2, u)) == Some(m.(to := u))
    ensures MeshOf(a + Fixed32Field(6, u)) == Some(m.(id := u))
    ensures MeshOf(a + Fixed32Field(7, u)) == Some(m.(rxTime := u))
    ensures MeshOf(a + Fixed32Field(8, u)) == Some(m.(rxSnrBits := u))
  {
    hide Fold, Fixed32Field;
    OneMoreFixed32(ApplyMesh, NO_MESH, a, m, 1, u);
    OneMoreFixed32(ApplyMesh, NO_MESH, a, m, 2, u);
    OneMoreFixed32(ApplyMesh, NO_MESH, a, m, 6, u);
    OneMoreFixed32(ApplyMesh, NO_MESH, a, m, 7, u);
    OneMoreFixed32(ApplyMesh, NO_MESH, a, m, 8, u);
  }

  /** The payload of a packet is what decoding it as Data gives. */
  lemma MeshData(a: seq<Byte>, m: Mesh, b: seq<Byte>, d: Data)
    requires WellFormed(a) && MeshOf(a) == Some(m) && |b| < HUGE && DataOf(b) == Some(d)
    ensures MeshOf(a + BytesField(4, b)) == Some(m.(data := d))
  {
    hide Fold, BytesField;
    OneMoreBytes(ApplyMesh, NO_MESH, a, m, 4, b);
  }

  lemma DataFields(a: seq<Byte>, d: Data, v: nat, b: seq<Byte>, u: nat)
    requires WellFormed(a) && DataOf(a) == Some(d) && v < TWO64 && |b| < HUGE && u < TWO32
    ensures DataOf(a + VarintField(1, v)) == Some(d.(port := v % 0x1_0000_0000))
    ensures DataOf(a + BytesField(2, b)) == Some(d.(payload := b))
    ensures DataOf(a + Fixed32Field(6, u)) == Some(d.(requestId := u))
  {
    hide Fold, VarintField, BytesField, Fixed32Field;
    OneMoreWord(ApplyData, NO_DATA, a, d, 1, v);
    OneMoreBytes(ApplyData, NO_DATA, a, d, 2, b);
    OneMoreFixed32(ApplyData, NO_DATA, a, d, 6, u);
  }

  /** Coordinates are sfixed32, the altitude a sign-extended varint, time and satellites plain varints. */
  lemma PositionFields(a: seq<Byte>, p: Position, x: int, v: nat)
    requires WellFormed(a) && PositionOf(a) == Some(p) && -0x8000_0000 <= x < 0x8000_0000 && v < TWO64
    ensures PositionOf(a + Fixed32Field(1, if x >= 0 then x else 0x1_0000_0000 + x)) == Some(p.(latitude := x))
    ensures PositionOf(a + Fixed32Field(2, if x >= 0 then x else 0x1_0000_0000 + x)) == Some(p.(longitude := x))
    ensures PositionOf(a + VarintField(3, if x >= 0 then x else 0x1_0000_0000_0000_0000 + x)) == Some(p.(altitude := x))
    ensures PositionOf(a + VarintField(4, v)) == Some(p.(time := v % 0x1_0000_0000))
    ensures PositionOf(a + VarintField(21, v)) == Some(p.(sats := v % 0x1_0000_0000))
  {
    hide Fold, VarintField, Fixed32Field;
    SignSurvives(x);
    OneMoreFixed32(ApplyPosition, NO_POSITION, a, p, 1, Bits32(x));
    OneMoreFixed32(ApplyPosition, NO_POSITION, a, p, 2, Bits32(x));
    OneMoreWord(ApplyPosition, NO_POSITION, a, p, 3, Bits64(x));
    OneMoreWord(ApplyPosition, NO_POSITION, a, p, 4, v);
    OneMoreWord(ApplyPosition, NO_POSITION, a, p, 21, v);
  }

  // ---------------------------------------------------------------------------
  // Builders and round trips
  // ---------------------------------------------------------------------------

  const BROADCAST := 0xFFFF_FFFF
  const PORT_POSITION := 3

  /** buildDataMessage. */
  function BuiltData(port: nat, payload: seq<Byte>): seq<Byte> {
    VarintField(1, port) + BytesField(2, payload)
  }

  /** buildMeshPacket; the random packet id is a parameter. */
  function BuiltMesh(to: nat, data: seq<Byte>, id: nat): seq<Byte>
    requires to < TWO32 && id < TWO32
  {
    var tail := Fixed32Field(6, id) + (VarintField(10, 3) + VarintField(11, 1));
    Fixed32Field(2, to) + (VarintField(3, 0) + (BytesField(4, data) + tail))
  }

  /** The Position payload of BuildPosition; a zero altitude is left out. */
  function BuiltPosition(latitude: int, longitude: int, altitude: int): seq<Byte>
    requires IsInt32(latitude) && IsInt32(longitude) && IsInt32(altitude)
  {
    Fixed32Field(1, Bits32(latitude)) + (Fixed32Field(2, Bits32(longitude)) +
      if altitude != 0 then VarintField(3, Bits64(altitude)) else [])
  }

  lemma DataRoundTrip(port: nat, payload: seq<Byte>)
    requires port < TWO32 && |payload| < HUGE
    ensures DataOf(BuiltData(port, payload)) == Some(Data(port, payload, 0))
  {
    hide Fold, ParseField, VarintField, BytesField, Fixed32Field;
    FoldEmpty(ApplyData, Data(port, payload, 0));
    FoldWord(ApplyData, NO_DATA, 1, port, BytesField(2, payload));
    FoldBytes(ApplyData, NO_DATA.(port := port), 2, payload, []);
    assert BytesField(2, payload) + [] == BytesField(2, payload);
  }

  lemma PositionRoundTrip(latitude: int, longitude: int, altitude: int)
    requires IsInt32(latitude) && IsInt32(longitude) && IsInt32(altitude)
    ensures PositionOf(BuiltPosition(latitude, longitude, altitude)) ==
            Some(Position(latitude, longitude, altitude, 0, 0))
  {
    hide Fold, ParseField, VarintField, BytesField, Fixed32Field;
    FoldEmpty(ApplyPosition, Position(latitude, longitude, altitude, 0, 0));
    var f2 := Fixed32Field(2, Bits32(longitude));
    var f3 := if altitude != 0 then VarintField(3, Bits64(altitude)) else [];
    SignSurvives(latitude);
    SignSurvives(longitude);
    SignSurvives(altitude);
    var p1 := NO_POSITION.(latitude := latitude);
    FoldFixed32(ApplyPosition, NO_POSITION, 1, Bits32(latitude), f2 + f3);
    FoldFixed32(ApplyPosition, p1, 2, Bits32(longitude), f3);
    if altitude != 0 {
      FoldWord(ApplyPosition, p1.(longitude := longitude), 3, Bits64(altitude), []);
      assert f3 + [] == f3;
    }
  }

  /** The tail of a built packet: id, hop limit and want_ack. */
  lemma MeshTail(m: Mesh, id: nat)
    requires id < TWO32
    ensures Fold(ApplyMesh, m, Fixed32Field(6, id) + (VarintField(10, 3) + VarintField(11, 1))) ==
            Some(m.(id := id, hopLimit := 3, wantAck := true))
  {
    hide Fold, ParseField, VarintField, BytesField, Fixed32Field;
    FoldEmpty(ApplyMesh, m.(id := id, hopLimit := 3, wantAck := true));
    FoldFixed32(ApplyMesh, m, 6, id, VarintField(10, 3) + VarintField(11, 1));
    FoldWord(ApplyMesh, m.(id := id), 10, 3, VarintField(11, 1));
    FoldWord(ApplyMesh, m.(id := id, hopLimit := 3), 11, 1, []);
    assert VarintField(11, 1) + [] == VarintField(11, 1);
  }

  lemma MeshRoundTrip(to: nat, port: nat, payload: seq<Byte>, id: nat)
    requires to < TWO32 && port < TWO32 && id < TWO32
    requires |payload| < HUGE && |BuiltData(port, payload)| < HUGE
    ensures MeshOf(BuiltMesh(to, BuiltData(port, payload), id)) ==
            Some(NO_MESH.(to := to, id := id, hopLimit := 3, wantAck := true, data := Data(port, payload, 0)))
  {
    hide Fold, ParseField, VarintField, BytesField, Fixed32Field;
    var data := BuiltData(port, payload);
    var tail := Fixed32Field(6, id) + (VarintField(10, 3) + VarintField(11, 1));
    DataRoundTrip(port, payload);
    var m := NO_MESH.(to := to);
    FoldFixed32(ApplyMesh, NO_MESH, 2, to, VarintField(3, 0) + (BytesField(4, data) + tail));
    FoldWord(ApplyMesh, m, 3, 0, BytesField(4, data) + tail);
    FoldBytes(ApplyMesh, m, 4, data, tail);
    MeshTail(m.(data := Data(port, payload, 0)), id);
  }

  /**
    Whole positions, negative coordinates included, survive: build the ToRadio message, take the
    packet out of its field 1, decode the packet and decode its payload.
   */
  lemma PositionPacketRoundTrip(latitude: int, longitude: int, altitude: int, id: nat)
    requires IsInt32(latitude) && IsInt32(longitude) && IsInt32(altitude) && id < TWO32
    ensures var data := BuiltData(PORT_POSITION, BuiltPosition(latitude, longitude, altitude));
      var packet := BuiltMesh(BROADCAST, data, id);
      && ParseField(BytesField(1, packet)) == Field(1, Bytes(packet), |BytesField(1, packet)|)
      && MeshOf(packet).Some?
      && MeshOf(packet).value.to == BROADCAST && MeshOf(packet).value.id == id
      && MeshOf(packet).value.data.port == PORT_POSITION
      && PositionOf(MeshOf(packet).value.data.payload) == Some(Position(latitude, longitude, altitude, 0, 0))
  {
    var pos := BuiltPosition(latitude, longitude, altitude);
    var data := BuiltData(PORT_POSITION, pos);
    PositionSize(latitude, longitude, altitude);
    DataSize(PORT_POSITION, pos);
    MeshRoundTrip(BROADCAST, PORT_POSITION, pos, id);
    PositionRoundTrip(latitude, longitude, altitude);
    MeshSize(BROADCAST, data, id);
    BytesFieldParses(1, BuiltMesh(BROADCAST, data, id));
  }

  /** A built text or position packet byte by byte, when port, payload length and data length take one byte each. */
  lemma PacketBytes(to: nat, port: nat, payload: seq<Byte>, id: nat)
    requires to < TWO32 && id < TWO32 && port < 128 && |payload| < 124
    ensures BuiltMesh(to, BuiltData(port, payload), id) ==
            [0x15] + Fixed32Bytes(to) + [0x18, 0] + [0x22, 4 + |payload|, 0x08, port, 0x12, |payload|] + payload +
            [0x35] + Fixed32Bytes(id) + [0x50, 3, 0x58, 1]
  {
    var data := BuiltData(port, payload);
    SmallFields(port, payload, to);
    SmallFields(port, data, id);
    hide VarintField, BytesField, Fixed32Field, Fixed32Bytes;
    assert data == [0x08, port, 0x12, |payload|] + payload;
    var head, middle := [0x15] + Fixed32Bytes(to), [0x18, 0] + ([0x22, |data|] + data);
    var tail := [0x35] + Fixed32Bytes(id) + ([0x50, 3] + [0x58, 1]);
    assert BuiltMesh(to, data, id) == head + middle + tail;
    assert middle == [0x18, 0] + [0x22, 4 + |payload|, 0x08, port, 0x12, |payload|] + payload;
    assert tail == [0x35] + Fixed32Bytes(id) + [0x50, 3, 0x58, 1];
  }

  /** The fields of a packet whose tag and length take one byte each. */
  lemma SmallFields(port: nat, bytes: seq<Byte>, u: nat)
    requires port < 128 && |bytes| < 128 && u < TWO32
    ensures VarintField(1, port) == [0x08, port] && VarintField(3, 0) == [0x18, 0]
    ensures VarintField(10, 3) == [0x50, 3] && VarintField(11, 1) == [0x58, 1]
    ensures BytesField(2, bytes) == [0x12, |bytes|] + bytes && BytesField(4, bytes) == [0x22, |bytes|] + bytes
    ensures Fixed32Field(2, u) == [0x15] + Fixed32Bytes(u) && Fixed32Field(6, u) == [0x35] + Fixed32Bytes(u)
  {
    hide Fixed32Bytes;
  }

  /** The position payload: two sfixed32 fields, and a varint only for an altitude that is not zero. */
  lemma PositionBytes(latitude: int, longitude: int, altitude: int)
    requires IsInt32(latitude) && IsInt32(longitude) && IsInt32(altitude)
    ensures BuiltPosition(latitude, longitude, altitude) ==
            [0x0D] + Fixed32Bytes(Bits32(latitude)) + [0x15] + Fixed32Bytes(Bits32(longitude)) +
            if altitude == 0 then [] else [0x18] + Encoded(Bits64(altitude))
  {
    hide Fixed32Bytes;
    assert Encoded(13) == [0x0D] && Encoded(21) == [0x15] && Encoded(24) == [0x18];
  }

  lemma VarintFieldSize(num: nat, v: nat)
    requires num * 8 < TWO64 && v < TWO64
    ensures |VarintField(num, v)| <= 20
  {
    RoundTrip(num * 8, []);
    RoundTrip(v, []);
  }

  lemma Fixed32FieldSize(num: nat, u: nat)
    requires num * 8 + 5 < TWO64 && u < TWO32
    ensures |Fixed32Field(num, u)| <= 14
  {
    RoundTrip(num * 8 + 5, []);
  }

  lemma BytesFieldSize(num: nat, data: seq<Byte>)
    requires num * 8 + 2 < TWO64 && |data| < TWO64
    ensures |BytesField(num, data)| <= 20 + |data|
  {
    RoundTrip(num * 8 + 2, []);
    RoundTrip(|data|, []);
  }

  lemma PositionSize(latitude: int, longitude: int, altitude: int)
    requires IsInt32(latitude) && IsInt32(longitude) && IsInt32(altitude)
    ensures |BuiltPosition(latitude, longitude, altitude)| <= 48
  {
    Fixed32FieldSize(1, Bits32(latitude));
    Fixed32FieldSize(2, Bits32(longitude));
    VarintFieldSize(3, Bits64(altitude));
  }

  lemma DataSize(port: nat, payload: seq<Byte>)
    requires port < TWO32 && |payload| < TWO64
    ensures |BuiltData(port, payload)| <= 40 + |payload|
  {
    VarintFieldSize(1, port);
    BytesFieldSize(2, payload);
  }

  lemma MeshSize(to: nat, data: seq<Byte>, id: nat)
    requires to < TWO32 && id < TWO32 && |data| < TWO64
    ensures |BuiltMesh(to, data, id)| <= 108 + |data|
  {
    Fixed32FieldSize(2, to);
    VarintFieldSize(3, 0);
    BytesFieldSize(4, data);
    Fixed32FieldSize(6, id);
    VarintFieldSize(10, 3);
    VarintFieldSize(11, 1);
  }
}
