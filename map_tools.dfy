/** Super Metroid map arithmetic: decoding Samus's position from the
    console's work RAM, turning tile positions into map coordinates,
    room rectangles, room lookup by pointer and the closest-node choice.

    Positions are in tiles (16 pixels); the Leaflet map is addressed in
    degrees of 128 pixels. Every division the model keeps is by 2, 16 or 128
    and exact on these values, so the model computes with `real`. */
module MapTools {
  import opened Wrappers

  /** One byte of emulator memory. */
  type Byte = x: int | 0 <= x < 256

  /** A point in tiles or in pixels, x to the right and y downwards. */
  datatype Point = Point(x: real, y: real)

  /** A Leaflet location: latitude first, then longitude, in degrees. */
  datatype LatLng = LatLng(lat: real, lng: real)

  /** Why a position could not be computed: a DataView read past the end
      of memory (a RangeError), or an area index with no offset entry (a
      TypeError on `undefined[0]`). */
  datatype PosError = OutOfRange(offset: nat) | NoAreaOffset(area: int)

  // ----- Memory reads (DataView) -----

  /** `getUint8(offset)`. */
  function Uint8(mem: seq<Byte>, offset: nat): (r: Result<int, PosError>)
    ensures r.Ok? <==> offset < |mem|
    ensures r.Ok? ==> 0 <= r.value < 256
  {
    if offset < |mem| then Ok(mem[offset]) else Err(OutOfRange(offset))
  }

  /** Two's-complement reading of a 16-bit unsigned value. */
  function Signed16(u: int): int
    requires 0 <= u < 0x1_0000
  {
    if u >= 0x8000 then u - 0x1_0000 else u
  }

  /** `getInt16(offset, true)`: a signed little-endian 16-bit word. */
  function Int16LE(mem: seq<Byte>, offset: nat): (r: Result<int, PosError>)
    ensures r.Ok? <==> offset + 2 <= |mem|
    ensures r.Ok? ==> -0x8000 <= r.value < 0x8000
  {
    if offset + 2 <= |mem| then Ok(Signed16(mem[offset] as int + 256 * mem[offset + 1] as int))
    else Err(OutOfRange(offset))
  }

  /** The two bytes a signed 16-bit value is stored as, low byte first. */
  function EncodeInt16LE(v: int): (bytes: seq<Byte>)
    requires -0x8000 <= v < 0x8000
    ensures |bytes| == 2
  {
    var u := v % 0x1_0000;
    [u % 256, u / 256]
  }

  /** Reading back a stored word gives the stored value. */
  lemma DecodeEncodeInt16(mem: seq<Byte>, offset: nat, v: int)
    requires -0x8000 <= v < 0x8000
    requires offset + 2 <= |mem| && mem[offset..offset + 2] == EncodeInt16LE(v)
    ensures Int16LE(mem, offset) == Ok(v)
  {
    assert mem[offset] == EncodeInt16LE(v)[0] && mem[offset + 1] == EncodeInt16LE(v)[1];
  }

  /** Every pair of bytes is the encoding of the word read from it. */
  lemma EncodeDecodeInt16(mem: seq<Byte>, offset: nat)
    requires offset + 2 <= |mem|
    ensures EncodeInt16LE(Int16LE(mem, offset).value) == mem[offset..offset + 2]
  {
  }

  // ----- Position from RAM -----

  const XRadiusAddr: nat := 0x0afe
  const YRadiusAddr: nat := 0x0b00
  const XCenterAddr: nat := 0x0af6
  const YCenterAddr: nat := 0x0afa
  const AreaAddr: nat := 0x079F
  const MapXAddr: nat := 0x07A1
  const MapYAddr: nat := 0x07A3

  /** `abstractify_pos`: Samus's top-left corner inside the room, in tiles.
      Both coordinates subtract the y radius; the x radius is read (so a
      short memory still fails on it first) but not used. */
  function AbstractifyPos(mem: seq<Byte>): (r: Result<Point, PosError>)
    ensures r.Ok? <==> |mem| >= YRadiusAddr + 2
    ensures r.Err? ==> r.error.OutOfRange?
  {
    match Int16LE(mem, XRadiusAddr)
    case Err(e) => Err(e)
    case Ok(_) =>
      match Int16LE(mem, YRadiusAddr)
      case Err(e) => Err(e)
      case Ok(yRadius) =>
        match Int16LE(mem, XCenterAddr)
        case Err(e) => Err(e)
        case Ok(xCenter) =>
          match Int16LE(mem, YCenterAddr)
          case Err(e) => Err(e)
          case Ok(yCenter) =>
            Ok(Point((xCenter - yRadius) as real / 16.0, (yCenter - yRadius) as real / 16.0))
  }

  /** For memory holding the words (xRadius, yRadius, xCenter, yCenter) at
      their addresses, the room position is ((xCenter - yRadius)/16,
      (yCenter - yRadius)/16), whatever xRadius is. */
  lemma AbstractifyPosOfWords(mem: seq<Byte>, xRadius: int, yRadius: int, xCenter: int, yCenter: int)
    requires -0x8000 <= xRadius < 0x8000 && -0x8000 <= yRadius < 0x8000
    requires -0x8000 <= xCenter < 0x8000 && -0x8000 <= yCenter < 0x8000
    requires |mem| >= YRadiusAddr + 2
    requires mem[XRadiusAddr..XRadiusAddr + 2] == EncodeInt16LE(xRadius)
    requires mem[YRadiusAddr..YRadiusAddr + 2] == EncodeInt16LE(yRadius)
    requires mem[XCenterAddr..XCenterAddr + 2] == EncodeInt16LE(xCenter)
    requires mem[YCenterAddr..YCenterAddr + 2] == EncodeInt16LE(yCenter)
    ensures AbstractifyPos(mem)
         == Ok(Point((xCenter - yRadius) as real / 16.0, (yCenter - yRadius) as real / 16.0))
  {
    DecodeEncodeInt16(mem, XRadiusAddr, xRadius);
    DecodeEncodeInt16(mem, YRadiusAddr, yRadius);
    DecodeEncodeInt16(mem, XCenterAddr, xCenter);
    DecodeEncodeInt16(mem, YCenterAddr, yCenter);
  }

  /** The x radius word does not influence the result. */
  lemma AbstractifyPosIgnoresXRadius(mem: seq<Byte>, lo: Byte, hi: Byte)
    requires |mem| >= YRadiusAddr + 2
    ensures AbstractifyPos(mem[XRadiusAddr := lo][XRadiusAddr + 1 := hi]) == AbstractifyPos(mem)
  {
  }

  /** The offset of each area on the world map, in map tiles. Only areas 0
      to 7 have an entry. */
  const MapAreaOffsets: map<int, (int, int)> := map[
    0 := (3, 10),
    1 := (0, 28),
    2 := (31, 48),
    3 := (37, 0),
    4 := (28, 28),
    5 := (0, 10),
    6 := (0, -10),
    7 := (0, 0)
  ]

  /** `abstractify_pos_global`: the global tile position, 16 times the area
      offset plus 16 times the map tile (bytes 0x07A1, 0x07A3) plus the room
      position. The offsets table is a parameter, as in the source. */
  function AbstractifyPosGlobal(mem: seq<Byte>, offsets: map<int, (int, int)>): (r: Result<Point, PosError>)
    ensures r.Ok? <==> |mem| >= YRadiusAddr + 2 && mem[AreaAddr] in offsets
    ensures r.Err? && r.error.NoAreaOffset? <==> AreaAddr < |mem| && mem[AreaAddr] !in offsets
    ensures r.Ok? ==>
      var area := offsets[mem[AreaAddr]];
      var room := AbstractifyPos(mem).value;
      && r.value.x == 16.0 * area.0 as real + 16.0 * mem[MapXAddr] as real + room.x
      && r.value.y == 16.0 * area.1 as real + 16.0 * mem[MapYAddr] as real + room.y
  {
    match Uint8(mem, AreaAddr)
    case Err(e) => Err(e)
    case Ok(areaIndex) =>
      if areaIndex !in offsets then Err(NoAreaOffset(areaIndex))
      else
        var aoffset := offsets[areaIndex];
        var areaPos := Point(16.0 * aoffset.0 as real, 16.0 * aoffset.1 as real);
        match Uint8(mem, MapXAddr)
        case Err(e) => Err(e)
        case Ok(mapX) =>
          match Uint8(mem, MapYAddr)
          case Err(e) => Err(e)
          case Ok(mapY) =>
            var mapPos := Point(16.0 * mapX as real, 16.0 * mapY as real);
            match AbstractifyPos(mem)
            case Err(e) => Err(e)
            case Ok(roomPos) =>
              Ok(Point(areaPos.x + mapPos.x + roomPos.x, areaPos.y + mapPos.y + roomPos.y))
  }

  /** With the built-in offsets table, a position is found exactly when the
      area byte is 0 to 7; any other area fails at the offset lookup. */
  lemma AreaOffsetsCoverZeroToSeven(mem: seq<Byte>)
    requires |mem| >= YRadiusAddr + 2
    ensures AbstractifyPosGlobal(mem, MapAreaOffsets).Ok? <==> mem[AreaAddr] <= 7
    ensures mem[AreaAddr] > 7 ==>
      AbstractifyPosGlobal(mem, MapAreaOffsets) == Err(NoAreaOffset(mem[AreaAddr]))
  {
    assert MapAreaOffsets.Keys == {0, 1, 2, 3, 4, 5, 6, 7};
  }

  const SamusXAddr: nat := 0x0b04
  const SamusYAddr: nat := 0x0b06

  /** `calculate_samus_pos`: reads the bytes at 0x0b04 and 0x0b06 (which
      fail on a short memory) and then returns the global position computed
      with the built-in offsets table; the two bytes are otherwise unused. */
  function CalculateSamusPos(mem: seq<Byte>): (r: Result<Point, PosError>)
    ensures |mem| > SamusYAddr ==> r == AbstractifyPosGlobal(mem, MapAreaOffsets)
    ensures |mem| <= SamusYAddr ==> r.Err? && r.error.OutOfRange?
    ensures r.Ok? <==> |mem| > SamusYAddr && mem[AreaAddr] <= 7
  {
    match Uint8(mem, SamusXAddr)
    case Err(e) => Err(e)
    case Ok(_) =>
      match Uint8(mem, SamusYAddr)
      case Err(e) => Err(e)
      case Ok(_) =>
        AreaOffsetsCoverZeroToSeven(mem);
        AbstractifyPosGlobal(mem, MapAreaOffsets)
  }

  // ----- Rooms -----

  /** What the room table records about a room. */
  datatype RoomInfo = RoomInfo(region: int, mapPos: (int, int), extent: (int, int), memoryAddress: int)

  /** `x & 0xffff` on an integer: its low 16 bits (JavaScript first wraps to
      32 bits, which does not change the low 16). */
  function Low16(x: int): (r: int)
    ensures 0 <= r < 0x1_0000
    ensures (x - r) % 0x1_0000 == 0
  {
    x % 0x1_0000
  }

  /** `get_samus_room`: the name of the first room, in table order, whose
      memory address has `address` as its low 16 bits; None (null) if none. */
  method GetSamusRoom(address: int, rooms: seq<(string, RoomInfo)>) returns (r: Option<string>)
    ensures r.None? <==> forall i :: 0 <= i < |rooms| ==> Low16(rooms[i].1.memoryAddress) != address
    ensures r.Some? ==> exists i :: 0 <= i < |rooms| && rooms[i].0 == r.value
                                    && Low16(rooms[i].1.memoryAddress) == address
                                    && forall j :: 0 <= j < i ==> Low16(rooms[j].1.memoryAddress) != address
  {
    var i := 0;
    while i < |rooms|
      invariant 0 <= i <= |rooms|
      invariant forall j :: 0 <= j < i ==> Low16(rooms[j].1.memoryAddress) != address
    {
      var (roomName, roomInfo) := rooms[i];
      var memAddr := Low16(roomInfo.memoryAddress);
      if address == memAddr {
        return Some(roomName);
      }
      i := i + 1;
    }
    return None;
  }

  // ----- Map coordinates -----

  const Width: real := 18432.0
  const Height: real := 16896.0
  const PixelsPerDegree: real := 128.0
  const OffsetY: real := -14336.0
  const OffsetX: real := -1280.0
  /** Half the smaller side of the map, in pixels. */
  const Padding: real := (if Width < Height then Width else Height) / 2.0

  /** `pxy_to_loc`: pixels to map degrees; y grows downwards in pixels and
      latitude grows upwards, so y is flipped. */
  function PxyToLoc(p: Point): LatLng {
    LatLng((OffsetY + Height - p.y) / PixelsPerDegree, (OffsetX + p.x) / PixelsPerDegree)
  }

  /** The inverse of `PxyToLoc`. */
  function LocToPxy(l: LatLng): Point {
    Point(l.lng * PixelsPerDegree - OffsetX, OffsetY + Height - l.lat * PixelsPerDegree)
  }

  lemma PxyToLocRoundTrip(p: Point, l: LatLng)
    ensures LocToPxy(PxyToLoc(p)) == p
    ensures PxyToLoc(LocToPxy(l)) == l
  {
  }

  /** Distinct pixels land on distinct locations. */
  lemma PxyToLocInjective(p: Point, q: Point)
    requires PxyToLoc(p) == PxyToLoc(q)
    ensures p == q
  {
    PxyToLocRoundTrip(p, PxyToLoc(p));
    PxyToLocRoundTrip(q, PxyToLoc(q));
  }

  /** `pos_to_loc`: a position in tiles, 16 pixels each. */
  function PosToLoc(pos: Point): (l: LatLng)
    ensures LocToPxy(l) == Point(16.0 * pos.x, 16.0 * pos.y)
  {
    PxyToLocRoundTrip(Point(pos.x * 16.0, pos.y * 16.0), LatLng(0.0, 0.0));
    PxyToLoc(Point(pos.x * 16.0, pos.y * 16.0))
  }

  /** `bounds`: south-west and north-east corners of the map, in degrees. */
  const Bounds: (LatLng, LatLng) := (
    LatLng(OffsetY / PixelsPerDegree, OffsetX / PixelsPerDegree),
    LatLng((OffsetY + Height) / PixelsPerDegree, (OffsetX + Width) / PixelsPerDegree))

  /** `maxBounds`: the bounds widened by the padding on every side. */
  const MaxBounds: (LatLng, LatLng) := (
    LatLng((OffsetY - Padding) / PixelsPerDegree, (OffsetX - Padding) / PixelsPerDegree),
    LatLng((OffsetY + Height + Padding) / PixelsPerDegree, (OffsetX + Width + Padding) / PixelsPerDegree))

  predicate Within(l: LatLng, box: (LatLng, LatLng)) {
    box.0.lat <= l.lat <= box.1.lat && box.0.lng <= l.lng <= box.1.lng
  }

  /** The bounds are the images of the map's pixel corners: pixel (0,0) is
      the north-west corner and pixel (width, height) the south-east one, and
      a pixel lies on the map exactly when its location lies within them. */
  lemma BoundsAreMapCorners(p: Point)
    ensures PxyToLoc(Point(0.0, 0.0)) == LatLng(Bounds.1.lat, Bounds.0.lng)
    ensures PxyToLoc(Point(Width, Height)) == LatLng(Bounds.0.lat, Bounds.1.lng)
    ensures PxyToLoc(Point(0.0, Height)) == Bounds.0
    ensures PxyToLoc(Point(Width, 0.0)) == Bounds.1
    ensures Within(PxyToLoc(p), Bounds) <==> 0.0 <= p.x <= Width && 0.0 <= p.y <= Height
  {
  }

  /** The padding is 66 degrees, the max bounds extend the bounds by it on
      every side, so the bounds lie strictly inside the max bounds. */
  lemma MaxBoundsPadBounds()
    ensures Padding / PixelsPerDegree == 66.0
    ensures MaxBounds.0 == LatLng(Bounds.0.lat - 66.0, Bounds.0.lng - 66.0)
    ensures MaxBounds.1 == LatLng(Bounds.1.lat + 66.0, Bounds.1.lng + 66.0)
    ensures MaxBounds.0.lat < Bounds.0.lat && MaxBounds.0.lng < Bounds.0.lng
    ensures Bounds.1.lat < MaxBounds.1.lat && Bounds.1.lng < MaxBounds.1.lng
  {
  }

  /** The rooms drawn with the extra Crateria offset. */
  const Crateria2Rooms: seq<string> := [
    "East_Ocean",
    "Forgotten_Highway",
    "Crab_Maze",
    "Crateria_Power_Door",
    "Crateria_Maridia_Shaft"
  ]

  const Crateria2Offset: (int, int) := (7, 0)
  const PixelsPerMapTile: int := 256

  /** The pixel rectangle `mk_room_rect` hands to Leaflet, before the
      conversion to degrees. */
  datatype PixelRect = PixelRect(startX: int, startY: int, endX: int, endY: int)

  /** The room's top-left map tile: its map position plus its area offset,
      plus (7, 0) for the Crateria rooms drawn beside Maridia. */
  function RoomStartTile(roomName: string, room: RoomInfo, offsets: map<int, (int, int)>): (r: Result<(int, int), PosError>)
    ensures r.Ok? <==> room.region in offsets
    ensures r.Err? ==> r.error == NoAreaOffset(room.region)
  {
    if room.region !in offsets then Err(NoAreaOffset(room.region))
    else
      var start := (room.mapPos.0 + offsets[room.region].0, room.mapPos.1 + offsets[room.region].1);
      if roomName in Crateria2Rooms
      then Ok((start.0 + Crateria2Offset.0, start.1 + Crateria2Offset.1))
      else Ok(start)
  }

  /** `mk_room_rect`: start and end pixels of a room's rectangle. */
  function RoomRect(roomName: string, room: RoomInfo, offsets: map<int, (int, int)>): (r: Result<PixelRect, PosError>)
    ensures r.Ok? <==> room.region in offsets
    ensures r.Ok? ==>
      && r.value.endX - r.value.startX == PixelsPerMapTile * room.extent.0
      && r.value.endY - r.value.startY == PixelsPerMapTile * room.extent.1
      && r.value.startX % PixelsPerMapTile == 0 && r.value.startY % PixelsPerMapTile == 0
  {
    match RoomStartTile(roomName, room, offsets)
    case Err(e) => Err(e)
    case Ok(tile) =>
      var startX, startY := tile.0 * PixelsPerMapTile, tile.1 * PixelsPerMapTile;
      Ok(PixelRect(startX, startY,
                   startX + room.extent.0 * PixelsPerMapTile, startY + room.extent.1 * PixelsPerMapTile))
  }

  /** With the built-in table, the start tile is the map position plus the
      area offset, moved by exactly (7, 0) for the Crateria rooms and for no
      other name. */
  lemma RoomStartTileOffsets(roomName: string, room: RoomInfo)
    requires room.region in MapAreaOffsets
    ensures RoomStartTile(roomName, room, MapAreaOffsets)
         == Ok((room.mapPos.0 + MapAreaOffsets[room.region].0 + (if roomName in Crateria2Rooms then 7 else 0),
                room.mapPos.1 + MapAreaOffsets[room.region].1))
  {
  }

  /** The rectangle's corners in degrees are those of the room's tiles: a
      map tile is 16 tiles, so its start corner is `pos_to_loc` of 16 times
      the start map tile. */
  lemma RoomRectCornersAreTilePositions(roomName: string, room: RoomInfo, offsets: map<int, (int, int)>)
    requires room.region in offsets
    ensures var tile := RoomStartTile(roomName, room, offsets).value;
            var rect := RoomRect(roomName, room, offsets).value;
            && PxyToLoc(Point(rect.startX as real, rect.startY as real))
               == PosToLoc(Point(16.0 * tile.0 as real, 16.0 * tile.1 as real))
            && PxyToLoc(Point(rect.endX as real, rect.endY as real))
               == PosToLoc(Point(16.0 * (tile.0 + room.extent.0) as real, 16.0 * (tile.1 + room.extent.1) as real))
  {
  }

  // ----- Nodes and the player -----

  /** An entry of `player.nodeList`: the node's location and name (the
      Leaflet circle is not modelled). */
  datatype MapNode = MapNode(loc: LatLng, name: string)

  /** Squared Euclidean distance; `latLngDistance` is its square root,
      which orders distances the same way. */
  function Dist2(a: LatLng, b: LatLng): (d: real)
    ensures d >= 0.0
  {
    (a.lat - b.lat) * (a.lat - b.lat) + (a.lng - b.lng) * (a.lng - b.lng)
  }

  /** `latLngDistance(a, b) <= radius`, written without the square root. */
  predicate InRange(a: LatLng, b: LatLng, radius: real) {
    radius >= 0.0 && Dist2(a, b) <= radius * radius
  }

  /** Squaring keeps the order of non-negative numbers. */
  lemma SquareMonotone(x: real, y: real)
    requires x >= 0.0 && y >= 0.0
    ensures x * x <= y * y <==> x <= y
  {
    if x <= y {
      ChainLe(x * x, x * y, y * y);
    } else {
      ChainLe(y * y, x * y, x * x);
    }
  }

  /** Two comparisons in a row, the chain strict when either step is (the
      solver does not combine these product terms on its own). */
  lemma ChainLe(a: real, b: real, c: real)
    requires a <= b <= c
    ensures a <= c
    ensures a < b || b < c ==> a < c
  {
  }

  /** For the true distance `d` (the square root `latLngDistance` takes),
      the squared comparison agrees with `d <= radius`. */
  lemma InRangeIsDistanceWithin(a: LatLng, b: LatLng, radius: real, d: real)
    requires d >= 0.0 && d * d == Dist2(a, b)
    ensures InRange(a, b, radius) <==> d <= radius
  {
    if radius >= 0.0 {
      SquareMonotone(d, radius);
    }
  }

  /** The nodes within the radius of `at`, in their original order. */
  function Adjacent(nodes: seq<MapNode>, at: LatLng, radius: real): (adj: seq<MapNode>)
    ensures |adj| <= |nodes|
    ensures forall n :: n in adj <==> n in nodes && InRange(n.loc, at, radius)
  {
    if nodes == [] then []
    else
      var rest := Adjacent(nodes[1..], at, radius);
      assert forall n :: n in nodes <==> n == nodes[0] || n in nodes[1..];
      if InRange(nodes[0].loc, at, radius) then [nodes[0]] + rest else rest
  }

  /** `Adjacent` is a filter: a single node is kept exactly when it is in
      range, and together with `AdjacentAppend` this fixes the result as
      the in-range nodes in their order and multiplicity. */
  lemma AdjacentOfOne(n: MapNode, at: LatLng, radius: real)
    ensures Adjacent([n], at, radius) == (if InRange(n.loc, at, radius) then [n] else [])
  {
    assert [n][1..] == [];
  }

  /** Filtering a concatenation filters each part. */
  lemma {:induction false} AdjacentAppend(a: seq<MapNode>, b: seq<MapNode>, at: LatLng, radius: real)
    ensures Adjacent(a + b, at, radius) == Adjacent(a, at, radius) + Adjacent(b, at, radius)
    decreases |a|
  {
    if a == [] {
      assert a + b == b;
    } else {
      assert (a + b)[0] == a[0];
      assert (a + b)[1..] == a[1..] + b;
      AdjacentAppend(a[1..], b, at, radius);
    }
  }

  /** The node at `i` is in range, no in-range node is nearer, and every
      in-range node before it is strictly farther. */
  predicate IsFirstClosestInRange(nodes: seq<MapNode>, at: LatLng, radius: real, i: int) {
    && 0 <= i < |nodes| && InRange(nodes[i].loc, at, radius)
    && (forall j :: 0 <= j < |nodes| && InRange(nodes[j].loc, at, radius) ==>
          Dist2(nodes[i].loc, at) <= Dist2(nodes[j].loc, at))
    && (forall j :: 0 <= j < i && InRange(nodes[j].loc, at, radius) ==>
          Dist2(nodes[i].loc, at) < Dist2(nodes[j].loc, at))
  }

  /** The kept nodes of a non-empty list: the head if it is in range, then
      those of the tail. */
  lemma AdjacentCons(nodes: seq<MapNode>, at: LatLng, radius: real)
    requires nodes != []
    ensures Adjacent(nodes, at, radius)
      == (if InRange(nodes[0].loc, at, radius) then [nodes[0]] else []) + Adjacent(nodes[1..], at, radius)
  {
  }

  /** Where kept node `k` sits in the list: at an index `i` whose prefix
      keeps exactly the first `k` kept nodes. */
  lemma {:induction false} KeptPosition(nodes: seq<MapNode>, at: LatLng, radius: real, k: int) returns (i: nat)
    requires 0 <= k < |Adjacent(nodes, at, radius)|
    ensures i < |nodes| && nodes[i] == Adjacent(nodes, at, radius)[k]
    ensures Adjacent(nodes[..i], at, radius) == Adjacent(nodes, at, radius)[..k]
    decreases |nodes|
  {
    var head: seq<MapNode> := if InRange(nodes[0].loc, at, radius) then [nodes[0]] else [];
    var rest := Adjacent(nodes[1..], at, radius);
    AdjacentCons(nodes, at, radius);
    if k < |head| {
      i := 0;
      assert nodes[..0] == [];
    } else {
      var i' := KeptPosition(nodes[1..], at, radius, k - |head|);
      i := i' + 1;
      KeptPrefixStep(nodes, at, radius, k, i');
    }
  }

  /** One step of `KeptPosition`: a tail prefix that keeps the tail's first
      kept nodes, with the head in front, keeps the list's first `k`. */
  lemma KeptPrefixStep(nodes: seq<MapNode>, at: LatLng, radius: real, k: int, i: nat)
    requires nodes != [] && i < |nodes| - 1
    requires var h := if InRange(nodes[0].loc, at, radius) then 1 else 0;
      h <= k <= |Adjacent(nodes[1..], at, radius)| + h
      && Adjacent(nodes[1..][..i], at, radius) == Adjacent(nodes[1..], at, radius)[..k - h]
    ensures Adjacent(nodes[..i + 1], at, radius) == Adjacent(nodes, at, radius)[..k]
  {
    var head: seq<MapNode> := if InRange(nodes[0].loc, at, radius) then [nodes[0]] else [];
    var rest := Adjacent(nodes[1..], at, radius);
    AdjacentCons(nodes, at, radius);
    AdjacentCons(nodes[..i + 1], at, radius);
    assert nodes[..i + 1][0] == nodes[0];
    assert nodes[..i + 1][1..] == nodes[1..][..i];
    assert (head + rest)[..k] == head + rest[..k - |head|];
  }

  /** The first closest of the kept nodes is the first closest in-range
      node of the whole list. */
  lemma ClosestInFilter(nodes: seq<MapNode>, at: LatLng, radius: real, k: int) returns (i: nat)
    requires IsFirstClosest(Adjacent(nodes, at, radius), at, k)
    ensures IsFirstClosestInRange(nodes, at, radius, i)
    ensures nodes[i] == Adjacent(nodes, at, radius)[k]
  {
    var adj := Adjacent(nodes, at, radius);
    i := KeptPosition(nodes, at, radius, k);
    assert adj[k] in adj;
    forall j | 0 <= j < |nodes| && InRange(nodes[j].loc, at, radius)
      ensures Dist2(nodes[i].loc, at) <= Dist2(nodes[j].loc, at)
    {
      assert nodes[j] in nodes;
      var m :| 0 <= m < |adj| && adj[m] == nodes[j];
    }
    forall j | 0 <= j < i && InRange(nodes[j].loc, at, radius)
      ensures Dist2(nodes[i].loc, at) < Dist2(nodes[j].loc, at)
    {
      assert nodes[..i][j] == nodes[j];
      assert nodes[j] in Adjacent(nodes[..i], at, radius);
      var m :| 0 <= m < k && adj[..k][m] == nodes[j];
      assert adj[m] == nodes[j];
    }
  }

  /** The node at `k` is the first of those at least distance from `at`. */
  predicate IsFirstClosest(nodes: seq<MapNode>, at: LatLng, k: int) {
    && 0 <= k < |nodes|
    && (forall j :: 0 <= j < |nodes| ==> Dist2(nodes[k].loc, at) <= Dist2(nodes[j].loc, at))
    && (forall j :: 0 <= j < k ==> Dist2(nodes[k].loc, at) < Dist2(nodes[j].loc, at))
  }

  /** The loop of `adjacentNodeDetection`: a running minimum that starts at
      infinity and is replaced only by a strictly smaller distance. */
  method Closest(nodes: seq<MapNode>, at: LatLng) returns (closest: Option<nat>)
    ensures closest.None? <==> nodes == []
    ensures closest.Some? ==> IsFirstClosest(nodes, at, closest.value)
  {
    closest := None;
    var minDist: real := 0.0;  // stands for Infinity while closest is None
    var i := 0;
    while i < |nodes|
      invariant 0 <= i <= |nodes|
      invariant closest.None? <==> i == 0
      invariant closest.Some? ==> closest.value < i && minDist == Dist2(nodes[closest.value].loc, at)
      invariant closest.Some? ==> forall j :: 0 <= j < i ==> minDist <= Dist2(nodes[j].loc, at)
      invariant closest.Some? ==> forall j :: 0 <= j < closest.value ==> minDist < Dist2(nodes[j].loc, at)
    {
      var dist := Dist2(nodes[i].loc, at);
      if closest.None? || dist < minDist {
        minDist := dist;
        closest := Some(i);
      }
      i := i + 1;
    }
  }

  /** The player record the maps share: position in tiles, the radius of
      its range circle, its node list and the name of its closest node. */
  class Player {
    var x: real
    var y: real
    var radius: real
    var nodeList: seq<MapNode>
    var closestNode: Option<string>

    constructor (x0: real, y0: real, radius0: real, closest0: Option<string>)
      ensures x == x0 && y == y0 && radius == radius0
      ensures nodeList == [] && closestNode == closest0
    {
      x, y, radius := x0, y0, radius0;
      nodeList := [];
      closestNode := closest0;
    }

    /** `mk_node_circle`: records the node at `pos_to_loc` of its position. */
    method AddNodeCircle(name: string, pos: Point)
      modifies this
      ensures nodeList == old(nodeList) + [MapNode(PosToLoc(pos), name)]
      ensures x == old(x) && y == old(y) && radius == old(radius) && closestNode == old(closestNode)
    {
      var loc := PosToLoc(pos);
      nodeList := nodeList + [MapNode(loc, name)];
    }

    /** `mk_all_node_circles`: one entry per node, in table order. */
    method AddAllNodeCircles(nodes: seq<(string, Point)>)
      modifies this
      ensures nodeList == old(nodeList) + NodeEntries(nodes)
      ensures x == old(x) && y == old(y) && radius == old(radius) && closestNode == old(closestNode)
    {
      var i := 0;
      while i < |nodes|
        invariant 0 <= i <= |nodes|
        invariant nodeList == old(nodeList) + NodeEntries(nodes[..i])
        invariant x == old(x) && y == old(y) && radius == old(radius) && closestNode == old(closestNode)
      {
        AddNodeCircle(nodes[i].0, nodes[i].1);
        assert nodes[..i + 1] == nodes[..i] + [nodes[i]];
        NodeEntriesAppend(nodes[..i], nodes[i]);
        i := i + 1;
      }
      assert nodes[..i] == nodes;
    }

    /** `adjacentNodeDetection`: among the nodes within range of the
        player, the first one at least distance becomes the closest node;
        with none in range the closest node is left as it was. */
    method AdjacentNodeDetection()
      modifies this`closestNode
      ensures (forall i :: 0 <= i < |nodeList| ==> !InRange(nodeList[i].loc, PosToLoc(Point(x, y)), radius)) ==>
              closestNode == old(closestNode)
      ensures (exists i :: 0 <= i < |nodeList| && InRange(nodeList[i].loc, PosToLoc(Point(x, y)), radius)) ==>
              exists i :: IsFirstClosestInRange(nodeList, PosToLoc(Point(x, y)), radius, i)
                          && closestNode == Some(nodeList[i].name)
    {
      var playerLoc := PosToLoc(Point(x, y));
      var adjacent := Adjacent(nodeList, playerLoc, radius);
      var closest := Closest(adjacent, playerLoc);
      if closest.Some? {
        closestNode := Some(adjacent[closest.value].name);
        var i := ClosestInFilter(nodeList, playerLoc, radius, closest.value);
      } else {
        forall i | 0 <= i < |nodeList| ensures !InRange(nodeList[i].loc, playerLoc, radius) {
          assert nodeList[i] in nodeList;
        }
      }
    }
  }

  /** The node-list entries for a table of (name, position) pairs. */
  function NodeEntries(nodes: seq<(string, Point)>): (entries: seq<MapNode>)
    ensures |entries| == |nodes|
    ensures forall i :: 0 <= i < |nodes| ==> entries[i] == MapNode(PosToLoc(nodes[i].1), nodes[i].0)
  {
    seq(|nodes|, i requires 0 <= i < |nodes| => MapNode(PosToLoc(nodes[i].1), nodes[i].0))
  }

  lemma NodeEntriesAppend(nodes: seq<(string, Point)>, node: (string, Point))
    ensures NodeEntries(nodes + [node]) == NodeEntries(nodes) + [MapNode(PosToLoc(node.1), node.0)]
  {
  }
}
