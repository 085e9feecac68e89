/** Two computations of the globe component: `hexToRgb`, which reads a CSS
    colour in `#rgb` or `#rrggbb` form, and the list of arc end points, two
    per arc, with repeated coordinates removed. */
module Globe {
  import opened Wrappers
  import Lists

  datatype Rgb = Rgb(r: nat, g: nat, b: nat)

  /** `[a-f\d]` under the `i` flag. */
  predicate IsHexDigit(c: char) {
    '0' <= c <= '9' || 'a' <= c <= 'f' || 'A' <= c <= 'F'
  }

  function HexValue(c: char): (v: nat)
    requires IsHexDigit(c)
    ensures v < 16
  {
    if '0' <= c <= '9' then c as int - '0' as int
    else if 'a' <= c <= 'f' then c as int - 'a' as int + 10
    else c as int - 'A' as int + 10
  }

  predicate AllHex(s: string) {
    forall i :: 0 <= i < |s| ==> IsHexDigit(s[i])
  }

  /** The digits after an optional leading `#`. */
  function Digits(hex: string): string {
    if hex != [] && hex[0] == '#' then hex[1..] else hex
  }

  /** The first step: a whole string `#?` + three hex digits is replaced by
      the six digits with each doubled, dropping the `#`. */
  function ExpandShorthand(hex: string): (h: string)
    ensures |Digits(hex)| == 3 && AllHex(Digits(hex)) ==> |h| == 6 && Digits(h) == h
  {
    var d := Digits(hex);
    if |d| == 3 && AllHex(d) then [d[0], d[0], d[1], d[1], d[2], d[2]] else hex
  }

  /** `parseInt(pair, 16)`. */
  function PairValue(hi: char, lo: char): (v: nat)
    requires IsHexDigit(hi) && IsHexDigit(lo)
    ensures v <= 255
  {
    16 * HexValue(hi) + HexValue(lo)
  }

  /** `hexToRgb`: the colour, or `None` for `null`. */
  function HexToRgb(hex: string): (c: Option<Rgb>)
    ensures c.Some? ==> c.value.r <= 255 && c.value.g <= 255 && c.value.b <= 255
  {
    var d := Digits(ExpandShorthand(hex));
    if |d| == 6 && AllHex(d) then
      Some(Rgb(PairValue(d[0], d[1]), PairValue(d[2], d[3]), PairValue(d[4], d[5])))
    else None
  }

  /** The inputs that give a colour: an optional `#`, then exactly three or
      exactly six hex digits. */
  predicate IsHexColour(hex: string) {
    (|Digits(hex)| == 3 || |Digits(hex)| == 6) && AllHex(Digits(hex))
  }

  /** Any other input gives `None`. */
  lemma HexToRgbDefined(hex: string)
    ensures HexToRgb(hex).Some? <==> IsHexColour(hex)
  {
    var d := Digits(hex);
    if |d| == 3 && AllHex(d) {
      var h := ExpandShorthand(hex);
      assert AllHex(h) by {
        forall i | 0 <= i < 6
          ensures IsHexDigit(h[i])
        {
          assert h[i] == d[i / 2];
        }
      }
    } else if HexToRgb(hex).Some? {
      assert ExpandShorthand(hex) == hex;
    }
  }

  /** Six digits, after an optional `#`: the pairs in order, in either case. */
  lemma LongForm(hex: string)
    requires |Digits(hex)| == 6 && AllHex(Digits(hex))
    ensures var d := Digits(hex);
      HexToRgb(hex) == Some(Rgb(PairValue(d[0], d[1]), PairValue(d[2], d[3]), PairValue(d[4], d[5])))
  {
  }

  /** `#abc` reads like `#aabbcc`, and so without the `#`. */
  lemma ShorthandDoubles(x: char, y: char, z: char)
    requires IsHexDigit(x) && IsHexDigit(y) && IsHexDigit(z)
    ensures HexToRgb(['#', x, y, z]) == HexToRgb(['#', x, x, y, y, z, z])
    ensures HexToRgb([x, y, z]) == HexToRgb(['#', x, x, y, y, z, z])
  {
    assert Digits(['#', x, y, z]) == [x, y, z];
    assert Digits(['#', x, x, y, y, z, z]) == [x, x, y, y, z, z];
    assert AllHex([x, y, z]);
    assert AllHex([x, x, y, y, z, z]);
  }

  /** Upper and lower case name the same colour. */
  lemma CaseInsensitive(hi: char, lo: char)
    requires 'a' <= hi <= 'f' && 'a' <= lo <= 'f'
    ensures PairValue(hi, lo) == PairValue((hi as int - 32) as char, (lo as int - 32) as char)
  {
  }

  /** One arc of the globe's data. */
  datatype Arc = Arc(order: int, startLat: real, startLng: real, endLat: real, endLng: real,
                     arcAlt: real, color: string)

  datatype Point = Point(size: real, order: int, color: string, lat: real, lng: real)

  function StartPoint(arc: Arc, pointSize: real): Point {
    Point(pointSize, arc.order, arc.color, arc.startLat, arc.startLng)
  }

  function EndPoint(arc: Arc, pointSize: real): Point {
    Point(pointSize, arc.order, arc.color, arc.endLat, arc.endLng)
  }

  /** The loop that pushes, for each arc in turn, its start and then its end
      point. */
  method BuildPoints(arcs: seq<Arc>, pointSize: real) returns (points: seq<Point>)
    ensures |points| == 2 * |arcs|
    ensures forall i :: 0 <= i < |arcs| ==>
      points[2 * i] == StartPoint(arcs[i], pointSize) && points[2 * i + 1] == EndPoint(arcs[i], pointSize)
  {
    points := [];
    for i := 0 to |arcs|
      invariant |points| == 2 * i
      invariant forall k :: 0 <= k < i ==>
        points[2 * k] == StartPoint(arcs[k], pointSize) && points[2 * k + 1] == EndPoint(arcs[k], pointSize)
    {
      points := points + [StartPoint(arcs[i], pointSize)];
      points := points + [EndPoint(arcs[i], pointSize)];
    }
  }

  /** The coordinates two points are compared on. */
  function LatLng(p: Point): (real, real) {
    (p.lat, p.lng)
  }

  /** `points.filter((v, i, a) => a.findIndex(same lat and lng as v) === i)`. */
  function DedupPoints(points: seq<Point>): (r: seq<Point>)
    ensures |r| <= |points|
    ensures forall i, j :: 0 <= i < j < |r| ==> LatLng(r[i]) != LatLng(r[j])
    ensures Lists.Keys(r, LatLng) == Lists.Keys(points, LatLng)
    ensures Lists.IsSubsequence(r, points)
  {
    Lists.DedupIsSubsequence(points, LatLng);
    Lists.DedupBy(points, LatLng)
  }

  /** A point is kept when no earlier point shares its coordinates. */
  lemma DedupKeepsFirstPoint(points: seq<Point>, i: nat)
    requires i < |points|
    requires forall j :: 0 <= j < i ==> LatLng(points[j]) != LatLng(points[i])
    ensures points[i] in DedupPoints(points)
  {
    Lists.DedupKeepsFirst(points, LatLng, i);
  }

  /** The globe's point list has at most two entries per arc, and covers the
      start and end of every arc. */
  lemma GlobePoints(arcs: seq<Arc>, points: seq<Point>, pointSize: real)
    requires |points| == 2 * |arcs|
    requires forall i :: 0 <= i < |arcs| ==>
      points[2 * i] == StartPoint(arcs[i], pointSize) && points[2 * i + 1] == EndPoint(arcs[i], pointSize)
    ensures |DedupPoints(points)| <= 2 * |arcs|
    ensures forall i :: 0 <= i < |arcs| ==>
      (arcs[i].startLat, arcs[i].startLng) in Lists.Keys(DedupPoints(points), LatLng)
      && (arcs[i].endLat, arcs[i].endLng) in Lists.Keys(DedupPoints(points), LatLng)
  {
    Lists.KeysMembers(points, LatLng);
    forall i | 0 <= i < |arcs|
      ensures (arcs[i].startLat, arcs[i].startLng) in Lists.Keys(points, LatLng)
      ensures (arcs[i].endLat, arcs[i].endLng) in Lists.Keys(points, LatLng)
    {
      assert LatLng(points[2 * i]) == (arcs[i].startLat, arcs[i].startLng);
      assert LatLng(points[2 * i + 1]) == (arcs[i].endLat, arcs[i].endLng);
    }
  }
}
