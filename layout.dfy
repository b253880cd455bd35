/**
 * The grid compositor of the image watcher: the layout table that maps the
 * camera count N (1..9) to a black canvas and an ordered list of insert
 * positions, the insertion of every fetched image at its slot's position,
 * and the downscaling of the composite to the configured maximum width.
 *
 * Images are opaque tokens of a type parameter `Img`; every fetched image
 * has already been resized to one 640x480 tile.
 */
module Layout {

  import opened Wrappers

  /** The largest camera count the layout table handles. */
  const MaxCameras := 9

  /** Size of one camera tile after the fetch step's resize. */
  const TileWidth := 640
  const TileHeight := 480

  /** The maximum composite width when none is configured. */
  const DefaultMaxWidth := 1280

  /** The insert positions of the image library, one per named position string. */
  datatype Anchor =
    | TopLeft | Top | TopRight
    | Left | Center | Right
    | BottomLeft | Bottom | BottomRight

  /** The position string handed to the image library's insert call. */
  function PositionName(a: Anchor): string
  {
    match a
    case TopLeft => "top-left"
    case Top => "top"
    case TopRight => "top-right"
    case Left => "left"
    case Center => "center"
    case Right => "right"
    case BottomLeft => "bottom-left"
    case Bottom => "bottom"
    case BottomRight => "bottom-right"
  }

  /** Canvas size and the insert position of each slot, in slot order. */
  datatype Grid = Grid(width: int, height: int, anchors: seq<Anchor>)

  function Columns(g: Grid): int { g.width / TileWidth }
  function Rows(g: Grid): int { g.height / TileHeight }

  /**
   * The layout table. The canvas is a whole number of tiles, every slot has
   * a position of its own, and the canvas has no row that stays empty when
   * all N slots are filled.
   */
  function GridFor(n: int): (g: Grid)
    requires 1 <= n <= MaxCameras
    ensures |g.anchors| == n
    ensures forall i, j :: 0 <= i < j < n ==> g.anchors[i] != g.anchors[j]
    ensures g.width % TileWidth == 0 && g.height % TileHeight == 0
    ensures 1 <= Columns(g) <= 3 && 1 <= Rows(g) <= 3
    ensures (Rows(g) - 1) * Columns(g) < n <= Rows(g) * Columns(g)
  {
    if n == 1 then Grid(640, 480, [TopLeft])
    else if n == 2 then Grid(640, 960, [TopLeft, BottomLeft])
    else if n == 3 then Grid(1280, 960, [TopLeft, TopRight, BottomLeft])
    else if n == 4 then Grid(1280, 960, [TopLeft, TopRight, BottomLeft, BottomRight])
    else if n == 5 then Grid(1920, 960, [TopLeft, Top, TopRight, BottomLeft, Bottom])
    else if n == 6 then Grid(1920, 960, [TopLeft, Top, TopRight, BottomLeft, Bottom, BottomRight])
    else if n == 7 then Grid(1920, 1440, [TopLeft, Top, TopRight, Left, Center, Right, BottomLeft])
    else if n == 8 then Grid(1920, 1440, [TopLeft, Top, TopRight, Left, Center, Right, BottomLeft, Bottom])
    else Grid(1920, 1440, [TopLeft, Top, TopRight, Left, Center, Right, BottomLeft, Bottom, BottomRight])
  }

  /**
   * Where the image library puts the top-left corner of a w x h image
   * inserted at anchor `a` on a cw x ch canvas: the image's own pivot
   * (left/centre/right, top/middle/bottom) is laid on the canvas's pivot.
   */
  function Offset(a: Anchor, cw: int, ch: int, w: int, h: int): (int, int)
    requires 0 <= w && 0 <= h
  {
    var x := match a
      case TopLeft | Left | BottomLeft => 0
      case Top | Center | Bottom => cw / 2 - w / 2
      case TopRight | Right | BottomRight => cw - w;
    var y := match a
      case TopLeft | Top | TopRight => 0
      case Left | Center | Right => ch / 2 - h / 2
      case BottomLeft | Bottom | BottomRight => ch - h;
    (x, y)
  }

  /** The tile of slot `i` in a row-major grid `cols` tiles wide. */
  function RowMajorCell(i: nat, cols: nat): (int, int)
    requires cols > 0
  {
    (TileWidth * (i % cols), TileHeight * (i / cols))
  }

  /**
   * The table lays the slots out in reading order: slot i lands on the i-th
   * tile of the canvas, counted row by row from the top-left.
   */
  lemma {:induction false} SlotsFillRowMajor(n: int, i: nat)
    requires 1 <= n <= MaxCameras && i < n
    ensures var g := GridFor(n);
      Offset(g.anchors[i], g.width, g.height, TileWidth, TileHeight) == RowMajorCell(i, Columns(g))
  {
    var g := GridFor(n);
    if n <= 2 {
      assert Columns(g) == 1;
    } else if n <= 4 {
      assert Columns(g) == 2;
      assert i == 0 || i == 1 || i == 2 || i == 3;
    } else {
      assert Columns(g) == 3;
      assert i == 0 || i == 1 || i == 2 || i == 3 || i == 4 || i == 5 || i == 6 || i == 7 || i == 8;
    }
  }

  /**
   * Consequently the N tiles lie inside the canvas and no two of them
   * overlap.
   */
  lemma TilesInsideAndDisjoint(n: int, i: nat, j: nat)
    requires 1 <= n <= MaxCameras && i < n && j < n && i != j
    ensures var g := GridFor(n);
      var p := Offset(g.anchors[i], g.width, g.height, TileWidth, TileHeight);
      var q := Offset(g.anchors[j], g.width, g.height, TileWidth, TileHeight);
      && 0 <= p.0 && p.0 + TileWidth <= g.width
      && 0 <= p.1 && p.1 + TileHeight <= g.height
      && (p.0 + TileWidth <= q.0 || q.0 + TileWidth <= p.0
          || p.1 + TileHeight <= q.1 || q.1 + TileHeight <= p.1)
  {
    var g := GridFor(n);
    SlotsFillRowMajor(n, i);
    SlotsFillRowMajor(n, j);
    CellInside(i, n, Columns(g), Rows(g));
    CellsApart(i, j, Columns(g));
  }

  lemma CellInside(i: nat, n: nat, cols: int, rows: int)
    requires i < n <= rows * cols && 1 <= cols
    ensures var c := RowMajorCell(i, cols);
      0 <= c.0 && c.0 + TileWidth <= TileWidth * cols && 0 <= c.1 && c.1 + TileHeight <= TileHeight * rows
  {
  }

  lemma CellsApart(i: nat, j: nat, cols: int)
    requires i != j && 1 <= cols
    ensures var p := RowMajorCell(i, cols); var q := RowMajorCell(j, cols);
      p.0 + TileWidth <= q.0 || q.0 + TileWidth <= p.0 || p.1 + TileHeight <= q.1 || q.1 + TileHeight <= p.1
  {
    assert i == cols * (i / cols) + i % cols;
    assert j == cols * (j / cols) + j % cols;
  }

  /** The anchor lists that grow by one trailing position from one row of the table to the next. */
  lemma AnchorListsExtend()
    ensures GridFor(4).anchors == GridFor(3).anchors + [BottomRight]
    ensures GridFor(6).anchors == GridFor(5).anchors + [BottomRight]
    ensures GridFor(8).anchors == GridFor(7).anchors + [Bottom]
    ensures GridFor(9).anchors == GridFor(8).anchors + [BottomRight]
  {
  }

  /** Different positions are different strings for the image library. */
  lemma PositionNameInjective(a: Anchor, b: Anchor)
    ensures PositionName(a) == PositionName(b) ==> a == b
  {
  }

  /** No two slots of a row hand the same position string to the insert call. */
  lemma RowPositionNamesDistinct(n: int, i: int, j: int)
    requires 1 <= n <= MaxCameras && 0 <= i < j < n
    ensures PositionName(GridFor(n).anchors[i]) != PositionName(GridFor(n).anchors[j])
  {
  }

  /** The position strings of the nine-camera row, in slot order. */
  lemma NineCameraPositionNames()
    ensures seq(9, i requires 0 <= i < 9 => PositionName(GridFor(9).anchors[i]))
      == ["top-left", "top", "top-right", "left", "center", "right", "bottom-left", "bottom", "bottom-right"]
  {
  }

  /** One insert call: the image of `slot`, put at `anchor`. */
  datatype Placement<Img> = Placement(slot: nat, image: Img, anchor: Anchor)

  /** The composite before scaling: a black canvas and the inserts made on it, in order. */
  datatype Frame<Img> = Frame(width: int, height: int, placements: seq<Placement<Img>>)

  /** The number of slots holding an image. */
  function PresentCount<Img>(images: seq<Option<Img>>): nat
  {
    if images == [] then 0
    else (if images[0].Some? then 1 else 0) + PresentCount(images[1..])
  }

  /** True when some insert of `ps` is for slot `i`. */
  predicate Inserted<Img>(ps: seq<Placement<Img>>, i: nat)
  {
    exists k :: 0 <= k < |ps| && ps[k].slot == i
  }

  /** The inserts for slots `from` .. |images|-1: one per slot holding an image, in slot order. */
  function PlaceFrom<Img>(images: seq<Option<Img>>, anchors: seq<Anchor>, from: nat): (ps: seq<Placement<Img>>)
    requires |anchors| == |images| && from <= |images|
    ensures |ps| <= |images| - from
    ensures forall k :: 0 <= k < |ps| ==>
      && from <= ps[k].slot < |images|
      && images[ps[k].slot] == Some(ps[k].image)
      && ps[k].anchor == anchors[ps[k].slot]
    ensures forall k, l :: 0 <= k < l < |ps| ==> ps[k].slot < ps[l].slot
    ensures forall i :: from <= i < |images| && images[i].Some? ==> Inserted(ps, i)
    decreases |images| - from
  {
    if from == |images| then []
    else
      var rest := PlaceFrom(images, anchors, from + 1);
      if images[from].Some? then
        var ps := [Placement(from, images[from].value, anchors[from])] + rest;
        ConsKeepsInserted(ps[0], rest);
        ps
      else rest
  }

  /** One insert per fetched image: the inserts number exactly the slots holding an image. */
  lemma {:induction false} PlacementsCountPresent<Img>(images: seq<Option<Img>>, anchors: seq<Anchor>, from: nat)
    requires |anchors| == |images| && from <= |images|
    ensures |PlaceFrom(images, anchors, from)| == PresentCount(images[from..])
    decreases |images| - from
  {
    if from < |images| {
      PlacementsCountPresent(images, anchors, from + 1);
      assert images[from..][1..] == images[from + 1..];
    }
  }

  lemma ConsKeepsInserted<Img>(p: Placement<Img>, rest: seq<Placement<Img>>)
    ensures Inserted([p] + rest, p.slot)
    ensures forall i :: Inserted(rest, i) ==> Inserted([p] + rest, i)
  {
    var ps := [p] + rest;
    assert ps[0].slot == p.slot;
    forall i | Inserted(rest, i) ensures Inserted(ps, i) {
      var k :| 0 <= k < |rest| && rest[k].slot == i;
      assert ps[k + 1].slot == i;
    }
  }

  /**
   * The compositor: the canvas of the layout table's row for N = |images|,
   * with slot i inserted at the row's i-th position exactly when its image
   * was fetched.
   */
  function Compose<Img>(images: seq<Option<Img>>): (f: Frame<Img>)
    requires 1 <= |images| <= MaxCameras
    ensures f.width == GridFor(|images|).width && f.height == GridFor(|images|).height
    ensures |f.placements| == PresentCount(images) <= |images|
    ensures forall k :: 0 <= k < |f.placements| ==>
      && f.placements[k].slot < |images|
      && images[f.placements[k].slot] == Some(f.placements[k].image)
      && f.placements[k].anchor == GridFor(|images|).anchors[f.placements[k].slot]
    ensures forall k, l :: 0 <= k < l < |f.placements| ==> f.placements[k].slot < f.placements[l].slot
    ensures forall i :: 0 <= i < |images| ==> (images[i].Some? <==> Inserted(f.placements, i))
  {
    var g := GridFor(|images|);
    var ps := PlaceFrom(images, g.anchors, 0);
    assert images[0..] == images;
    PlacementsCountPresent(images, g.anchors, 0);
    PresentCountBound(images);
    Frame(g.width, g.height, ps)
  }

  lemma {:induction false} PresentCountBound<Img>(images: seq<Option<Img>>)
    ensures PresentCount(images) <= |images|
    ensures PresentCount(images) == 0 <==> forall i :: 0 <= i < |images| ==> images[i].None?
  {
    if images != [] {
      PresentCountBound(images[1..]);
      assert forall i :: 1 <= i < |images| ==> images[i] == images[1..][i - 1];
    }
  }

  /** When every fetch failed the composite is the bare black canvas of the table's size. */
  lemma AllAbsentIsBlankCanvas<Img>(images: seq<Option<Img>>)
    requires 1 <= |images| <= MaxCameras
    requires forall i :: 0 <= i < |images| ==> images[i].None?
    ensures Compose(images).placements == []
    ensures Compose(images).width == GridFor(|images|).width
    ensures Compose(images).height == GridFor(|images|).height
  {
    PresentCountBound(images);
  }

  /** Which slots were fetched never changes the canvas size, only the inserts. */
  lemma SizeIgnoresAbsence<Img>(a: seq<Option<Img>>, b: seq<Option<Img>>)
    requires 1 <= |a| <= MaxCameras && |a| == |b|
    ensures Compose(a).width == Compose(b).width && Compose(a).height == Compose(b).height
  {
  }

  /** Three cameras, all fetched: a 1280x960 canvas with tiles at top-left, top-right and bottom-left. */
  lemma ThreeCamerasAllFetched<Img>(x: Img, y: Img, z: Img)
    ensures var f := Compose([Some(x), Some(y), Some(z)]);
      && f.width == 1280 && f.height == 960
      && f.placements == [Placement(0, x, TopLeft), Placement(1, y, TopRight), Placement(2, z, BottomLeft)]
  {
    var images := [Some(x), Some(y), Some(z)];
    var f := Compose(images);
    assert PresentCount(images) == 3 by {
      assert images[1..] == [Some(y), Some(z)];
      assert [Some(y), Some(z)][1..] == [Some(z)];
      assert PresentCount([Some(z)]) == 1 by {
        assert [Some(z)][1..] == [];
      }
    }
    assert f.placements[0].slot == 0;
    assert f.placements[1].slot == 1;
    assert f.placements[2].slot == 2;
  }

  /** Two cameras, the first fetch failed: a 640x960 canvas with only the bottom-left tile. */
  lemma TwoCamerasFirstFailed<Img>(y: Img)
    ensures var f := Compose([None, Some(y)]);
      f.width == 640 && f.height == 960 && f.placements == [Placement(1, y, BottomLeft)]
  {
    var images: seq<Option<Img>> := [None, Some(y)];
    assert PresentCount(images) == 1 by {
      assert images[1..] == [Some(y)];
      assert PresentCount([Some(y)]) == 1 by {
        assert [Some(y)][1..] == [];
      }
    }
    var f := Compose(images);
    assert f.placements[0].slot == 1;
  }

  /** A width and height in pixels. */
  datatype Size = Size(width: int, height: int)

  /**
   * The scale step: only a composite wider than `maxWidth` is resized, to
   * exactly `maxWidth`, with the height following the aspect ratio (to the
   * nearest pixel); a composite is never enlarged.
   */
  function Downscale(s: Size, maxWidth: int): (r: Size)
    requires s.width > 0 && s.height > 0 && maxWidth > 0
    ensures s.width <= maxWidth ==> r == s
    ensures s.width > maxWidth ==> r.width == maxWidth
    ensures r.width <= s.width && r.height <= s.height
    ensures s.width > maxWidth ==> -s.width < 2 * (r.height * s.width - maxWidth * s.height) <= s.width
    ensures (r.width * s.height) % s.width == 0 ==> r.height * s.width == r.width * s.height
  {
    if s.width > maxWidth then
      var h := (2 * maxWidth * s.height + s.width) / (2 * s.width);
      RoundedRatio(s.width, s.height, maxWidth, h);
      Size(maxWidth, h)
    else s
  }

  lemma RoundedRatio(w: int, hgt: int, m: int, h: int)
    requires 0 < m < w && 0 < hgt
    requires h == (2 * m * hgt + w) / (2 * w)
    ensures -w < 2 * (h * w - m * hgt) <= w
    ensures h <= hgt
    ensures (m * hgt) % w == 0 ==> h * w == m * hgt
  {
    RoundingError(w, m * hgt, h);
    assert m * hgt < w * hgt by {
      MulAtLeast(hgt, w - m);
      assert w * hgt == m * hgt + hgt * (w - m);
    }
    RoundedBelow(w, hgt, m * hgt, h);
    if (m * hgt) % w == 0 {
      RoundedExact(w, m * hgt, h);
    }
  }

  /** h = round(mh / w): h differs from mh / w by at most one half, ties rounded up. */
  lemma RoundingError(w: int, mh: int, h: int)
    requires 0 < w && h == (2 * mh + w) / (2 * w)
    ensures -w < 2 * (h * w - mh) <= w
  {
    var d := 2 * w;
    var r := (2 * mh + w) % d;
    assert 2 * mh + w == d * h + r && 0 <= r < d;
    assert d * h == 2 * (h * w);
  }

  lemma RoundedBelow(w: int, hgt: int, mh: int, h: int)
    requires 0 < w && mh < w * hgt && h == (2 * mh + w) / (2 * w)
    ensures h <= hgt
  {
    var d := 2 * w;
    assert d * h <= 2 * mh + w;
    if h > hgt {
      MulStep(d, hgt, h);
    }
  }

  lemma RoundedExact(w: int, mh: int, h: int)
    requires 0 < w && mh % w == 0 && h == (2 * mh + w) / (2 * w)
    ensures h * w == mh
  {
    var q := mh / w;
    assert mh == w * q;
    assert 2 * mh + w == (2 * w) * q + w;
    DivUnique(2 * mh + w, 2 * w, q, w);
  }

  lemma MulAtLeast(d: int, k: int)
    requires d > 0 && k >= 1
    ensures d * k >= d
    decreases k
  {
    if k > 1 {
      MulAtLeast(d, k - 1);
      assert d * k == d * (k - 1) + d;
    }
  }

  lemma MulStep(d: int, a: int, b: int)
    requires d > 0 && a < b
    ensures d * a + d <= d * b
  {
    MulAtLeast(d, b - a);
    assert d * b == d * a + d * (b - a);
  }

  lemma DivUnique(a: int, d: int, q: int, r: int)
    requires 0 <= r < d && a == d * q + r
    ensures a / d == q
  {
    var q', r' := a / d, a % d;
    assert a == d * q' + r' && 0 <= r' < d;
    if q' > q {
      MulStep(d, q, q');
    } else if q' < q {
      MulStep(d, q', q);
    }
  }

  /** With the default maximum width of 1280 the three-column canvases shrink to exactly two thirds of their size. */
  lemma DefaultWidthScaling()
    ensures Downscale(Size(640, 480), DefaultMaxWidth) == Size(640, 480)
    ensures Downscale(Size(1280, 960), DefaultMaxWidth) == Size(1280, 960)
    ensures Downscale(Size(1920, 960), DefaultMaxWidth) == Size(1280, 640)
    ensures Downscale(Size(1920, 1440), DefaultMaxWidth) == Size(1280, 960)
  {
  }
}
