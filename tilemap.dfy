/**
 * The map screen: it gathers the distinct tile numbers used by the map's
 * layers, asks for one image per number, waits until every request has
 * either loaded or failed, and then paints the layers bottom to top, row
 * by row, onto a canvas of 64-pixel cells.
 *
 * Image loading is driven by explicit events (`OnLoad`, `OnError`) and the
 * canvas is a log of draw commands; pixels, smoothing and alpha blending
 * are not modelled.
 */
module TileMap {
  import opened Base

  /** Edge length of one map cell on the canvas, in pixels. */
  const TileSize: nat := 64

  const TilePrefix: string := "/tiles/mapTile_"
  const TileSuffix: string := ".png"

  /** One layer: its cell values, row-major. */
  datatype Layer = Layer(data: seq<int>)

  /** The map document: size in cells and its layers, bottom first. */
  datatype Roadmap = Roadmap(width: nat, height: nat, layers: seq<Layer>)

  /** A loaded image, identified by the address it was loaded from. */
  datatype Image = Image(src: string)

  /** One `drawImage` call: the tile drawn and its destination rectangle. */
  datatype Draw = Draw(tile: int, dx: int, dy: int, w: int, h: int)

  // ---------------------------------------------------------------------
  // Tile numbers used by the map

  /** `t` occurs in the data of some layer. */
  predicate InLayers(layers: seq<Layer>, t: int)
  {
    exists k :: 0 <= k < |layers| && t in layers[k].data
  }

  /** The tile numbers worth loading: positive values found in any layer. */
  predicate Wanted(m: Roadmap, t: int)
  {
    t > 0 && InLayers(m.layers, t)
  }

  /** The same collection as a set, cell by cell. */
  ghost function TileSet(m: Roadmap): set<int>
  {
    set l, i | 0 <= l < |m.layers| && 0 <= i < |m.layers[l].data| && m.layers[l].data[i] > 0
      :: m.layers[l].data[i]
  }

  /**
   * Walks every layer and every cell, adding each positive value the first
   * time it is seen (insertion order, as a JavaScript `Set` keeps it).
   */
  method UniqueTiles(m: Roadmap) returns (tiles: seq<int>)
    ensures Distinct(tiles)
    ensures forall t :: t in tiles <==> Wanted(m, t)
    ensures |tiles| == |TileSet(m)|
  {
    tiles := [];
    var l := 0;
    while l < |m.layers|
      invariant 0 <= l <= |m.layers|
      invariant Distinct(tiles)
      invariant forall t :: t in tiles <==> t > 0 && InLayers(m.layers[..l], t)
    {
      var data := m.layers[l].data;
      var i := 0;
      while i < |data|
        invariant 0 <= i <= |data|
        invariant Distinct(tiles)
        invariant forall t :: t in tiles <==> t > 0 && (InLayers(m.layers[..l], t) || t in data[..i])
      {
        var tile := data[i];
        if tile > 0 && tile !in tiles {
          tiles := tiles + [tile];
        }
        assert data[..i + 1] == data[..i] + [data[i]];
        i := i + 1;
      }
      assert data[..i] == data;
      forall t ensures InLayers(m.layers[..l + 1], t) <==> InLayers(m.layers[..l], t) || t in data {
        if t in data {
          assert m.layers[..l + 1][l] == m.layers[l];
        }
        if InLayers(m.layers[..l + 1], t) {
          var k :| 0 <= k < l + 1 && t in m.layers[..l + 1][k].data;
          if k < l {
            assert m.layers[..l][k] == m.layers[..l + 1][k];
          }
        }
      }
      l := l + 1;
    }
    assert m.layers[..l] == m.layers;
    OneAttemptPerTile(m, tiles);
  }

  /** A duplicate-free list of exactly the wanted tiles is as long as the set of tiles in the roadmap. */
  lemma OneAttemptPerTile(m: Roadmap, tiles: seq<int>)
    requires Distinct(tiles)
    requires forall t :: t in tiles <==> Wanted(m, t)
    ensures |tiles| == |TileSet(m)|
  {
    DistinctCard(tiles);
    forall t ensures t in TileSet(m) <==> t in tiles {
      if t in tiles {
        var k :| 0 <= k < |m.layers| && t in m.layers[k].data;
        var i :| 0 <= i < |m.layers[k].data| && m.layers[k].data[i] == t;
        assert t in TileSet(m);
      }
    }
    assert Elements(tiles) == TileSet(m);
  }

  // ---------------------------------------------------------------------
  // Asset addresses

  /** The image address for a tile number: its decimal digits left-padded with '0' to three characters. */
  function TilePath(tile: int): (p: string)
  {
    TilePrefix + PadStart(IntString(tile), 3, '0') + TileSuffix
  }

  /** The padded number inside the address of a positive tile. */
  function TileDigits(tile: nat): string
  {
    PadStart(Decimal(tile), 3, '0')
  }

  /**
   * The address of a positive tile is the fixed prefix, at least three
   * digits that read back as the tile number (more digits are kept, never
   * cut), and the fixed suffix.
   */
  lemma TilePathShape(tile: int)
    requires tile > 0
    ensures var p := TilePath(tile);
      p == TilePrefix + TileDigits(tile) + TileSuffix &&
      |TileDigits(tile)| == (if tile < 1000 then 3 else |Decimal(tile)|) &&
      (forall i :: 0 <= i < |TileDigits(tile)| ==> IsDigit(TileDigits(tile)[i])) &&
      DigitsValue(TileDigits(tile)) == tile
  {
    PaddedDecimalValue(tile, 3);
    DecimalWidth(tile);
  }

  /** Numbers below 1000 take at most three digits, larger ones at least four. */
  lemma {:induction false} DecimalWidth(n: nat)
    ensures n < 1000 ==> |Decimal(n)| <= 3
    ensures n >= 1000 ==> |Decimal(n)| >= 4
  {
    if n >= 10 {
      DecimalWidth(n / 10);
    }
  }

  /** Different positive tiles get different addresses, so no two tiles share an image. */
  lemma TilePathInjective(a: int, b: int)
    requires a > 0 && b > 0
    requires TilePath(a) == TilePath(b)
    ensures a == b
  {
    TilePathShape(a);
    TilePathShape(b);
    var p := TilePath(a);
    assert TileDigits(a) == p[|TilePrefix|..|p| - |TileSuffix|];
    assert TileDigits(b) == p[|TilePrefix|..|p| - |TileSuffix|];
  }

  // ---------------------------------------------------------------------
  // Painting, as a specification

  /** The cell value at a flat index; reading past the data gives nothing to draw. */
  function Cell(data: seq<int>, i: nat): int
  {
    if i < |data| then data[i] else 0
  }

  /** The cell at column `x` of row `y` holds a tile whose image loaded. */
  predicate Drawable(data: seq<int>, w: nat, loaded: set<int>, y: nat, x: nat)
  {
    Cell(data, y * w + x) > 0 && Cell(data, y * w + x) in loaded
  }

  /** The draw command for the cell at column `x` of row `y`. */
  function DrawAt(data: seq<int>, w: nat, y: nat, x: nat): Draw
  {
    Draw(Cell(data, y * w + x), x * TileSize, y * TileSize, TileSize, TileSize)
  }

  /** A draw fills one whole cell of a `w` by `h` map's canvas. */
  predicate InCanvas(d: Draw, w: nat, h: nat)
  {
    0 <= d.dx && d.dx + d.w <= CanvasWidth(w) &&
    0 <= d.dy && d.dy + d.h <= CanvasHeight(h) &&
    d.w == TileSize && d.h == TileSize
  }

  function CanvasWidth(w: nat): nat { w * TileSize }

  function CanvasHeight(h: nat): nat { h * TileSize }

  /** The column and row of the cell a draw targets. */
  function Col(d: Draw): int { d.dx / TileSize }

  function Row(d: Draw): int { d.dy / TileSize }

  /** A draw command is the one of a drawable cell inside a map `w` cells wide. */
  predicate DrawsCell(data: seq<int>, w: nat, loaded: set<int>, d: Draw)
  {
    0 <= Row(d) && 0 <= Col(d) < w &&
    d == DrawAt(data, w, Row(d), Col(d)) && Drawable(data, w, loaded, Row(d), Col(d))
  }

  lemma DrawAtCoords(data: seq<int>, w: nat, y: nat, x: nat)
    ensures Row(DrawAt(data, w, y, x)) == y && Col(DrawAt(data, w, y, x)) == x
  {
  }

  /** The draws for the first `n` cells of row `y`, left to right. */
  function RowDraws(data: seq<int>, w: nat, loaded: set<int>, y: nat, n: nat): seq<Draw>
  {
    if n == 0 then []
    else
      var prefix := RowDraws(data, w, loaded, y, n - 1);
      if Drawable(data, w, loaded, y, n - 1) then prefix + [DrawAt(data, w, y, n - 1)] else prefix
  }

  /** The draws for the first `n` rows of a layer, in row-major order. */
  function GridDraws(data: seq<int>, w: nat, loaded: set<int>, n: nat): seq<Draw>
  {
    if n == 0 then [] else GridDraws(data, w, loaded, n - 1) + RowDraws(data, w, loaded, n - 1, w)
  }

  /** The draws of a `w` by `h` map's layers, bottom layer first. */
  function Composite(layers: seq<Layer>, w: nat, h: nat, loaded: set<int>): seq<Draw>
  {
    if layers == [] then []
    else Composite(layers[..|layers| - 1], w, h, loaded) + GridDraws(layers[|layers| - 1].data, w, loaded, h)
  }

  /**
   * A row's draws are exactly those of its drawable cells: each one is a
   * drawable cell of that row, every drawable cell is among them, and they
   * go strictly left to right.
   */
  lemma {:induction false} RowDrawsExact(data: seq<int>, w: nat, loaded: set<int>, y: nat, n: nat)
    requires n <= w
    ensures forall d :: d in RowDraws(data, w, loaded, y, n) ==>
      DrawsCell(data, w, loaded, d) && Row(d) == y && Col(d) < n
    ensures forall x :: 0 <= x < n && Drawable(data, w, loaded, y, x) ==>
      DrawAt(data, w, y, x) in RowDraws(data, w, loaded, y, n)
    ensures forall i, j :: 0 <= i < j < |RowDraws(data, w, loaded, y, n)| ==>
      RowDraws(data, w, loaded, y, n)[i].dx < RowDraws(data, w, loaded, y, n)[j].dx
  {
    if n > 0 {
      var prefix := RowDraws(data, w, loaded, y, n - 1);
      var r := RowDraws(data, w, loaded, y, n);
      RowDrawsExact(data, w, loaded, y, n - 1);
      DrawAtCoords(data, w, y, n - 1);
      forall i, j | 0 <= i < j < |r| ensures r[i].dx < r[j].dx {
        assert r[i] == prefix[i] && r[i] in prefix;
        if j < |prefix| {
          assert r[j] == prefix[j];
        } else {
          assert r[i].dx == Col(r[i]) * TileSize;
        }
      }
    }
  }

  /**
   * A layer's draws are exactly those of its drawable cells in the first
   * `n` rows, in row-major order: by row, then by column.
   */
  lemma {:induction false} GridDrawsExact(data: seq<int>, w: nat, loaded: set<int>, n: nat)
    ensures forall d :: d in GridDraws(data, w, loaded, n) ==>
      DrawsCell(data, w, loaded, d) && Row(d) < n
    ensures forall y, x :: 0 <= y < n && 0 <= x < w && Drawable(data, w, loaded, y, x) ==>
      DrawAt(data, w, y, x) in GridDraws(data, w, loaded, n)
    ensures forall i, j :: 0 <= i < j < |GridDraws(data, w, loaded, n)| ==>
      var a, b := GridDraws(data, w, loaded, n)[i], GridDraws(data, w, loaded, n)[j];
      a.dy < b.dy || (a.dy == b.dy && a.dx < b.dx)
  {
    if n > 0 {
      var prefix := GridDraws(data, w, loaded, n - 1);
      var row := RowDraws(data, w, loaded, n - 1, w);
      GridDrawsExact(data, w, loaded, n - 1);
      RowDrawsExact(data, w, loaded, n - 1, w);
      var r := prefix + row;
      forall i, j | 0 <= i < j < |r|
        ensures r[i].dy < r[j].dy || (r[i].dy == r[j].dy && r[i].dx < r[j].dx)
      {
        if j < |prefix| {
          assert r[i] == prefix[i] && r[j] == prefix[j];
        } else if i >= |prefix| {
          assert r[i] == row[i - |prefix|] && r[j] == row[j - |prefix|];
        } else {
          assert r[i] == prefix[i] && r[i] in prefix;
          assert r[j] == row[j - |prefix|] && r[j] in row;
          assert r[i].dy == Row(r[i]) * TileSize && r[j].dy == Row(r[j]) * TileSize;
        }
      }
    }
  }

  /** Every draw of the composite lies inside the canvas and shows a positive, loaded tile. */
  lemma {:induction false} CompositeInCanvas(layers: seq<Layer>, w: nat, h: nat, loaded: set<int>)
    ensures forall d :: d in Composite(layers, w, h, loaded) ==>
      InCanvas(d, w, h) && d.tile > 0 && d.tile in loaded
  {
    if layers != [] {
      CompositeInCanvas(layers[..|layers| - 1], w, h, loaded);
      GridDrawsExact(layers[|layers| - 1].data, w, loaded, h);
    }
  }

  /** Layers are painted in order: the draws of lower layers all come before those of upper layers. */
  lemma {:induction false} CompositeAppend(lower: seq<Layer>, upper: seq<Layer>, w: nat, h: nat, loaded: set<int>)
    ensures Composite(lower + upper, w, h, loaded) == Composite(lower, w, h, loaded) + Composite(upper, w, h, loaded)
    decreases |upper|
  {
    if upper == [] {
      assert lower + upper == lower;
    } else {
      var all := lower + upper;
      var init, last := upper[..|upper| - 1], upper[|upper| - 1];
      assert all[..|all| - 1] == lower + init;
      assert all[|all| - 1] == last;
      calc {
        Composite(all, w, h, loaded);
        Composite(all[..|all| - 1], w, h, loaded) + GridDraws(all[|all| - 1].data, w, loaded, h);
        Composite(lower + init, w, h, loaded) + GridDraws(last.data, w, loaded, h);
        { CompositeAppend(lower, init, w, h, loaded); }
        Composite(lower, w, h, loaded) + Composite(init, w, h, loaded) + GridDraws(last.data, w, loaded, h);
        Composite(lower, w, h, loaded) + Composite(upper, w, h, loaded);
      }
    }
  }

  /**
   * Within one layer, the cell at column `x` of row `y` (flat index
   * `y * w + x`) is drawn, at `(64x, 64y, 64, 64)`, exactly when its
   * value is positive and its image loaded.
   */
  lemma CellDrawnIff(data: seq<int>, w: nat, h: nat, loaded: set<int>, y: nat, x: nat)
    requires y < h && x < w
    ensures DrawAt(data, w, y, x) in GridDraws(data, w, loaded, h) <==> Drawable(data, w, loaded, y, x)
    ensures InCanvas(DrawAt(data, w, y, x), w, h)
  {
    GridDrawsExact(data, w, loaded, h);
    DrawAtCoords(data, w, y, x);
  }

  // ---------------------------------------------------------------------
  // The screen's state

  class TileMapView {
    /** The map document, read once and never changed. */
    const roadmap: Roadmap
    /** The tile numbers whose image was requested, in request order. */
    var requested: seq<int>
    /** Requested tiles that have neither loaded nor failed yet. */
    var pending: set<int>
    /** The image table, keyed by tile number; failed tiles have no entry. */
    var images: map<int, Image>
    var started: bool
    var tilesLoaded: bool
    /** The draw commands on the canvas since it was last cleared. */
    var canvas: seq<Draw>

    ghost predicate Valid()
      reads this
    {
      Distinct(requested) &&
      pending <= (set t | t in requested) &&
      images.Keys <= (set t | t in requested) - pending &&
      (forall t :: t in images ==> images[t] == Image(TilePath(t))) &&
      (!started ==> requested == [] && images == map[]) &&
      (tilesLoaded <==> started && pending == {})
    }

    constructor (m: Roadmap)
      ensures Valid() && roadmap == m
      ensures requested == [] && images == map[] && !started && !tilesLoaded && canvas == []
    {
      roadmap := m;
      requested := [];
      pending := {};
      images := map[];
      started := false;
      tilesLoaded := false;
      canvas := [];
    }

    /**
     * The mount effect: one image request per distinct positive tile
     * number. With nothing to load the join settles at once.
     */
    method LoadTiles()
      requires Valid() && !started
      modifies this
      ensures Valid() && started
      ensures Distinct(requested) && (forall t :: t in requested <==> Wanted(roadmap, t))
      ensures |requested| == |TileSet(roadmap)|
      ensures pending == set t | t in requested
      ensures images == old(images) && canvas == old(canvas)
      ensures tilesLoaded <==> requested == []
    {
      var tiles := UniqueTiles(roadmap);
      requested := tiles;
      pending := set t | t in tiles;
      started := true;
      tilesLoaded := tiles == [];
      if tiles != [] {
        assert tiles[0] in pending;
      }
    }

    /** The image of `t` loaded: it is stored, and the join settles if it was the last. */
    method OnLoad(t: int)
      requires Valid() && t in pending
      modifies this
      ensures Valid()
      ensures images == old(images)[t := Image(TilePath(t))]
      ensures pending == old(pending) - {t}
      ensures tilesLoaded <==> pending == {}
      ensures requested == old(requested) && started == old(started) && canvas == old(canvas)
    {
      images := images[t := Image(TilePath(t))];
      pending := pending - {t};
      tilesLoaded := pending == {};
    }

    /** The image of `t` failed: nothing is stored, but the request still counts as settled. */
    method OnError(t: int)
      requires Valid() && t in pending
      modifies this
      ensures Valid()
      ensures images == old(images)
      ensures pending == old(pending) - {t}
      ensures tilesLoaded <==> pending == {}
      ensures requested == old(requested) && started == old(started) && canvas == old(canvas)
    {
      pending := pending - {t};
      tilesLoaded := pending == {};
    }

    /**
     * Settles every outstanding request, in request order, with the outcome
     * `succeeds` gives; whatever the mix of outcomes the join completes,
     * and exactly the successful tiles are in the image table.
     */
    method SettleAll(succeeds: int -> bool)
      requires Valid() && started
      modifies this
      ensures Valid() && tilesLoaded && pending == {}
      ensures images.Keys == old(images.Keys) + set t | t in old(pending) && succeeds(t)
      ensures requested == old(requested) && canvas == old(canvas)
    {
      var i := 0;
      ghost var done: set<int> := {};
      while i < |requested|
        invariant Valid() && started
        invariant 0 <= i <= |requested|
        invariant requested == old(requested) && canvas == old(canvas)
        invariant done == set k | 0 <= k < i :: requested[k]
        invariant pending == old(pending) - done
        invariant images.Keys == old(images.Keys) + set t | t in done && t in old(pending) && succeeds(t)
      {
        var t := requested[i];
        assert (set k | 0 <= k < i + 1 :: requested[k]) == done + {t};
        assert (t in pending) == (t in old(pending)) by {
          assert t !in done;
        }
        ghost var kept := set u | u in done && u in old(pending) && succeeds(u);
        if t in pending {
          if succeeds(t) {
            OnLoad(t);
          } else {
            OnError(t);
          }
        }
        done := done + {t};
        assert (set u | u in done && u in old(pending) && succeeds(u)) ==
          kept + (if t in old(pending) && succeeds(t) then {t} else {});
        i := i + 1;
      }
      assert pending == {};
      forall t ensures t in old(images.Keys) + (set t | t in old(pending) && succeeds(t)) <==> t in images.Keys {
        if t in old(pending) && succeeds(t) {
          assert t in requested;
        }
      }
    }

    /**
     * The draw effect: nothing before the join has settled; afterwards the
     * canvas is cleared and every layer painted, bottom to top.
     */
    method Paint()
      requires Valid()
      modifies this`canvas
      ensures Valid()
      ensures tilesLoaded ==> canvas == Composite(roadmap.layers, roadmap.width, roadmap.height, images.Keys)
      ensures !tilesLoaded ==> canvas == old(canvas)
    {
      if !tilesLoaded {
        return;
      }
      var layers := roadmap.layers;
      canvas := [];
      var l := 0;
      while l < |layers|
        invariant 0 <= l <= |layers|
        invariant canvas == Composite(layers[..l], roadmap.width, roadmap.height, images.Keys)
      {
        PaintLayer(layers[l].data);
        assert layers[..l + 1][..l] == layers[..l];
        l := l + 1;
      }
      assert layers[..l] == layers;
    }

    /** Paints one layer's cells row by row. */
    method PaintLayer(data: seq<int>)
      modifies this`canvas
      ensures canvas == old(canvas) + GridDraws(data, roadmap.width, images.Keys, roadmap.height)
    {
      var y := 0;
      while y < roadmap.height
        invariant 0 <= y <= roadmap.height
        invariant canvas == old(canvas) + GridDraws(data, roadmap.width, images.Keys, y)
      {
        PaintRow(data, y);
        y := y + 1;
      }
    }

    /** Paints row `y` left to right, reading cell `y * width + x`; empty cells and tiles without an image are skipped. */
    method PaintRow(data: seq<int>, y: nat)
      modifies this`canvas
      ensures canvas == old(canvas) + RowDraws(data, roadmap.width, images.Keys, y, roadmap.width)
    {
      var x := 0;
      while x < roadmap.width
        invariant 0 <= x <= roadmap.width
        invariant canvas == old(canvas) + RowDraws(data, roadmap.width, images.Keys, y, x)
      {
        var index := y * roadmap.width + x;
        var tileNum := if index < |data| then data[index] else 0;
        if tileNum > 0 {
          if tileNum in images {
            canvas := canvas + [Draw(tileNum, x * TileSize, y * TileSize, TileSize, TileSize)];
          }
        }
        x := x + 1;
      }
    }
  }

  /** Painting twice from the same settled state gives the same canvas, whatever it held before. */
  method RepaintIsStable(view: TileMapView) returns (first: seq<Draw>, second: seq<Draw>)
    requires view.Valid() && view.tilesLoaded
    modifies view`canvas
    ensures first == second == view.canvas
  {
    view.Paint();
    first := view.canvas;
    view.Paint();
    second := view.canvas;
  }
}
