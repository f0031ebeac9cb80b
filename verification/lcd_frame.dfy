/** The frame half of lcd/lcd.go: the background built from the tile map
    (getTileMap, populateTiles, generateBackgroundImage), the 160x144 view
    into it, and the window and sprite overlays (placeView, renderSprites,
    DrawFrame). Images hold palette indices; a cell nothing was drawn on
    keeps the zero colour a new image starts with. */
module Frame {
  import opened Bytes
  import opened Tiles
  import LcdTiming

  // ---------------------------------------------------------------------------
  // Images

  /** A cell of an image: Blank is the zero colour of a fresh image, Shade(i)
      palette colour i. */
  datatype Cell = Blank | Shade(index: bv8)

  /** An image of the given size; `at` gives every point a cell, and only
      the points inside the size are ever drawn on. */
  datatype Image = Image(width: int, height: int, at: (int, int) -> Cell)

  function Get(img: Image, x: int, y: int): Cell
  {
    img.at(x, y)
  }

  predicate Inside(img: Image, x: int, y: int)
  {
    0 <= x < img.width && 0 <= y < img.height
  }

  /** `image.NewRGBA`: every cell Blank. */
  function NewImage(width: nat, height: nat): (r: Image)
    ensures r.width == width && r.height == height
    ensures forall x, y :: Get(r, x, y) == Blank
  {
    Image(width, height, (u, v) => Blank)
  }

  /** `Set`: one cell changed; a point outside the image is ignored. */
  function Put(img: Image, x: int, y: int, c: Cell): (r: Image)
    ensures r.width == img.width && r.height == img.height
    ensures forall u, v :: Get(r, u, v) ==
              if u == x && v == y && Inside(img, x, y) then c else Get(img, u, v)
  {
    if Inside(img, x, y) then Image(img.width, img.height, (u, v) => if u == x && v == y then c else img.at(u, v))
    else img
  }

  /** The pixels of a tile set one after the other, each shifted by
      (dx, dy). */
  function Paint(img: Image, t: seq<Pixel>, dx: int, dy: int): (r: Image)
    ensures r.width == img.width && r.height == img.height
    decreases |t|
  {
    if t == [] then img
    else
      Put(Paint(img, t[..|t| - 1], dx, dy), t[|t| - 1].x + dx, t[|t| - 1].y + dy,
          Shade(t[|t| - 1].colour))
  }

  // ---------------------------------------------------------------------------
  // Background

  /** LCDC bits 3 and 6 choose the background's and the window's tile map. */
  const BackgroundMapBit: bv8 := 3
  const WindowMapBit: bv8 := 6

  /** The scroll and window position registers; LCDC is the controller's. */
  const ScyAddr: bv16 := 0xFF42
  const ScxAddr: bv16 := 0xFF43
  const WyAddr: bv16 := 0xFF4A
  const WxAddr: bv16 := 0xFF4B

  /** `Memory[from:to]`. */
  function Slice(mem: Mem, from: int, to: int): (r: seq<bv8>)
    requires 0 <= from <= to <= 0x1_0000
    ensures |r| == to - from
    ensures forall i :: 0 <= i < |r| ==> r[i] == Load(mem, (from + i) as bv16)
  {
    seq(to - from, i requires 0 <= i < to - from => Load(mem, (from + i) as bv16))
  }

  /** Where a tile map starts: 0x9C00 when its LCDC bit is set, 0x9800
      otherwise. */
  function MapBase(alternate: bool): int
  {
    if alternate then 0x9C00 else 0x9800
  }

  /** getTileMap: the 1024 ids at 0x9800, or, when the LCDC bit is set,
      the ids from 0x9C00 up to but not including 0x9FFF, which is 1023. */
  function TileMap(mem: Mem, identifier: bv8): (r: seq<bv8>)
    requires identifier < 8
    ensures |r| == 1023 || |r| == 1024
  {
    MapSlice(mem, Load(mem, LcdTiming.LcdcAddr) & (1 << identifier) != 0)
  }

  /** The slice getTileMap returns once the LCDC bit is known. */
  function MapSlice(mem: Mem, alternate: bool): (r: seq<bv8>)
    ensures |r| == if alternate then 1023 else 1024
    ensures forall i :: 0 <= i < |r| ==> r[i] == Load(mem, (MapBase(alternate) + i) as bv16)
  {
    if alternate then Slice(mem, 0x9C00, 0x9FFF) else Slice(mem, 0x9800, 0x9C00)
  }

  /** The mask getTileMap tests is the LCDC bit. */
  lemma MaskIsBit(b: bv8, i: bv8)
    requires i < 8
    ensures (b & (1 << i) != 0) == Bit(b, i)
  {
  }

  /** The map holds 1024 ids, or 1023 when the LCDC bit selects the map
      at 0x9C00. */
  lemma TileMapLength(mem: Mem, identifier: bv8)
    requires identifier < 8
    ensures |TileMap(mem, identifier)| == if Bit(Load(mem, LcdTiming.LcdcAddr), identifier) then 1023 else 1024
  {
    MaskIsBit(Load(mem, LcdTiming.LcdcAddr), identifier);
  }

  /** Id i of the map is the byte i places after the map's base. */
  lemma TileMapIds(mem: Mem, identifier: bv8, i: int)
    requires identifier < 8 && 0 <= i < |TileMap(mem, identifier)|
    ensures TileMap(mem, identifier)[i] == Load(mem, (MapBase(Bit(Load(mem, LcdTiming.LcdcAddr), identifier)) + i) as bv16)
  {
    MaskIsBit(Load(mem, LcdTiming.LcdcAddr), identifier);
  }

  /** The LCDC bit that chooses the window's or the background's map. */
  function MapBit(window: bool): (b: bv8)
    ensures b < 8
  {
    if window then WindowMapBit else BackgroundMapBit
  }

  /** populateTiles: each id of the background's (or window's) map
      rendered as a background tile. */
  function PopulateTiles(mem: Mem, window: bool): (r: seq<seq<Pixel>>)
    ensures |r| == |TileMap(mem, MapBit(window))|
  {
    TilesOf(mem, TileMap(mem, MapBit(window)))
  }

  /** The loop of populateTiles over the ids of a map. */
  function TilesOf(mem: Mem, ids: seq<bv8>): (r: seq<seq<Pixel>>)
    ensures |r| == |ids|
  {
    seq(|ids|, i requires 0 <= i < |ids| => Tile(mem, Load(mem, LcdTiming.LcdcAddr), ids[i] as int, 0, false))
  }

  /** The corner of tile i of the 32x32 map: column i % 32, row i / 32. */
  function CornerX(i: int): (x: int)
    requires 0 <= i
    ensures 0 <= x <= 248
  {
    (i % 32) * 8
  }

  function CornerY(i: int): (y: int)
    requires 0 <= i < 1024
    ensures 0 <= y <= 248
  {
    (i / 32) * 8
  }

  /** The tiles painted in order, each with its corner where the map puts
      it. */
  function PaintTiles(img: Image, tiles: seq<seq<Pixel>>): (r: Image)
    requires |tiles| <= 1024
    ensures r.width == img.width && r.height == img.height
    decreases |tiles|
  {
    if tiles == [] then img
    else
      var i := |tiles| - 1;
      Paint(PaintTiles(img, tiles[..i]), tiles[i], CornerX(i), CornerY(i))
  }

  /** generateBackgroundImage: a 256x256 image of 32x32 tiles. */
  function GenerateBackgroundImage(tiles: seq<seq<Pixel>>): (r: Image)
    requires |tiles| <= 1024
    ensures r.width == 256 && r.height == 256
  {
    PaintTiles(NewImage(256, 256), tiles)
  }

  // ---------------------------------------------------------------------------
  // View

  /** placeView's loops: row by row, the background cell under (SCX, SCY)
      plus the offset, both coordinates kept in a byte so that they wrap. */
  method PlaceBackground(bg: Image, scx: bv8, scy: bv8) returns (view: Image)
    ensures view.width == 160 && view.height == 144
    ensures forall w, h :: 0 <= w < 160 && 0 <= h < 144 ==>
              Get(view, w, h) == Get(bg, (scx as int + w) % 256, (scy as int + h) % 256)
  {
    var yVal: bv8 := scy;
    view := NewImage(160, 144);
    var height := 0;
    while height < 144
      invariant 0 <= height <= 144
      invariant view.width == 160 && view.height == 144
      invariant yVal as int == (scy as int + height) % 256
      invariant forall w, h :: 0 <= w < 160 && 0 <= h < height ==>
                  Get(view, w, h) == Get(bg, (scx as int + w) % 256, (scy as int + h) % 256)
    {
      view := PlaceRow(view, bg, scx, yVal, height);
      ByteWraps(yVal, scy as int + height);
      yVal := yVal + 1;
      height := height + 1;
    }
  }

  /** The inner loop of placeView: row `height` of the view from row yVal
      of the background, starting at column SCX and wrapping at 256. */
  method PlaceRow(view: Image, bg: Image, scx: bv8, yVal: bv8, height: int) returns (r: Image)
    requires view.width == 160 && 0 <= height < view.height
    ensures r.width == view.width && r.height == view.height
    ensures forall w, h :: h != height ==> Get(r, w, h) == Get(view, w, h)
    ensures forall w :: 0 <= w < 160 ==> Get(r, w, height) == Get(bg, (scx as int + w) % 256, yVal as int)
  {
    var xVal: bv8 := scx;
    r := view;
    var width := 0;
    while width < 160
      invariant 0 <= width <= 160
      invariant r.width == view.width && r.height == view.height
      invariant xVal as int == (scx as int + width) % 256
      invariant forall w, h :: h != height ==> Get(r, w, h) == Get(view, w, h)
      invariant forall w :: 0 <= w < width ==> Get(r, w, height) == Get(bg, (scx as int + w) % 256, yVal as int)
    {
      r := Put(r, width, height, Get(bg, xVal as int, yVal as int));
      ByteWraps(xVal, scx as int + width);
      xVal := xVal + 1;
      width := width + 1;
    }
  }

  /** A byte that stands for n modulo 256 still does after `++`. */
  lemma ByteWraps(b: bv8, n: int)
    requires b as int == n % 256
    ensures (b + 1) as int == (n + 1) % 256
  {
    if b == 0xFF {
      assert (b + 1) as int == 0;
    } else {
      assert (b + 1) as int == b as int + 1;
    }
  }

  /** draw.Draw with draw.Src: the source, corner at (dx, dy), replaces
      every cell of the destination it covers, Blank cells included. */
  function DrawSrc(dst: Image, src: Image, dx: int, dy: int): (r: Image)
    ensures r.width == dst.width && r.height == dst.height
  {
    Image(dst.width, dst.height,
          (u, v) => if Inside(dst, u, v) && Inside(src, u - dx, v - dy) then src.at(u - dx, v - dy)
                    else dst.at(u, v))
  }

  /** A sprite: the tile renderTile gives for it, and its corner. */
  datatype Sprite = Sprite(x: int, y: int, tile: seq<Pixel>)

  /** The first byte of OAM entry i. */
  function OamEntry(i: nat): (a: int)
    requires i < 40
    ensures 0xFE00 <= a <= 0xFE9C && a % 4 == 0
  {
    0xFE00 + 4 * i
  }

  /** Byte `field` of OAM entry i. */
  function OamByte(mem: Mem, i: nat, field: nat): bv8
    requires i < 40 && field < 4
  {
    Load(mem, (OamEntry(i) + field) as bv16)
  }

  /** OAM entry i: Y, X, tile id, attributes; the corner is worked out in
      a byte. */
  function OamSprite(mem: Mem, i: nat): (s: Sprite)
    requires i < 40
  {
    var yLoc := OamByte(mem, i, 0) - 16;
    var xLoc := OamByte(mem, i, 1) - 8;
    Sprite(xLoc as int, yLoc as int, Tile(mem, Load(mem, LcdTiming.LcdcAddr), OamByte(mem, i, 2) as int, OamByte(mem, i, 3), true))
  }

  /** renderSprites: the 40 entries of OAM (0xFE00 to 0xFE9F), in order. */
  function RenderSprites(mem: Mem): (r: seq<Sprite>)
    ensures |r| == 40
    ensures forall i :: 0 <= i < 40 ==> r[i] == OamSprite(mem, i)
  {
    seq(40, i requires 0 <= i < 40 => OamSprite(mem, i))
  }

  /** The sprites drawn in order onto the view, later ones over earlier. */
  function DrawSprites(view: Image, sprites: seq<Sprite>): (r: Image)
    ensures r.width == view.width && r.height == view.height
    decreases |sprites|
  {
    if sprites == [] then view
    else
      var s := sprites[|sprites| - 1];
      Paint(DrawSprites(view, sprites[..|sprites| - 1]), s.tile, s.x, s.y)
  }

  /** LCDC bit 5 turns the window on. */
  predicate WindowOn(mem: Mem)
  {
    Load(mem, LcdTiming.LcdcAddr) & 0x20 != 0
  }

  /** The window: a second background, built from the map LCDC bit 6
      chooses. */
  function WindowImage(mem: Mem): (r: Image)
    ensures r.width == 256 && r.height == 256
  {
    GenerateBackgroundImage(PopulateTiles(mem, true))
  }

  /** The window, when it is on, drawn over the view with its corner at
      (WX - 7, WY). */
  function Windowed(mem: Mem, view: Image): (r: Image)
    ensures r.width == view.width && r.height == view.height
  {
    if WindowOn(mem) then DrawSrc(view, WindowImage(mem), Load(mem, WxAddr) as int - 7, Load(mem, WyAddr) as int)
    else view
  }

  /** placeView's overlays: the window, then the sprites. */
  function Overlay(mem: Mem, view: Image): (r: Image)
    ensures r.width == view.width && r.height == view.height
  {
    DrawSprites(Windowed(mem, view), RenderSprites(mem))
  }

  /** What the screen shows at (w, h) where no sprite lands: the window's
      cell when the window is on and (w, h) lies right of WX - 7 and below
      WY, and otherwise the background cell under the scroll position. */
  function Underlay(mem: Mem, bg: Image, win: Image, w: int, h: int): Cell
  {
    var wx, wy := Load(mem, WxAddr) as int - 7, Load(mem, WyAddr) as int;
    if WindowOn(mem) && wx <= w && wy <= h then Get(win, w - wx, h - wy)
    else Get(bg, (Load(mem, ScxAddr) as int + w) % 256, (Load(mem, ScyAddr) as int + h) % 256)
  }

  /** placeView. */
  method PlaceView(mem: Mem, bg: Image) returns (view: Image)
    ensures view.width == 160 && view.height == 144
    ensures forall w, h :: 0 <= w < 160 && 0 <= h < 144 && !SpriteLands(RenderSprites(mem), w, h) ==>
              Get(view, w, h) == Underlay(mem, bg, WindowImage(mem), w, h)
    ensures forall w, h :: 0 <= w < 160 && 0 <= h < 144 && SpriteLands(RenderSprites(mem), w, h) ==>
              Opaque(Get(view, w, h))
    ensures forall w, h, j, k :: 0 <= w < 160 && 0 <= h < 144 && TopSpritePixel(RenderSprites(mem), w, h, j, k) ==>
              Get(view, w, h) == Shade(RenderSprites(mem)[j].tile[k].colour)
  {
    var scrolled := PlaceBackground(bg, Load(mem, ScxAddr), Load(mem, ScyAddr));
    view := Overlay(mem, scrolled);
    SpritesOpaque(mem);
    forall w, h | 0 <= w < 160 && 0 <= h < 144
      ensures !SpriteLands(RenderSprites(mem), w, h) ==> Get(view, w, h) == Underlay(mem, bg, WindowImage(mem), w, h)
      ensures SpriteLands(RenderSprites(mem), w, h) ==> Opaque(Get(view, w, h))
      ensures forall j, k :: TopSpritePixel(RenderSprites(mem), w, h, j, k) ==>
                Get(view, w, h) == Shade(RenderSprites(mem)[j].tile[k].colour)
    {
      OverlayCell(mem, bg, scrolled, w, h);
    }
  }

  /** One cell of the overlays over the scrolled background. */
  lemma OverlayCell(mem: Mem, bg: Image, scrolled: Image, w: int, h: int)
    requires scrolled.width == 160 && scrolled.height == 144
    requires 0 <= w < 160 && 0 <= h < 144
    requires Get(scrolled, w, h) == Get(bg, (Load(mem, ScxAddr) as int + w) % 256, (Load(mem, ScyAddr) as int + h) % 256)
    requires forall j, k :: 0 <= j < 40 && 0 <= k < |RenderSprites(mem)[j].tile| ==>
               RenderSprites(mem)[j].tile[k].colour != 0
    ensures !SpriteLands(RenderSprites(mem), w, h) ==> Get(Overlay(mem, scrolled), w, h) == Underlay(mem, bg, WindowImage(mem), w, h)
    ensures SpriteLands(RenderSprites(mem), w, h) ==> Opaque(Get(Overlay(mem, scrolled), w, h))
    ensures forall j, k :: TopSpritePixel(RenderSprites(mem), w, h, j, k) ==>
              Get(Overlay(mem, scrolled), w, h) == Shade(RenderSprites(mem)[j].tile[k].colour)
  {
    WindowedCell(mem, bg, scrolled, w, h);
    DrawSpritesCells(Windowed(mem, scrolled), RenderSprites(mem), w, h);
    forall j, k | TopSpritePixel(RenderSprites(mem), w, h, j, k)
      ensures Get(Overlay(mem, scrolled), w, h) == Shade(RenderSprites(mem)[j].tile[k].colour)
    {
      DrawSpritesTop(Windowed(mem, scrolled), RenderSprites(mem), w, h, j, k);
    }
  }

  /** One cell of the scrolled background with the window over it. */
  lemma WindowedCell(mem: Mem, bg: Image, scrolled: Image, w: int, h: int)
    requires scrolled.width == 160 && scrolled.height == 144
    requires 0 <= w < 160 && 0 <= h < 144
    requires Get(scrolled, w, h) == Get(bg, (Load(mem, ScxAddr) as int + w) % 256, (Load(mem, ScyAddr) as int + h) % 256)
    ensures Get(Windowed(mem, scrolled), w, h) == Underlay(mem, bg, WindowImage(mem), w, h)
  {
    if WindowOn(mem) {
      WindowOnCell(mem, bg, scrolled, WindowImage(mem), w, h);
    }
  }

  lemma WindowOnCell(mem: Mem, bg: Image, scrolled: Image, win: Image, w: int, h: int)
    requires WindowOn(mem)
    requires scrolled.width == 160 && scrolled.height == 144 && win.width == 256 && win.height == 256
    requires 0 <= w < 160 && 0 <= h < 144
    requires Get(scrolled, w, h) == Get(bg, (Load(mem, ScxAddr) as int + w) % 256, (Load(mem, ScyAddr) as int + h) % 256)
    ensures Get(DrawSrc(scrolled, win, Load(mem, WxAddr) as int - 7, Load(mem, WyAddr) as int), w, h) ==
              Underlay(mem, bg, win, w, h)
  {
    WindowCovers(scrolled, win, Load(mem, WxAddr), Load(mem, WyAddr), w, h);
  }

  /** DrawFrame: the background from its tile map, then the view. */
  method DrawFrame(mem: Mem) returns (view: Image)
    ensures view.width == 160 && view.height == 144
    ensures forall w, h :: 0 <= w < 160 && 0 <= h < 144 && !SpriteLands(RenderSprites(mem), w, h) ==>
              Get(view, w, h) == Underlay(mem, GenerateBackgroundImage(PopulateTiles(mem, false)), WindowImage(mem), w, h)
    ensures forall w, h :: 0 <= w < 160 && 0 <= h < 144 && SpriteLands(RenderSprites(mem), w, h) ==>
              Opaque(Get(view, w, h))
    ensures forall w, h, j, k :: 0 <= w < 160 && 0 <= h < 144 && TopSpritePixel(RenderSprites(mem), w, h, j, k) ==>
              Get(view, w, h) == Shade(RenderSprites(mem)[j].tile[k].colour)
  {
    var bg := GenerateBackgroundImage(PopulateTiles(mem, false));
    view := PlaceView(mem, bg);
  }

  // ---------------------------------------------------------------------------
  // Overlays

  /** The window drawn with its corner at (WX - 7, WY) covers every cell
      of the view right of and below that corner, Blank cells included, and
      leaves the rest. */
  lemma WindowCovers(view: Image, win: Image, wx: bv8, wy: bv8, w: int, h: int)
    requires view.width == 160 && view.height == 144 && win.width == 256 && win.height == 256
    requires 0 <= w < 160 && 0 <= h < 144
    ensures Get(DrawSrc(view, win, wx as int - 7, wy as int), w, h) ==
              if wx as int - 7 <= w && wy as int <= h then Get(win, w - (wx as int - 7), h - wy as int)
              else Get(view, w, h)
  {
    var dx, dy := wx as int - 7, wy as int;
    DrawSrcCell(view, win, dx, dy, w, h);
    if dx <= w && dy <= h {
      assert Inside(win, w - dx, h - dy);
    }
  }

  /** One cell of draw.Draw's result. */
  lemma DrawSrcCell(dst: Image, src: Image, dx: int, dy: int, u: int, v: int)
    ensures Get(DrawSrc(dst, src, dx, dy), u, v) ==
              if Inside(dst, u, v) && Inside(src, u - dx, v - dy) then Get(src, u - dx, v - dy) else Get(dst, u, v)
  {
  }

  /** A pixel of tile t lands on (x, y) when t is painted at (dx, dy). */
  predicate Lands(t: seq<Pixel>, dx: int, dy: int, x: int, y: int)
  {
    exists k :: 0 <= k < |t| && t[k].x + dx == x && t[k].y + dy == y
  }

  /** Some sprite has a pixel on (x, y). */
  predicate SpriteLands(sprites: seq<Sprite>, x: int, y: int)
  {
    exists j :: 0 <= j < |sprites| && Lands(sprites[j].tile, sprites[j].x, sprites[j].y, x, y)
  }

  /** A cell a sprite pixel was drawn on: palette index 1 to 3. */
  predicate Opaque(c: Cell)
  {
    c.Shade? && c.index != 0
  }

  /** Painting a tile without pixels of index 0 leaves the cells none of
      its pixels land on, and makes the others opaque. */
  lemma {:induction false} PaintOpaque(img: Image, t: seq<Pixel>, dx: int, dy: int, x: int, y: int)
    requires forall k :: 0 <= k < |t| ==> t[k].colour != 0
    ensures !Lands(t, dx, dy, x, y) ==> Get(Paint(img, t, dx, dy), x, y) == Get(img, x, y)
    ensures Lands(t, dx, dy, x, y) && Inside(img, x, y) ==> Opaque(Get(Paint(img, t, dx, dy), x, y))
    decreases |t|
  {
    if t != [] {
      var n := |t| - 1;
      var front := t[..n];
      PaintOpaque(img, front, dx, dy, x, y);
      if Lands(front, dx, dy, x, y) {
        var k :| 0 <= k < |front| && front[k].x + dx == x && front[k].y + dy == y;
        assert t[k] == front[k];
      }
      if Lands(t, dx, dy, x, y) && !(t[n].x + dx == x && t[n].y + dy == y) {
        var k :| 0 <= k < |t| && t[k].x + dx == x && t[k].y + dy == y;
        assert front[k] == t[k];
      }
    }
  }

  /** Drawing sprites without pixels of index 0 leaves the cells no sprite
      lands on, and makes the others opaque. */
  lemma {:induction false} DrawSpritesCells(view: Image, sprites: seq<Sprite>, x: int, y: int)
    requires forall j, k :: 0 <= j < |sprites| && 0 <= k < |sprites[j].tile| ==> sprites[j].tile[k].colour != 0
    ensures !SpriteLands(sprites, x, y) ==> Get(DrawSprites(view, sprites), x, y) == Get(view, x, y)
    ensures SpriteLands(sprites, x, y) && Inside(view, x, y) ==> Opaque(Get(DrawSprites(view, sprites), x, y))
    decreases |sprites|
  {
    if sprites != [] {
      var n := |sprites| - 1;
      var front, s := sprites[..n], sprites[n];
      var below := DrawSprites(view, front);
      DrawSpritesCells(view, front, x, y);
      PaintOpaque(below, s.tile, s.x, s.y, x, y);
      if SpriteLands(front, x, y) {
        var j :| 0 <= j < |front| && Lands(front[j].tile, front[j].x, front[j].y, x, y);
        assert sprites[j] == front[j];
      }
      if SpriteLands(sprites, x, y) && !Lands(s.tile, s.x, s.y, x, y) {
        var j :| 0 <= j < |sprites| && Lands(sprites[j].tile, sprites[j].x, sprites[j].y, x, y);
        assert front[j] == sprites[j];
      }
    }
  }

  /** Pixel p of a tile painted at (dx, dy) lands on (x, y). */
  predicate Hits(p: Pixel, dx: int, dy: int, x: int, y: int)
  {
    p.x + dx == x && p.y + dy == y
  }

  /** Pixel k of t is the last pixel of t to land on (x, y). */
  predicate LastHit(t: seq<Pixel>, dx: int, dy: int, x: int, y: int, k: int)
  {
    0 <= k < |t| && Hits(t[k], dx, dy, x, y) &&
    forall i :: k < i < |t| ==> !Hits(t[i], dx, dy, x, y)
  }

  /** Pixel k of sprite j is the one drawn last on (x, y): no later sprite
      has a pixel there, and no later pixel of sprite j lands there. */
  predicate TopSpritePixel(sprites: seq<Sprite>, x: int, y: int, j: int, k: int)
  {
    0 <= j < |sprites| && LastHit(sprites[j].tile, sprites[j].x, sprites[j].y, x, y, k) &&
    forall i :: j < i < |sprites| ==> !Lands(sprites[i].tile, sprites[i].x, sprites[i].y, x, y)
  }

  /** A tile none of whose pixels lands on (x, y) leaves that cell. */
  lemma {:induction false} PaintMisses(img: Image, t: seq<Pixel>, dx: int, dy: int, x: int, y: int)
    requires !Lands(t, dx, dy, x, y)
    ensures Get(Paint(img, t, dx, dy), x, y) == Get(img, x, y)
    decreases |t|
  {
    if t != [] {
      var n := |t| - 1;
      assert !Hits(t[n], dx, dy, x, y);
      PaintMisses(img, t[..n], dx, dy, x, y);
    }
  }

  /** A cell shows the colour of the last pixel painted on it. */
  lemma {:induction false} PaintLastHit(img: Image, t: seq<Pixel>, dx: int, dy: int, x: int, y: int, k: int)
    requires LastHit(t, dx, dy, x, y, k) && Inside(img, x, y)
    ensures Get(Paint(img, t, dx, dy), x, y) == Shade(t[k].colour)
    decreases |t|
  {
    var n := |t| - 1;
    if k < n {
      var front := t[..n];
      assert !Hits(t[n], dx, dy, x, y);
      assert forall i :: k < i < n ==> front[i] == t[i];
      assert LastHit(front, dx, dy, x, y, k);
      PaintLastHit(img, front, dx, dy, x, y, k);
    }
  }

  /** A cell some sprite lands on shows the last pixel of the last such
      sprite. */
  lemma {:induction false} DrawSpritesTop(view: Image, sprites: seq<Sprite>, x: int, y: int, j: int, k: int)
    requires TopSpritePixel(sprites, x, y, j, k) && Inside(view, x, y)
    ensures Get(DrawSprites(view, sprites), x, y) == Shade(sprites[j].tile[k].colour)
    decreases |sprites|
  {
    var n := |sprites| - 1;
    var front, s := sprites[..n], sprites[n];
    var below := DrawSprites(view, front);
    if j == n {
      PaintLastHit(below, s.tile, s.x, s.y, x, y, k);
    } else {
      assert front[j] == sprites[j];
      assert forall i :: j < i < n ==> front[i] == sprites[i];
      assert TopSpritePixel(front, x, y, j, k);
      DrawSpritesTop(view, front, x, y, j, k);
      PaintMisses(below, s.tile, s.x, s.y, x, y);
    }
  }

  /** Where a tile lands, some pixel of it lands last. */
  lemma {:induction false} LastHitExists(t: seq<Pixel>, dx: int, dy: int, x: int, y: int)
    requires Lands(t, dx, dy, x, y)
    ensures exists k :: LastHit(t, dx, dy, x, y, k)
    decreases |t|
  {
    var n := |t| - 1;
    if Hits(t[n], dx, dy, x, y) {
      assert LastHit(t, dx, dy, x, y, n);
    } else {
      var front := t[..n];
      var k0 :| 0 <= k0 < |t| && t[k0].x + dx == x && t[k0].y + dy == y;
      assert front[k0] == t[k0];
      LastHitExists(front, dx, dy, x, y);
      var k :| LastHit(front, dx, dy, x, y, k);
      assert t[k] == front[k];
      assert LastHit(t, dx, dy, x, y, k);
    }
  }

  /** Exactly the cells some sprite lands on have a top sprite pixel. */
  lemma {:induction false} TopSpriteExists(sprites: seq<Sprite>, x: int, y: int)
    ensures SpriteLands(sprites, x, y) <==> exists j, k :: TopSpritePixel(sprites, x, y, j, k)
    decreases |sprites|
  {
    if exists j, k :: TopSpritePixel(sprites, x, y, j, k) {
      var j, k :| TopSpritePixel(sprites, x, y, j, k);
      assert Lands(sprites[j].tile, sprites[j].x, sprites[j].y, x, y);
    }
    if SpriteLands(sprites, x, y) {
      var n := |sprites| - 1;
      var s := sprites[n];
      if Lands(s.tile, s.x, s.y, x, y) {
        LastHitExists(s.tile, s.x, s.y, x, y);
        var k :| LastHit(s.tile, s.x, s.y, x, y, k);
        assert TopSpritePixel(sprites, x, y, n, k);
      } else {
        var front := sprites[..n];
        var j0 :| 0 <= j0 < |sprites| && Lands(sprites[j0].tile, sprites[j0].x, sprites[j0].y, x, y);
        assert front[j0] == sprites[j0];
        TopSpriteExists(front, x, y);
        var j, k :| TopSpritePixel(front, x, y, j, k);
        assert sprites[j] == front[j];
        assert TopSpritePixel(sprites, x, y, j, k);
      }
    }
  }

  /** At most one sprite pixel is on top of a cell. */
  lemma TopSpriteUnique(sprites: seq<Sprite>, x: int, y: int, j1: int, k1: int, j2: int, k2: int)
    requires TopSpritePixel(sprites, x, y, j1, k1) && TopSpritePixel(sprites, x, y, j2, k2)
    ensures j1 == j2 && k1 == k2
  {
    assert Lands(sprites[j1].tile, sprites[j1].x, sprites[j1].y, x, y);
    assert Lands(sprites[j2].tile, sprites[j2].x, sprites[j2].y, x, y);
  }

  /** No sprite in OAM has a pixel of index 0: renderTile drops them. */
  lemma SpritesOpaque(mem: Mem)
    ensures forall j, k :: 0 <= j < 40 && 0 <= k < |RenderSprites(mem)[j].tile| ==>
              RenderSprites(mem)[j].tile[k].colour != 0
  {
    forall j, k | 0 <= j < 40 && 0 <= k < |RenderSprites(mem)[j].tile|
      ensures RenderSprites(mem)[j].tile[k].colour != 0
    {
      SpriteTileOpaque(mem, Load(mem, LcdTiming.LcdcAddr), OamByte(mem, j, 2) as int, OamByte(mem, j, 3));
      assert RenderSprites(mem)[j].tile[k] in RenderSprites(mem)[j].tile;
    }
  }

  /** X - 8 and Y - 16 worked out in a byte are the integer differences
      modulo 256. */
  lemma LessEight(b: bv8)
    ensures (b - 8) as int == (b as int - 8) % 256
  {
    if b < 8 {
      assert (b - 8) as int == b as int + 248;
    } else {
      assert (b - 8) as int == b as int - 8;
    }
  }

  lemma LessSixteen(b: bv8)
    ensures (b - 16) as int == (b as int - 16) % 256
  {
    if b < 16 {
      assert (b - 16) as int == b as int + 240;
    } else {
      assert (b - 16) as int == b as int - 16;
    }
  }

  /** Sprite i sits at its OAM X - 8 modulo 256: a sprite partly off the
      left edge is placed at the far side instead. */
  lemma SpriteX(mem: Mem, i: nat)
    requires i < 40
    ensures RenderSprites(mem)[i].x == (OamByte(mem, i, 1) as int - 8) % 256
  {
    LessEight(OamByte(mem, i, 1));
  }

  /** Sprite i sits at its OAM Y - 16 modulo 256. */
  lemma SpriteY(mem: Mem, i: nat)
    requires i < 40
    ensures RenderSprites(mem)[i].y == (OamByte(mem, i, 0) as int - 16) % 256
  {
    LessSixteen(OamByte(mem, i, 0));
  }

  /** With X = 0 in OAM (the hardware's way of hiding a sprite to the left)
      the sprite is drawn from column 248. */
  lemma HiddenSpriteWraps(mem: Mem, i: nat)
    requires i < 40 && OamByte(mem, i, 1) == 0
    ensures RenderSprites(mem)[i].x == 248
  {
    SpriteX(mem, i);
  }

  // ---------------------------------------------------------------------------
  // Where the background's cells come from

  /** The 64 pixels of a background tile, in row-major order. */
  predicate RowMajor(t: seq<Pixel>)
  {
    |t| == 64 && forall k :: 0 <= k < 64 ==> t[k].x == k % 8 && t[k].y == k / 8
  }

  /** Index k of a row-major 8x8 square is the cell (k % 8, k / 8). */
  lemma SquareIndex(k: int, a: int, b: int)
    requires 0 <= k < 64 && 0 <= a < 8 && 0 <= b < 8
    ensures (k % 8 == a && k / 8 == b) <==> k == 8 * b + a
  {
  }

  /** Painting the first m pixels of a row-major tile at (dx, dy) inside
      the image changes exactly the cells those pixels land on. */
  lemma {:induction false} PaintSquare(img: Image, t: seq<Pixel>, m: nat, dx: int, dy: int, x: int, y: int)
    requires RowMajor(t) && m <= 64
    requires 0 <= dx && dx + 8 <= img.width && 0 <= dy && dy + 8 <= img.height
    ensures Get(Paint(img, t[..m], dx, dy), x, y) ==
              if dx <= x < dx + 8 && dy <= y < dy + 8 && 8 * (y - dy) + (x - dx) < m
              then Shade(t[8 * (y - dy) + (x - dx)].colour)
              else Get(img, x, y)
  {
    if m == 0 {
      assert t[..m] == [];
    } else {
      var k := m - 1;
      assert t[..m][..k] == t[..k];
      assert t[..m][k] == t[k];
      PaintSquare(img, t, k, dx, dy, x, y);
      if dx <= x < dx + 8 && dy <= y < dy + 8 {
        SquareIndex(k, x - dx, y - dy);
      }
    }
  }

  /** The tile of the 32x32 map that covers background cell (x, y). */
  function Cover(x: int, y: int): (i: int)
    requires 0 <= x < 256 && 0 <= y < 256
    ensures 0 <= i < 1024
  {
    (y / 8) * 32 + x / 8
  }

  /** Where cell (x, y) lies within the tile that covers it, as an index
      into the tile's row-major pixels. */
  function InTile(x: int, y: int): (k: int)
    requires 0 <= x && 0 <= y
    ensures 0 <= k < 64
  {
    8 * (y % 8) + x % 8
  }

  /** Tile i, painted at its corner, is the one that covers the cells of
      its square, and only those. */
  lemma TileCorner(i: int, x: int, y: int)
    requires 0 <= i < 1024 && 0 <= x < 256 && 0 <= y < 256
    ensures (CornerX(i) <= x < CornerX(i) + 8 && CornerY(i) <= y < CornerY(i) + 8) <==> Cover(x, y) == i
    ensures Cover(x, y) == i ==> 8 * (y - CornerY(i)) + (x - CornerX(i)) == InTile(x, y)
  {
    var q, r := x / 8, x % 8;
    var d, c := y / 8, y % 8;
    assert x == 8 * q + r && 0 <= q < 32;
    assert y == 8 * d + c && 0 <= d < 32;
    if Cover(x, y) == i {
      assert i == 32 * d + q;
      assert i % 32 == q && i / 32 == d;
    }
  }

  /** The cell the background shows at (x, y): the pixel of the tile that
      covers it, or Blank when the map has no such tile. */
  function BackgroundCell(tiles: seq<seq<Pixel>>, x: int, y: int): Cell
    requires forall i :: 0 <= i < |tiles| ==> RowMajor(tiles[i])
    requires 0 <= x < 256 && 0 <= y < 256
  {
    if Cover(x, y) < |tiles| then
      assert RowMajor(tiles[Cover(x, y)]);
      Shade(tiles[Cover(x, y)][InTile(x, y)].colour)
    else Blank
  }

  /** Painting the tiles in order leaves every cell showing its tile's
      pixel, and cells no tile covers Blank. */
  lemma {:induction false} PaintTilesPlaces(tiles: seq<seq<Pixel>>, x: int, y: int)
    requires |tiles| <= 1024
    requires forall i :: 0 <= i < |tiles| ==> RowMajor(tiles[i])
    requires 0 <= x < 256 && 0 <= y < 256
    ensures Get(PaintTiles(NewImage(256, 256), tiles), x, y) == BackgroundCell(tiles, x, y)
    decreases |tiles|
  {
    if tiles != [] {
      var i := |tiles| - 1;
      var below := PaintTiles(NewImage(256, 256), tiles[..i]);
      assert PaintTiles(NewImage(256, 256), tiles) == Paint(below, tiles[i], CornerX(i), CornerY(i));
      PaintTilesPlaces(tiles[..i], x, y);
      TileCorner(i, x, y);
      PaintWholeSquare(below, tiles[i], CornerX(i), CornerY(i), x, y);
      var c := Cover(x, y);
      if c == i {
        assert Get(Paint(below, tiles[i], CornerX(i), CornerY(i)), x, y) == Shade(tiles[i][InTile(x, y)].colour);
      } else {
        assert Get(Paint(below, tiles[i], CornerX(i), CornerY(i)), x, y) == Get(below, x, y);
        if c < i {
          assert tiles[..i][c] == tiles[c];
        }
      }
    }
  }

  /** A whole row-major tile painted inside the image. */
  lemma PaintWholeSquare(img: Image, t: seq<Pixel>, dx: int, dy: int, x: int, y: int)
    requires RowMajor(t)
    requires 0 <= dx && dx + 8 <= img.width && 0 <= dy && dy + 8 <= img.height
    ensures Get(Paint(img, t, dx, dy), x, y) ==
              if dx <= x < dx + 8 && dy <= y < dy + 8 then Shade(t[8 * (y - dy) + (x - dx)].colour)
              else Get(img, x, y)
  {
    assert t[..64] == t;
    PaintSquare(img, t, 64, dx, dy, x, y);
  }

  /** Every tile populateTiles makes is a background tile in row-major
      order. */
  lemma PopulatedRowMajor(mem: Mem, window: bool)
    ensures forall i :: 0 <= i < |PopulateTiles(mem, window)| ==> RowMajor(PopulateTiles(mem, window)[i])
  {
    var ids := TileMap(mem, MapBit(window));
    forall i | 0 <= i < |ids|
      ensures RowMajor(PopulateTiles(mem, window)[i])
    {
      BackgroundTileLayout(mem, Load(mem, LcdTiming.LcdcAddr), ids[i] as int);
    }
  }

  /** Pixel (x % 8, y % 8) of background tile `id`: the colour index that
      bit 7 - x % 8 of its row's two bytes give. */
  function TileDot(mem: Mem, lcdc: bv8, id: nat, x: int, y: int): bv8
    requires id < 256 && 0 <= x && 0 <= y
  {
    RowColour(TileBytes(mem, TileAddress(id, lcdc, false)), y % 8, x % 8)
  }

  /** Cell (x, y) of the background (or window) image is the pixel of the
      tile whose id the map holds at Cover(x, y), and Blank when the map
      is too short to reach it. */
  lemma BackgroundFromMemory(mem: Mem, window: bool, x: int, y: int)
    requires 0 <= x < 256 && 0 <= y < 256
    ensures var ids := TileMap(mem, MapBit(window));
            Get(GenerateBackgroundImage(PopulateTiles(mem, window)), x, y) ==
              if Cover(x, y) < |ids| then Shade(TileDot(mem, Load(mem, LcdTiming.LcdcAddr), ids[Cover(x, y)] as int, x, y))
              else Blank
  {
    var ids := TileMap(mem, MapBit(window));
    var c := Cover(x, y);
    PopulatedBackground(mem, window, x, y);
    if c < |ids| {
      TilesOfAt(mem, ids, c);
      TileDotAt(mem, Load(mem, LcdTiming.LcdcAddr), ids[c] as int, x, y);
    }
  }

  /** The populated tiles placed by generateBackgroundImage. */
  lemma PopulatedBackground(mem: Mem, window: bool, x: int, y: int)
    requires 0 <= x < 256 && 0 <= y < 256
    ensures forall i :: 0 <= i < |PopulateTiles(mem, window)| ==> RowMajor(PopulateTiles(mem, window)[i])
    ensures Get(GenerateBackgroundImage(PopulateTiles(mem, window)), x, y) ==
              BackgroundCell(PopulateTiles(mem, window), x, y)
  {
    PopulatedRowMajor(mem, window);
    PaintTilesPlaces(PopulateTiles(mem, window), x, y);
  }

  /** Tile i of the populated map is the tile of id i of the map. */
  lemma TilesOfAt(mem: Mem, ids: seq<bv8>, i: int)
    requires 0 <= i < |ids|
    ensures TilesOf(mem, ids)[i] == Tile(mem, Load(mem, LcdTiming.LcdcAddr), ids[i] as int, 0, false)
  {
  }

  /** The pixel of a background tile that lands on cell (x, y). */
  lemma TileDotAt(mem: Mem, lcdc: bv8, id: nat, x: int, y: int)
    requires id < 256 && 0 <= x && 0 <= y
    ensures |Tile(mem, lcdc, id, 0, false)| == 64
    ensures Tile(mem, lcdc, id, 0, false)[InTile(x, y)] == Pixel(x % 8, y % 8, TileDot(mem, lcdc, id, x, y))
  {
    BackgroundTileLayout(mem, lcdc, id);
    SquareIndex(InTile(x, y), x % 8, y % 8);
  }

  /** With LCDC bit 3 set the background map is one id short, so the
      bottom-right 8x8 square of the background is never painted. */
  lemma AlternateMapCornerBlank(mem: Mem, x: int, y: int)
    requires Bit(Load(mem, LcdTiming.LcdcAddr), BackgroundMapBit)
    requires 248 <= x < 256 && 248 <= y < 256
    ensures Get(GenerateBackgroundImage(PopulateTiles(mem, false)), x, y) == Blank
  {
    var tiles := PopulateTiles(mem, false);
    TileMapLength(mem, BackgroundMapBit);
    assert |tiles| == 1023;
    assert x / 8 == 31 && y / 8 == 31;
    assert Cover(x, y) == 1023;
    PopulatedBackground(mem, false, x, y);
  }

  /** With the map at 0x9800 every cell of the background is painted. */
  lemma DefaultMapCoversAll(mem: Mem, x: int, y: int)
    requires !Bit(Load(mem, LcdTiming.LcdcAddr), BackgroundMapBit)
    requires 0 <= x < 256 && 0 <= y < 256
    ensures Get(GenerateBackgroundImage(PopulateTiles(mem, false)), x, y).Shade?
  {
    TileMapLength(mem, BackgroundMapBit);
    PopulatedBackground(mem, false, x, y);
  }
}
