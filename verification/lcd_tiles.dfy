/** The tile half of lcd/lcd.go: where a tile's 16 bytes live (renderTile's
    address selection) and how they decode into pixels of palette indices
    0 to 3, with sprite transparency and flips. */
module Tiles {
  import opened Bytes

  /** LCDC bit 4: background and window tiles are numbered 0 to 255 from
      0x8000; when clear they are numbered -128 to 127 around 0x9000. */
  const UnsignedTiles: bv8 := 0x10

  /** Sprite attribute bits 5 and 6: horizontal and vertical flip. */
  const XFlip: bv8 := 0x20
  const YFlip: bv8 := 0x40

  /** A point of a tile with a value of type C; renderTile's pixels carry
      a palette index, which stands for the palette colour it stores. */
  datatype Dot<C> = Pixel(x: int, y: int, colour: C)

  type Pixel = Dot<bv8>

  // ---------------------------------------------------------------------------
  // Tile data

  /** The address of a tile's data, as renderTile computes it: unsigned ids
      for sprites and under LCDC bit 4, signed ones otherwise. */
  function TileAddress(id: nat, lcdc: bv8, sprite: bool): (a: int)
    requires id < 256
    ensures 0x8000 <= a <= 0x97F0 && a % 16 == 0
  {
    if lcdc & UnsignedTiles != 0 || sprite then 0x8000 + id * 16
    else if id > 127 then 0x8800 + (id - 128) * 16
    else 0x8800 + (id + 128) * 16
  }

  /** An id read as a two's-complement byte. */
  function SignedId(id: nat): (n: int)
    requires id < 256
    ensures -128 <= n < 128
    ensures n % 256 == id
  {
    if id < 128 then id else id - 256
  }

  /** The two numberings: unsigned from 0x8000, signed from 0x9000. */
  lemma TileAddressBases(id: nat, lcdc: bv8, sprite: bool)
    requires id < 256
    ensures lcdc & UnsignedTiles != 0 || sprite ==> TileAddress(id, lcdc, sprite) == 0x8000 + 16 * id
    ensures !(lcdc & UnsignedTiles != 0 || sprite) ==> TileAddress(id, lcdc, sprite) == 0x9000 + 16 * SignedId(id)
  {
  }

  /** Different ids name different tiles under either numbering. */
  lemma TileAddressesDistinct(i: nat, j: nat, lcdc: bv8, sprite: bool)
    requires i < 256 && j < 256 && i != j
    ensures TileAddress(i, lcdc, sprite) != TileAddress(j, lcdc, sprite)
  {
    TileAddressBases(i, lcdc, sprite);
    TileAddressBases(j, lcdc, sprite);
  }

  /** The 16 bytes of a tile, `Memory[addr:addr+16]`. */
  function TileBytes(mem: Mem, addr: int): (r: seq<bv8>)
    requires 0 <= addr <= 0xFFF0
    ensures |r| == 16
    ensures forall k :: 0 <= k < 16 ==> r[k] == Load(mem, (addr + k) as bv16)
  {
    seq(16, k requires 0 <= k < 16 => Load(mem, (addr + k) as bv16))
  }

  // ---------------------------------------------------------------------------
  // Decoding

  /** The palette index of a pixel of a row: bit s of the row's first
      byte, plus twice bit s of its second. */
  function ColourIndex(row0: bv8, row1: bv8, s: bv8): (c: bv8)
    requires s < 8
    ensures c <= 3
  {
    ((row0 >> s) & 1) + ((row1 >> s) & 1) * 2
  }

  /** Pixel pix of a row reads bit 7 - pix of both bytes. */
  function Shift(pix: nat): (s: bv8)
    requires pix < 8
    ensures s < 8
  {
    (7 - pix) as bv8
  }

  /** Bit s of the first byte is the low bit of the index, bit s of the
      second its high bit. */
  lemma ColourIndexBits(row0: bv8, row1: bv8, s: bv8)
    requires s < 8
    ensures (ColourIndex(row0, row1, s) & 1 == 1) == Bit(row0, s)
    ensures (ColourIndex(row0, row1, s) & 2 == 2) == Bit(row1, s)
  {
  }

  /** Where pixel pix of row line lands: each flip bit mirrors its axis as
      8 - v, so a flipped axis runs over 1 to 8 rather than 0 to 7. */
  function Place(attrs: bv8, pix: nat, line: nat): (p: (int, int))
    ensures p.0 == if attrs & XFlip != 0 then 8 - pix else pix
    ensures p.1 == if attrs & YFlip != 0 then 8 - line else line
  {
    if attrs & YFlip != 0 && attrs & XFlip != 0 then (8 - pix, 8 - line)
    else if attrs & YFlip != 0 then (pix, 8 - line)
    else if attrs & XFlip != 0 then (8 - pix, line)
    else (pix, line)
  }

  /** The k-th pixel in renderTile's row-major order. */
  function PixelAt(data: seq<bv8>, attrs: bv8, k: nat): (p: Pixel)
    requires |data| == 16 && k < 64
  {
    var line := k / 8;
    var pix := k % 8;
    Pixel(Place(attrs, pix, line).0, Place(attrs, pix, line).1,
          ColourIndex(data[2 * line], data[2 * line + 1], Shift(pix)))
  }

  /** All 64 pixels of a tile, row by row. */
  function Scan(data: seq<bv8>, attrs: bv8): (r: seq<Pixel>)
    requires |data| == 16
    ensures |r| == 64
  {
    seq(64, k requires 0 <= k < 64 => PixelAt(data, attrs, k))
  }

  /** The pixels renderTile keeps, in order: a sprite skips those of index
      0, so they let what is below show through. */
  function Kept(ps: seq<Pixel>, sprite: bool): (r: seq<Pixel>)
    ensures |r| <= |ps|
    decreases |ps|
  {
    if ps == [] then []
    else Kept(ps[..|ps| - 1], sprite)
         + (if sprite && ps[|ps| - 1].colour == 0 then [] else [ps[|ps| - 1]])
  }

  /** The pixels of a tile, from its data. */
  function TilePixels(data: seq<bv8>, attrs: bv8, sprite: bool): seq<Pixel>
    requires |data| == 16
  {
    Kept(Scan(data, attrs), sprite)
  }

  /** renderTile's result, as a function of memory. */
  function Tile(mem: Mem, lcdc: bv8, id: nat, attrs: bv8, sprite: bool): seq<Pixel>
    requires id < 256
  {
    TilePixels(TileBytes(mem, TileAddress(id, lcdc, sprite)), attrs, sprite)
  }

  /** The k-th pixel is pixel k % 8 of row k / 8. */
  lemma PixelInRow(data: seq<bv8>, attrs: bv8, line: nat, pix: nat)
    requires |data| == 16 && line < 8 && pix < 8
    ensures Scan(data, attrs)[8 * line + pix] ==
              Pixel(Place(attrs, pix, line).0, Place(attrs, pix, line).1,
                    ColourIndex(data[2 * line], data[2 * line + 1], Shift(pix)))
  {
    var k := 8 * line + pix;
    assert k / 8 == line && k % 8 == pix;
  }

  /** Keeping one more pixel of a sequence. */
  lemma KeptStep(ps: seq<Pixel>, n: nat, sprite: bool)
    requires n < |ps|
    ensures Kept(ps[..n + 1], sprite) ==
              Kept(ps[..n], sprite) + (if sprite && ps[n].colour == 0 then [] else [ps[n]])
  {
    assert ps[..n + 1][..n] == ps[..n];
  }

  /** renderTile: the tile's bytes are fetched and decoded. */
  method RenderTile(mem: Mem, lcdc: bv8, id: nat, attrs: bv8, sprite: bool)
    returns (pixels: seq<Pixel>)
    requires id < 256
    ensures pixels == Tile(mem, lcdc, id, attrs, sprite)
  {
    var addr := TileAddress(id, lcdc, sprite);
    var vals := TileBytes(mem, addr);
    pixels := DecodeTile(vals, attrs, sprite);
  }

  /** renderTile's outer loop, over the eight rows. */
  method DecodeTile(vals: seq<bv8>, attrs: bv8, sprite: bool) returns (pixels: seq<Pixel>)
    requires |vals| == 16
    ensures pixels == TilePixels(vals, attrs, sprite)
  {
    pixels := [];
    var line := 0;
    while line < 8
      invariant 0 <= line <= 8
      invariant pixels == Kept(Scan(vals, attrs)[..8 * line], sprite)
    {
      pixels := DecodeRow(vals, attrs, sprite, line, pixels);
      line := line + 1;
    }
    assert Scan(vals, attrs)[..64] == Scan(vals, attrs);
  }

  /** renderTile's inner loop: the pixels of row line appended to those of
      the rows above. */
  method DecodeRow(vals: seq<bv8>, attrs: bv8, sprite: bool, line: nat, above: seq<Pixel>)
    returns (pixels: seq<Pixel>)
    requires |vals| == 16 && line < 8
    requires above == Kept(Scan(vals, attrs)[..8 * line], sprite)
    ensures pixels == Kept(Scan(vals, attrs)[..8 * line + 8], sprite)
  {
    ghost var all := Scan(vals, attrs);
    pixels := above;
    var hi := vals[2 * line];
    var lo := vals[2 * line + 1];
    var pix := 0;
    while pix < 8
      invariant 0 <= pix <= 8
      invariant pixels == Kept(all[..8 * line + pix], sprite)
    {
      var p := DecodePixel(hi, lo, attrs, line, pix);
      ghost var n := 8 * line + pix;
      PixelInRow(vals, attrs, line, pix);
      assert p == all[n];
      KeptStep(all, n, sprite);
      if !(sprite && p.colour == 0) {
        pixels := pixels + [p];
      }
      assert pixels == Kept(all[..n + 1], sprite);
      pix := pix + 1;
      assert 8 * line + pix == n + 1;
    }
  }

  /** The body of renderTile's inner loop: pixel pix of row line, from the
      row's two bytes. */
  method DecodePixel(hi: bv8, lo: bv8, attrs: bv8, line: nat, pix: nat) returns (p: Pixel)
    requires line < 8 && pix < 8
    ensures p == Pixel(Place(attrs, pix, line).0, Place(attrs, pix, line).1, ColourIndex(hi, lo, Shift(pix)))
  {
    var s := Shift(pix);
    var hiBit := (lo >> s) & 1;
    var loBit := (hi >> s) & 1;
    var colour := loBit + hiBit * 2;
    var x, y;
    if attrs & YFlip != 0 && attrs & XFlip != 0 {
      x, y := 8 - pix, 8 - line;
    } else if attrs & YFlip != 0 {
      x, y := pix, 8 - line;
    } else if attrs & XFlip != 0 {
      x, y := 8 - pix, line;
    } else {
      x, y := pix, line;
    }
    p := Pixel(x, y, colour);
  }

  // ---------------------------------------------------------------------------
  // What a tile holds

  /** Without the sprite rule every pixel is kept. */
  lemma {:induction false} KeptAll(ps: seq<Pixel>)
    ensures Kept(ps, false) == ps
    decreases |ps|
  {
    if ps != [] {
      KeptAll(ps[..|ps| - 1]);
      assert ps[..|ps| - 1] + [ps[|ps| - 1]] == ps;
    }
  }

  /** Kept pixels come from the input; a sprite keeps exactly the pixels of
      non-zero index. */
  lemma {:induction false} KeptOpaque(ps: seq<Pixel>, sprite: bool)
    ensures forall p :: p in Kept(ps, sprite) ==> p in ps
    ensures sprite ==> forall p :: p in Kept(ps, sprite) ==> p.colour != 0
    ensures sprite ==> forall p :: p in ps && p.colour != 0 ==> p in Kept(ps, sprite)
    decreases |ps|
  {
    if ps != [] {
      var init := ps[..|ps| - 1];
      KeptOpaque(init, sprite);
      assert ps == init + [ps[|ps| - 1]];
    }
  }

  /** A background or window tile (attributes 0, no sprite rule) is all 64
      pixels in row-major order, each decoded from its row's two bytes. */
  lemma BackgroundTileLayout(mem: Mem, lcdc: bv8, id: nat)
    requires id < 256
    ensures |Tile(mem, lcdc, id, 0, false)| == 64
    ensures forall k :: 0 <= k < 64 ==>
              Tile(mem, lcdc, id, 0, false)[k] ==
                Pixel(k % 8, k / 8, RowColour(TileBytes(mem, TileAddress(id, lcdc, false)), k / 8, k % 8))
  {
    var data := TileBytes(mem, TileAddress(id, lcdc, false));
    var all := Scan(data, 0);
    KeptAll(all);
    assert Tile(mem, lcdc, id, 0, false) == all;
    forall k | 0 <= k < 64
      ensures all[k] == Pixel(k % 8, k / 8, RowColour(data, k / 8, k % 8))
    {
      UnflippedPixel(data, k);
    }
  }

  /** The colour index of pixel pix of row line of a tile's data. */
  function RowColour(data: seq<bv8>, line: nat, pix: nat): (c: bv8)
    requires |data| == 16 && line < 8 && pix < 8
    ensures c <= 3
  {
    ColourIndex(data[2 * line], data[2 * line + 1], Shift(pix))
  }

  /** Without flip bits a pixel lands where it was read. */
  lemma UnflippedPixel(data: seq<bv8>, k: nat)
    requires |data| == 16 && k < 64
    ensures PixelAt(data, 0, k) == Pixel(k % 8, k / 8, RowColour(data, k / 8, k % 8))
  {
  }

  /** A sprite tile holds exactly its pixels of index 1 to 3: index 0 is
      transparent. */
  lemma SpriteTileOpaque(mem: Mem, lcdc: bv8, id: nat, attrs: bv8)
    requires id < 256
    ensures forall p :: p in Tile(mem, lcdc, id, attrs, true) ==> 1 <= p.colour <= 3
    ensures forall k :: 0 <= k < 64 && PixelAt(TileBytes(mem, TileAddress(id, lcdc, true)), attrs, k).colour != 0 ==>
              PixelAt(TileBytes(mem, TileAddress(id, lcdc, true)), attrs, k) in Tile(mem, lcdc, id, attrs, true)
  {
    var data := TileBytes(mem, TileAddress(id, lcdc, true));
    var all := Scan(data, attrs);
    KeptOpaque(all, true);
    forall p | p in Tile(mem, lcdc, id, attrs, true)
      ensures 1 <= p.colour <= 3
    {
      var k :| 0 <= k < 64 && all[k] == p;
    }
    forall k | 0 <= k < 64 && PixelAt(data, attrs, k).colour != 0
      ensures PixelAt(data, attrs, k) in Tile(mem, lcdc, id, attrs, true)
    {
      assert all[k] == PixelAt(data, attrs, k);
    }
  }

  /** Every pixel lands in 0 to 7 along an unflipped axis and in 1 to 8
      along a flipped one: the mirror image is shifted one place. */
  lemma FlipRange(mem: Mem, lcdc: bv8, id: nat, attrs: bv8, sprite: bool)
    requires id < 256
    ensures forall p :: p in Tile(mem, lcdc, id, attrs, sprite) ==>
              (if attrs & XFlip != 0 then 1 <= p.x <= 8 else 0 <= p.x <= 7)
              && (if attrs & YFlip != 0 then 1 <= p.y <= 8 else 0 <= p.y <= 7)
  {
    var data := TileBytes(mem, TileAddress(id, lcdc, sprite));
    var all := Scan(data, attrs);
    KeptOpaque(all, sprite);
    forall p | p in Tile(mem, lcdc, id, attrs, sprite)
      ensures (if attrs & XFlip != 0 then 1 <= p.x <= 8 else 0 <= p.x <= 7)
              && (if attrs & YFlip != 0 then 1 <= p.y <= 8 else 0 <= p.y <= 7)
    {
      var k :| 0 <= k < 64 && all[k] == p;
    }
  }
}
