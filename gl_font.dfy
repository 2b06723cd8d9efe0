/**
 * StGLFont: a texture font that renders each code point at most once into a growing
 * list of atlas textures and serves the cached tile on later requests.
 *
 * FreeType, the GL context and the tile packer are outside the model: the font's
 * rasteriser is a value of pure functions (FtFont), and the outcome of each GL call
 * and of the packer's placement decision is passed in (GlContext, Slot).
 */
module GlFont {
  import opened Geometry
  import opened Wrappers
  import opened GlyphTable

  /**
   * StFTFont as this class uses it: metrics, kerned advance and glyph rendering.
   * A code point the font has no glyph for still renders (FreeType's fallback glyph),
   * so its tile is cached like any other; renders(c) is false only on a FreeType error,
   * after which nothing is cached and the next request for c tries again.
   */
  datatype FtFont = FtFont(
    ascender: int,
    lineSpacing: int,
    advanceX: (UChar, UChar) -> int,  // advance to the next code point, kerning applied
    renders: UChar -> bool,            // false only when FreeType reports an error for the code point
    glyphRect: UChar -> Rect)          // pixel displacement of the rendered bitmap

  /** StHandle<StGLTexture>: the GL name of an atlas texture and whether it was created validly. */
  datatype Texture = Texture(id: nat, valid: bool)

  /** StHandle<StGLFrameBuffer>: an off-screen render target attached to a texture. */
  datatype FrameBuffer = FrameBuffer(id: nat)

  /**
   * What the GL context does for the calls of one request: whether a new texture is
   * created validly and under which name, which frame buffer (if any) goes with it,
   * and whether uploading the glyph bitmap succeeds.
   */
  datatype GlContext = GlContext(textureOk: bool, textureId: nat, fbo: Option<FrameBuffer>, uploadOk: bool)

  /** The packer's decision for a new glyph: whether it fits on the last texture, and its UV rectangle. */
  datatype Slot = Slot(fitsLastTexture: bool, uv: Rect)

  /** A tile lies on a validly created texture of the list. */
  ghost predicate OnTexture(t: Tile, textures: seq<Texture>)
  {
    exists j :: 0 <= j < |textures| && textures[j].id == t.texture && textures[j].valid
  }

  lemma OnLongerTextureList(t: Tile, textures: seq<Texture>, more: seq<Texture>)
    requires OnTexture(t, textures)
    ensures OnTexture(t, textures + more)
  {
    var j :| 0 <= j < |textures| && textures[j].id == t.texture && textures[j].valid;
    assert (textures + more)[j] == textures[j];
  }

  /** The texture createTexture appends. */
  function NewTexture(ctx: GlContext): Texture
  {
    Texture(ctx.textureId, ctx.textureOk)
  }

  /** The frame buffer list after createTexture. */
  function FbosAfter(fbos: seq<FrameBuffer>, ctx: GlContext): seq<FrameBuffer>
  {
    if ctx.textureOk && ctx.fbo.Some? then fbos + [ctx.fbo.value] else fbos
  }

  /** Rendering a new glyph needs a new texture when there is none yet or the last one is full. */
  predicate NeedsTexture(textures: seq<Texture>, slot: Slot)
  {
    textures == [] || !slot.fitsLastTexture
  }

  /** The texture list after rendering a new glyph for c. */
  function TexturesAfter(ft: FtFont, textures: seq<Texture>, ctx: GlContext, slot: Slot, c: UChar): (r: seq<Texture>)
    ensures r == textures || r == textures + [NewTexture(ctx)]
    ensures ft.renders(c) ==> r != []
  {
    if ft.renders(c) && NeedsTexture(textures, slot) then textures + [NewTexture(ctx)] else textures
  }

  /**
   * The tile that rendering a new glyph for c produces, or None when FreeType has no
   * bitmap for it, the texture to hold it is not valid, or the upload fails.
   */
  function NewTile(ft: FtFont, textures: seq<Texture>, ctx: GlContext, slot: Slot, c: UChar): (r: Option<Tile>)
    ensures r.Some? ==> ft.renders(c) && ctx.uploadOk
    ensures r.Some? ==> r.value.uv == slot.uv && r.value.px == ft.glyphRect(c)
    ensures r.Some? ==> OnTexture(r.value, TexturesAfter(ft, textures, ctx, slot, c))
    ensures ft.renders(c) && ctx.uploadOk && !NeedsTexture(textures, slot) && textures[|textures| - 1].valid ==> r.Some?
    ensures ft.renders(c) && ctx.uploadOk && NeedsTexture(textures, slot) ==> (r.Some? <==> ctx.textureOk)
  {
    if !ft.renders(c) then None
    else
      var after := TexturesAfter(ft, textures, ctx, slot, c);
      var last := after[|after| - 1];
      if last.valid && ctx.uploadOk then Some(Tile(slot.uv, ft.glyphRect(c), last.id)) else None
  }

  class Font {
    const ft: FtFont                    // myFont
    var ascender: int                   // myAscender
    var lineSpacing: int                // myLineSpacing
    var textures: seq<Texture>          // myTextures
    var fbos: seq<FrameBuffer>          // myFbos
    var tiles: seq<Tile>                // myTiles
    var lastTileId: int                 // myLastTileId, -1 before the first tile
    var glyphMap: map<UChar, nat>       // myGlyphMap

    /**
     * The cache invariant: the map indexes the tile list one tile per code point, the last
     * tile id is the index of the last tile, every tile lies on a valid texture, there are
     * no more frame buffers than textures, and the metrics are those of the font.
     */
    ghost predicate Valid()
      reads this
    {
      && Table().Valid()
      && lastTileId == |tiles| - 1
      && (forall i :: 0 <= i < |tiles| ==> OnTexture(tiles[i], textures))
      && |fbos| <= |textures|
      && ascender == ft.ascender
      && lineSpacing == ft.lineSpacing
    }

    /** The tile list and glyph map as a value. */
    function Table(): Cache
      reads this
    {
      Cache(tiles, glyphMap)
    }

    /** A font over the given FreeType font with no texture and no glyph yet. */
    constructor (font: FtFont)
      ensures Valid()
      ensures ft == font
      ensures textures == [] && fbos == [] && Table() == Empty
    {
      ft := font;
      ascender := font.ascender;
      lineSpacing := font.lineSpacing;
      textures := [];
      fbos := [];
      tiles := [];
      lastTileId := -1;
      glyphMap := map[];
    }

    /** getFont: the FreeType font given on construction. */
    function GetFont(): (r: FtFont)
      ensures r == ft
    {
      ft
    }

    /**
     * wasInitialized: whether a texture was ever allocated, validly or not. A font that
     * has not been initialized has rendered nothing.
     */
    predicate WasInitialized()
      reads this
      ensures WasInitialized() <==> |textures| > 0
      ensures Valid() && !WasInitialized() ==> tiles == [] && glyphMap == map[]
    {
      assert Valid() && textures == [] && tiles != [] ==> !OnTexture(tiles[0], textures);
      assert Valid() && tiles == [] ==> glyphMap.Keys == {};
      textures != []
    }

    /** isValid: whether the first texture was created validly; it implies WasInitialized. */
    predicate IsValid()
      reads this
      ensures IsValid() ==> WasInitialized()
    {
      textures != [] && textures[0].valid
    }

    /** getAdvanceX: the FreeType font's kerned advance from c to next. */
    function GetAdvanceX(c: UChar, next: UChar): (r: int)
      ensures r == ft.advanceX(c, next)
    {
      ft.advanceX(c, next)
    }

    /** getAscender: the ascender the FreeType font reports. */
    function GetAscender(): (r: int)
      reads this
      requires Valid()
      ensures r == ft.ascender
    {
      ascender
    }

    /** getLineSpacing: the line spacing the FreeType font reports. */
    function GetLineSpacing(): (r: int)
      reads this
      requires Valid()
      ensures r == ft.lineSpacing
    {
      lineSpacing
    }

    /**
     * createTexture: appends a texture handle whatever the outcome (so the list can hold
     * an invalid texture), and its frame buffer when the texture is valid and the context
     * provides one.
     */
    method CreateTexture(ctx: GlContext) returns (ok: bool)
      requires Valid()
      modifies this`textures, this`fbos
      ensures Valid()
      ensures textures == old(textures) + [NewTexture(ctx)]
      ensures fbos == FbosAfter(old(fbos), ctx)
      ensures ok == ctx.textureOk
    {
      textures := textures + [NewTexture(ctx)];
      if ctx.textureOk && ctx.fbo.Some? {
        fbos := fbos + [ctx.fbo.value];
      }
      ok := ctx.textureOk;
      forall i | 0 <= i < |tiles| ensures OnTexture(tiles[i], textures) {
        OnLongerTextureList(tiles[i], old(textures), [NewTexture(ctx)]);
      }
    }

    /**
     * The protected renderGlyph: renders a code point into the last texture, first
     * creating a texture when there is none or the last is full, and appends its tile.
     * The glyph map is left to the caller, which calls it only for a code point not yet cached.
     */
    method RenderNewGlyph(ctx: GlContext, c: UChar, slot: Slot) returns (ok: bool)
      requires Valid()
      modifies this`textures, this`fbos, this`tiles, this`lastTileId
      ensures Valid()
      ensures textures == TexturesAfter(ft, old(textures), ctx, slot, c)
      ensures fbos == if textures == old(textures) then old(fbos) else FbosAfter(old(fbos), ctx)
      ensures ok <==> NewTile(ft, old(textures), ctx, slot, c).Some?
      ensures ok ==> tiles == old(tiles) + [NewTile(ft, old(textures), ctx, slot, c).value]
      ensures !ok ==> tiles == old(tiles)
    {
      if !ft.renders(c) {
        return false;
      }
      if NeedsTexture(textures, slot) {
        var created := CreateTexture(ctx);
        if !created {
          return false;
        }
      }
      var last := textures[|textures| - 1];
      if !last.valid || !ctx.uploadOk {
        return false;
      }
      var tile := Tile(slot.uv, ft.glyphRect(c), last.id);
      assert OnTexture(tile, textures);
      tiles := tiles + [tile];
      lastTileId := |tiles| - 1;
      ok := true;
    }

    /**
     * The public renderGlyph: serves c from the cache, or renders it and caches its tile;
     * in every case advances the pen by the kerned advance to next. glyph is None when a
     * new glyph could not be rendered, in which case nothing is cached.
     */
    method RenderGlyph(ctx: GlContext, c: UChar, next: UChar, pen: Pen, slot: Slot)
      returns (glyph: Option<Tile>, penOut: Pen)
      requires Valid()
      modifies this`textures, this`fbos, this`tiles, this`lastTileId, this`glyphMap
      ensures Valid()
      ensures Table() == Request(old(Table()), c, NewTile(ft, old(textures), ctx, slot, c))
      ensures c in old(glyphMap) ==> unchanged(this) && glyph == Some(old(tiles[glyphMap[c]]))
      ensures c !in old(glyphMap) ==> textures == TexturesAfter(ft, old(textures), ctx, slot, c)
      ensures c !in old(glyphMap) ==> fbos == if textures == old(textures) then old(fbos) else FbosAfter(old(fbos), ctx)
      ensures glyph.Some? <==> c in glyphMap
      ensures glyph.Some? ==> glyphMap[c] < |tiles| && glyph.value == tiles[glyphMap[c]]
      ensures penOut == Pen(pen.x + ft.advanceX(c, next), pen.y)
    {
      if c in glyphMap {
        glyph := Some(tiles[glyphMap[c]]);
      } else {
        var ok := RenderNewGlyph(ctx, c, slot);
        if ok {
          glyphMap := glyphMap[c := lastTileId];
          glyph := Some(tiles[lastTileId]);
        } else {
          glyph := None;
        }
      }
      penOut := pen.(x := pen.x + GetAdvanceX(c, next));
    }
  }

  /**
   * A client: two requests for the same code point on a fresh font. When the first
   * succeeds, the second returns the same tile, and the cache holds that one tile.
   */
  method RequestTwice(ft: FtFont, ctx1: GlContext, ctx2: GlContext, slot1: Slot, slot2: Slot, c: UChar, next: UChar)
    returns (first: Option<Tile>, second: Option<Tile>, tileCount: nat)
    ensures first.Some? ==> second == first && tileCount == 1
    ensures first.None? ==> tileCount == 0 || second.Some?
  {
    var font := new Font(ft);
    var pen := Pen(0, 0);
    first, pen := font.RenderGlyph(ctx1, c, next, pen, slot1);
    second, pen := font.RenderGlyph(ctx2, c, next, pen, slot2);
    tileCount := |font.tiles|;
  }

  /**
   * A client: a fresh font whose first texture could not be created is initialized
   * but not valid, so WasInitialized does not imply IsValid.
   */
  method FirstTextureFails(ft: FtFont, ctx: GlContext) returns (initialized: bool, valid: bool)
    requires !ctx.textureOk
    ensures initialized && !valid
  {
    var font := new Font(ft);
    var ok := font.CreateTexture(ctx);
    initialized := font.WasInitialized();
    valid := font.IsValid();
  }
}
