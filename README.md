# Texture-font glyph cache and text widget helpers

A Dafny model of two parts of an OpenGL widget toolkit:

- **StGLFont**, a texture font. It renders each Unicode code point at most once
  into a growing list of atlas textures. It keeps one tile per rendered glyph in
  an append-only tile list, and a map from code point to tile index. Later
  requests for the same code point are served from that map.
- **StGLTextArea**, the text widget. The model covers its font-size table, its
  margin, border and colour setters, its non-negative text extents, and the rule
  that fits the widget's height to the formatted text.

Modules:

- `Geometry` (geometry.dfy): rectangles, the pen position and the absolute extent.
- `Wrappers` (wrappers.dfy): `Option`.
- `GlyphTable` (glyph_table.dfy): the tiles and glyph map as a value (`Cache`).
  It defines the cache invariant, what one `renderGlyph` request does (`Request`)
  and what a run of requests does (`ServeAll`, given each request's render
  outcome, failures included), with lemmas for render-once and lookup stability.
- `GlFont` (gl_font.dfy): the `Font` class with the fields of StGLFont. Its methods
  `CreateTexture`, `RenderNewGlyph` (the protected `renderGlyph`) and
  `RenderGlyph` (the public one) update those fields in place. Each method is
  proved to keep the invariant; `RenderGlyph`'s new tile list and glyph map are
  proved equal to `Request` of the old ones.
- `TextArea` (text_area.dfy): the widget's pure helpers and its field setters.

External collaborators are inputs to the model:

- FreeType (`StFTFont`) is a value of pure functions (`FtFont`): the kerned
  advance, whether a glyph renders, the glyph's pixel rectangle, and the metrics.
  A code point the font has no glyph for still renders, as FreeType's fallback
  glyph, and its tile is cached like any other. `renders(c)` is false only on a
  FreeType error: then nothing is cached and the next request for c tries again.
- The outcome of each GL call is a `GlContext`: texture creation and its GL name,
  an optional frame buffer, and the upload result.
- The tile packer's decision is a `Slot`: whether the glyph fits on the last
  texture, and its UV rectangle.
- `stglInit` of the text widget is its boolean result and the text bounding box
  its formatting computes.

The model covers the declarations and inline bodies of StGLFont.h and
StGLTextArea.h; the out-of-line bodies in the `.cpp` files are not modelled.
Where a header leaves a behaviour open, the model picks the reading its comments
support, as listed here:

- `createTexture` appends the texture handle even when creation fails.
  `isValid` tests `myTextures[0]->isValid()` while `wasInitialized` only tests
  that the list is non-empty, so the list can hold an invalid texture.
- The protected `renderGlyph` creates a texture first when the packer reports
  the last texture full. It fails when FreeType renders nothing,
  the texture is invalid or the upload fails. On success it appends one tile and
  sets `myLastTileId` to that tile.
- The public `renderGlyph` binds the code point to `myLastTileId` after a
  successful render. It advances the pen by `getAdvanceX` whether or not the
  glyph could be rendered.

## Model

| member | source | states |
|---|---|---|
| `Geometry.Magnitude` | include/StGLWidgets/StGLTextArea.h:188-194 | the absolute extent is non-negative and equals the signed extent or its negation |
| `Geometry.MagnitudeOfFlippedRect` | include/StGLWidgets/StGLTextArea.h:188-194 | the text height and width do not depend on the order of the box's edges |
| `GlyphTable.SameTileIsEquivalence` | include/StGL/StGLFont.h:33-35 | tile comparison is reflexive, symmetric and transitive |
| `GlyphTable.SameTile` | include/StGL/StGLFont.h:25-35 | two tiles compare equal exactly when they are equal once their texture names agree |
| `GlyphTable.SameRectanglesOnOtherTexture` | include/StGL/StGLFont.h:33-35 | equal rectangles on a different texture compare equal although the tiles differ |
| `GlyphTable.ExtendsTransitive` | include/StGL/StGLFont.h:157-161 | growing the cache twice is growing it: tiles stay a prefix and map entries stay in place |
| `GlyphTable.ExtendsKeepsLookups` | include/StGL/StGLFont.h:159-161 | a code point cached before keeps returning the same tile in every grown cache |
| `GlyphTable.Request` | include/StGL/StGLFont.h:118-131 | one request keeps the invariant and only grows the cache; a hit or a failed render leaves the cache as it was; a successful miss adds exactly c and one tile, and c then looks up the rendered tile |
| `GlyphTable.RepeatedRequestIsHit` | include/StGL/StGLFont.h:118-131 | a second request for the same code point changes nothing and returns the tile of the first |
| `GlyphTable.FailedRequestCanBeRetried` | include/StGL/StGLFont.h:135-139 | a failed render commits nothing, so a later successful retry caches the tile |
| `GlyphTable.ServeAll` | include/StGL/StGLFont.h:159-161 | a run of requests, each with its own render outcome (success or failure), keeps the cache invariant and only grows the cache |
| `GlyphTable.ServeAllCachedCodePoints` | include/StGL/StGLFont.h:118-131 | after a run of requests with any mix of render outcomes, the cached code points are exactly those cached before plus those some request rendered; a code point whose every render failed stays uncached |
| `GlyphTable.ServeAllRendersOnce` | include/StGL/StGLFont.h:118-131 | a run of requests with any mix of render outcomes grows the tile list by exactly one tile per distinct code point that was not cached before and was rendered, however often each is requested |
| `GlyphTable.ServeAllCachesRenderedTile` | include/StGL/StGLFont.h:118-131 | in a run with any mix of render outcomes, a code point not cached before looks up the tile of its first request whose render succeeded |
| `GlyphTable.ServeAllKeepsCachedTiles` | include/StGL/StGLFont.h:159-161 | a code point cached before a run of requests keeps its tile through the run, whatever the render outcomes |
| `GlFont.TexturesAfter` | include/StGL/StGLFont.h:141-144 | rendering a new glyph leaves the texture list as it was or appends exactly one texture, and the list is non-empty once a glyph renders |
| `GlFont.NewTile` | include/StGL/StGLFont.h:135-139 | a new tile exists only if FreeType rendered the glyph and the upload succeeded; it carries the packer's UV rectangle and the glyph's pixel rectangle, and lies on a valid texture of the list |
| `GlFont.Font.constructor` | include/StGL/StGLFont.h:51-54 | a new font keeps the FreeType font, has no texture, no tile and no glyph, and satisfies the cache invariant |
| `GlFont.Font.GetFont` | include/StGL/StGLFont.h:66-71 | returns the FreeType font given on construction |
| `GlFont.Font.WasInitialized` | include/StGL/StGLFont.h:80-87 | true exactly when the texture list is non-empty; a font that is not initialized holds no tile and no glyph |
| `GlFont.Font.IsValid` | include/StGL/StGLFont.h:73-87 | a valid font has been initialized |
| `GlFont.Font.GetAdvanceX` | include/StGL/StGLFont.h:95-102 | returns exactly FreeType's kerned advance for the pair |
| `GlFont.Font.GetAscender` | include/StGL/StGLFont.h:104-109 | returns the ascender FreeType reported |
| `GlFont.Font.GetLineSpacing` | include/StGL/StGLFont.h:111-116 | returns the line spacing FreeType reported |
| `GlFont.Font.CreateTexture` | include/StGL/StGLFont.h:141-144 | appends one texture handle, valid exactly when creation succeeded, adds a frame buffer only alongside a valid texture, changes nothing else, and keeps the invariant |
| `GlFont.Font.RenderNewGlyph` | include/StGL/StGLFont.h:135-139 | succeeds exactly when `NewTile` gives a tile and then appends that tile; on failure the tile list is unchanged; the texture list becomes `TexturesAfter`; the glyph map is untouched and the invariant kept |
| `GlFont.Font.RenderGlyph` | include/StGL/StGLFont.h:118-131 | the new tile list and glyph map are `Request` of the old; on a miss the texture and frame buffer lists are those the protected render leaves; a cached code point changes no field and returns its cached tile; a returned tile is the tile c maps to, and c maps to an index below the tile count; the pen advances by exactly FreeType's advance |
| `GlFont.RequestTwice` | include/StGL/StGLFont.h:118-131 | on a fresh font, when the first request succeeds the second returns the same tile and only one tile was rendered |
| `GlFont.FirstTextureFails` | include/StGL/StGLFont.h:73-87 | a font whose first texture failed is initialized but not valid |
| `TextArea.FontSizePx` | include/StGLWidgets/StGLTextArea.h:142-159 | an enumerator maps into 10..28 pixels, and any other value is returned unchanged |
| `TextArea.FontSizeTable` | include/StGLWidgets/StGLTextArea.h:142-155 | the smallest to the double size map to 10, 12, 16, 18, 20 and 28 |
| `TextArea.FontSizeStepsUp` | include/StGLWidgets/StGLTextArea.h:142-155 | each enumerator is larger than the one declared before it |
| `TextArea.FontSizeStrictlyIncreasing` | include/StGLWidgets/StGLTextArea.h:27-34 | the pixel size strictly increases along the enumeration order |
| `TextArea.WithRgb` | include/StGLWidgets/StGLTextArea.h:113-135 | the target takes the given red, green and blue and keeps its alpha |
| `TextArea.WithRgbLastWins` | include/StGLWidgets/StGLTextArea.h:113-135 | a second colour set overrides the first, and setting a colour to its own components changes nothing |
| `TextArea.FitHeight` | include/StGLWidgets/StGLTextArea.h:167-173 | left, right and top are kept, and the height becomes the text height |
| `TextArea.FitHeightIdempotent` | include/StGLWidgets/StGLTextArea.h:167-173 | fitting twice equals fitting once, and the fitted rectangle is never upside down |
| `TextArea.TextArea.GetFontSize` | include/StGLWidgets/StGLTextArea.h:142-159 | the widget's size value as an enumerator maps into 10..28 pixels, and any other value is returned unchanged |
| `TextArea.TextArea.GetMarginLeft` | include/StGLWidgets/StGLTextArea.h:58-63 | returns the stored left margin, which `SetMarginLeft` sets |
| `TextArea.TextArea.GetMarginRight` | include/StGLWidgets/StGLTextArea.h:72-77 | returns the stored right margin, which `SetMarginRight` sets |
| `TextArea.TextArea.SetMarginLeft` | include/StGLWidgets/StGLTextArea.h:58-70 | the left margin reads back as set, and the right margin is unchanged |
| `TextArea.TextArea.SetMarginRight` | include/StGLWidgets/StGLTextArea.h:72-84 | the right margin reads back as set, and the left margin is unchanged |
| `TextArea.TextArea.SetBorder` | include/StGLWidgets/StGLTextArea.h:103-108 | the border flag takes the given value and nothing else changes |
| `TextArea.TextArea.SetBorderColor` | include/StGLWidgets/StGLTextArea.h:110-117 | the border colour takes r, g and b and keeps its alpha; the other colours are unchanged |
| `TextArea.TextArea.SetBackColor` | include/StGLWidgets/StGLTextArea.h:119-126 | the background colour takes r, g and b and keeps its alpha; the other colours are unchanged |
| `TextArea.TextArea.SetTextColor` | include/StGLWidgets/StGLTextArea.h:128-135 | the text colour takes r, g and b and keeps its alpha; the other colours are unchanged |
| `TextArea.TextArea.GetTextHeight` | include/StGLWidgets/StGLTextArea.h:188-190 | the text height is never negative and is the box height up to sign |
| `TextArea.TextArea.GetTextWidth` | include/StGLWidgets/StGLTextArea.h:192-194 | the text width is never negative and is the box width up to sign |
| `TextArea.TextArea.StglInitAutoHeight` | include/StGLWidgets/StGLTextArea.h:164-173 | returns what `stglInit` returned; on failure the rectangle and text box are unchanged; on success the widget keeps the newly formatted box, bottom becomes top plus that box's height, and the rest of the rectangle is kept |

## Left out

- GL and FreeType work: texture and FBO creation, bitmap upload, `release`, the destructor, and FreeType rasterisation. These are foreign calls. Their outcomes are the `GlContext` and `FtFont` inputs. `StGLFont.cpp` is not part of this model.
- `stglInit` of the font is out-of-line code that is not modelled. The header makes it the call that initializes GL resources, so it would create the first texture. The model instead has the constructor take the ascender and line spacing from the FreeType font, and the protected `renderGlyph` creates the first texture when the list is still empty. So a fresh font whose first FreeType render fails stays uninitialized (`WasInitialized` false).
- Tile packing (`myTileSizeX/Y`, `myLastTilePx`) and the UV and pixel rectangle arithmetic. They are out-of-line code that is not modelled. The packer's decision comes in as `Slot`, and the pixel rectangle comes from `FtFont.glyphRect`.
- GlFont.Font.RenderGlyph: returns the cached tile itself. Placing its pixel rectangle at the pen position happens in `StGLFont.cpp`, which is not part of this model.
- Floating point: coordinates, colours, metrics, advances and the pen are integers. The `GLint` truncation of the box extent is not modelled. `StGLTile::operator==` compares `GLfloat` rectangles, which is not reflexive when a coordinate is NaN; `SameTileIsEquivalence`'s reflexivity holds because the model's coordinates are integers.
- `myTextureFormat`: no modelled operation uses it.
- TextArea.TextArea.StglInitAutoHeight: the outcome of `stglInit` and the bounding box its formatting computes are inputs; how the formatter computes that box is not modelled, and on failure the model keeps the previous box.
- Text widget drawing, formatting and width estimation (`stglDraw`, `formatText`, `computeTextWidth`, `stglInitAutoHeightWidth`, `setTextWidth`, `setText`, alignment and style setters). These are GL or formatter work in out-of-line code that is not modelled.
- The text widget's constructor is out-of-line code that is not modelled; the model's widget starts from default field values.
- StCADViewer.cpp, StGLMsgStack.cpp and StGLSwitchTextured.h: application and UI glue, or declarations whose behaviour lives in files that are not part of this model.
