/**
 * The value-level view of a texture font's glyph cache: the append-only list of tiles
 * (StGLFont::myTiles) and the map from code point to tile index (StGLFont::myGlyphMap),
 * with what one glyph request and a run of requests do to them.
 */
module GlyphTable {
  import opened Geometry
  import opened Wrappers

  /** stUtf32_t: an unsigned 32-bit code point. */
  type UChar = c: int | 0 <= c < 0x1_0000_0000

  /**
   * StGLTile: where a glyph lies in its texture (uv), its pixel displacement (px)
   * and the GL name of the texture holding it.
   */
  datatype Tile = Tile(uv: Rect, px: Rect, texture: nat)

  /**
   * StGLTile::operator== compares the two rectangles and not the texture name: two tiles
   * compare equal exactly when they are equal once their texture names are made to agree.
   */
  predicate SameTile(a: Tile, b: Tile)
    ensures SameTile(a, b) <==> a.(texture := b.texture) == b
  {
    a.uv == b.uv && a.px == b.px
  }

  /** Tile comparison is an equivalence relation. */
  lemma SameTileIsEquivalence(a: Tile, b: Tile, c: Tile)
    ensures SameTile(a, a)
    ensures SameTile(a, b) ==> SameTile(b, a)
    ensures SameTile(a, b) && SameTile(b, c) ==> SameTile(a, c)
  {
  }

  /** The same rectangles on two different textures still compare equal, although the tiles differ. */
  lemma SameRectanglesOnOtherTexture(a: Tile, id: nat)
    requires id != a.texture
    ensures SameTile(a, a.(texture := id))
    ensures a != a.(texture := id)
  {
  }

  /** The tile list and the glyph map of one font. */
  datatype Cache = Cache(tiles: seq<Tile>, glyphs: map<UChar, nat>)
  {
    /** Every map value indexes the tile list, and no two code points share a tile. */
    ghost predicate Valid()
    {
      && (forall c :: c in glyphs ==> glyphs[c] < |tiles|)
      && (forall c, d :: c in glyphs && d in glyphs && c != d ==> glyphs[c] != glyphs[d])
    }

    /** The cached tile of a code point, if it has been rendered. */
    function Lookup(c: UChar): Option<Tile>
      requires Valid()
    {
      if c in glyphs then Some(tiles[glyphs[c]]) else None
    }
  }

  /** The empty cache of a font that has rendered nothing. */
  const Empty := Cache([], map[])

  /**
   * b grows a: a's tiles are a prefix of b's, and every code point a maps is
   * mapped by b to the same tile index (entries are never removed or re-pointed).
   */
  ghost predicate Extends(a: Cache, b: Cache)
  {
    && |a.tiles| <= |b.tiles|
    && a.tiles == b.tiles[..|a.tiles|]
    && forall c :: c in a.glyphs ==> c in b.glyphs && b.glyphs[c] == a.glyphs[c]
  }

  lemma ExtendsTransitive(a: Cache, b: Cache, c: Cache)
    requires Extends(a, b) && Extends(b, c)
    ensures Extends(a, c)
  {
    assert b.tiles[..|a.tiles|] == c.tiles[..|a.tiles|];
  }

  /** A lookup that hits in a cache hits, with the same tile, in every cache that grows it. */
  lemma ExtendsKeepsLookups(a: Cache, b: Cache, c: UChar)
    requires a.Valid() && b.Valid() && Extends(a, b)
    requires c in a.glyphs
    ensures b.Lookup(c) == a.Lookup(c)
  {
    assert a.tiles[a.glyphs[c]] == b.tiles[..|a.tiles|][a.glyphs[c]];
  }

  /**
   * One public renderGlyph request for c, where `rendered` is the tile the rendering of
   * a new glyph produced (None when rasterisation, texture creation or upload failed).
   * A code point already cached is served without rendering; a failed miss commits nothing.
   */
  function Request(k: Cache, c: UChar, rendered: Option<Tile>): (r: Cache)
    requires k.Valid()
    ensures r.Valid() && Extends(k, r)
    ensures c in k.glyphs || rendered.None? ==> r == k
    ensures c !in k.glyphs && rendered.Some? ==>
              && r.glyphs.Keys == k.glyphs.Keys + {c}
              && |r.tiles| == |k.tiles| + 1
              && r.Lookup(c) == rendered
  {
    if c in k.glyphs || rendered.None? then k
    else Cache(k.tiles + [rendered.value], k.glyphs[c := |k.tiles|])
  }

  /** A second request for the same code point is a hit and returns the tile of the first. */
  lemma RepeatedRequestIsHit(k: Cache, c: UChar, t: Tile, again: Option<Tile>)
    requires k.Valid()
    ensures Request(Request(k, c, Some(t)), c, again) == Request(k, c, Some(t))
    ensures Request(k, c, Some(t)).Lookup(c) == if c in k.glyphs then k.Lookup(c) else Some(t)
  {
  }

  /** A request whose rendering failed can be retried: the retry sees the cache as before. */
  lemma FailedRequestCanBeRetried(k: Cache, c: UChar, t: Tile)
    requires k.Valid() && c !in k.glyphs
    ensures Request(Request(k, c, None), c, Some(t)).Lookup(c) == Some(t)
  {
  }

  /**
   * The code points a run of requests renders: those whose request came with a tile.
   * outcomes[i] is what rendering cs[i] would give; it matters only when cs[i] misses.
   */
  function Rendered(cs: seq<UChar>, outcomes: seq<Option<Tile>>): set<UChar>
    requires |outcomes| == |cs|
  {
    set i | 0 <= i < |cs| && outcomes[i].Some? :: cs[i]
  }

  /**
   * A run of requests for cs, the i-th rendering, when it misses, to outcomes[i]
   * (None when its rasterisation, texture creation or upload failed).
   */
  function ServeAll(k: Cache, cs: seq<UChar>, outcomes: seq<Option<Tile>>): (r: Cache)
    requires k.Valid() && |outcomes| == |cs|
    ensures r.Valid() && Extends(k, r)
    decreases |cs|
  {
    if cs == [] then k
    else
      var k' := Request(k, cs[0], outcomes[0]);
      var r := ServeAll(k', cs[1..], outcomes[1..]);
      ExtendsTransitive(k, k', r);
      r
  }

  lemma RenderedCons(cs: seq<UChar>, outcomes: seq<Option<Tile>>)
    requires |outcomes| == |cs| && cs != []
    ensures Rendered(cs, outcomes) ==
              (if outcomes[0].Some? then {cs[0]} else {}) + Rendered(cs[1..], outcomes[1..])
  {
    var head: set<UChar> := if outcomes[0].Some? then {cs[0]} else {};
    forall c | c in Rendered(cs, outcomes) ensures c in head + Rendered(cs[1..], outcomes[1..]) {
      var i :| 0 <= i < |cs| && outcomes[i].Some? && cs[i] == c;
      if i > 0 {
        assert cs[1..][i - 1] == c && outcomes[1..][i - 1].Some?;
      }
    }
    forall c | c in Rendered(cs[1..], outcomes[1..]) ensures c in Rendered(cs, outcomes) {
      var i :| 0 <= i < |cs[1..]| && outcomes[1..][i].Some? && cs[1..][i] == c;
      assert cs[i + 1] == c && outcomes[i + 1].Some?;
    }
  }

  /**
   * After a run of requests the cached code points are those cached before plus those
   * some request rendered; a code point whose every render failed stays uncached.
   */
  lemma {:induction false} ServeAllCachedCodePoints(k: Cache, cs: seq<UChar>, outcomes: seq<Option<Tile>>)
    requires k.Valid() && |outcomes| == |cs|
    ensures ServeAll(k, cs, outcomes).glyphs.Keys == k.glyphs.Keys + Rendered(cs, outcomes)
    decreases |cs|
  {
    if cs == [] {
      assert Rendered(cs, outcomes) == {};
    } else {
      var c := cs[0];
      ServeAllCachedCodePoints(Request(k, c, outcomes[0]), cs[1..], outcomes[1..]);
      RenderedCons(cs, outcomes);
      if outcomes[0].Some? {
        RequestGrowsByNewCodePoints(k, c, outcomes[0].value, Rendered(cs[1..], outcomes[1..]));
      }
    }
  }

  /**
   * Render-once: a run of requests grows the tile list by exactly one tile per distinct
   * code point that was not cached before and was rendered, however often each is
   * requested and however many of its renders failed.
   */
  lemma {:induction false} ServeAllRendersOnce(k: Cache, cs: seq<UChar>, outcomes: seq<Option<Tile>>)
    requires k.Valid() && |outcomes| == |cs|
    ensures |ServeAll(k, cs, outcomes).tiles| == |k.tiles| + |Rendered(cs, outcomes) - k.glyphs.Keys|
    decreases |cs|
  {
    if cs == [] {
      assert Rendered(cs, outcomes) == {};
    } else {
      var c := cs[0];
      ServeAllRendersOnce(Request(k, c, outcomes[0]), cs[1..], outcomes[1..]);
      RenderedCons(cs, outcomes);
      if outcomes[0].Some? {
        RequestGrowsByNewCodePoints(k, c, outcomes[0].value, Rendered(cs[1..], outcomes[1..]));
      }
    }
  }

  /** How one successful request changes the cached key set and the count of code points still to render. */
  lemma RequestGrowsByNewCodePoints(k: Cache, c: UChar, t: Tile, rest: set<UChar>)
    requires k.Valid()
    ensures var k' := Request(k, c, Some(t));
      && k'.glyphs.Keys + rest == k.glyphs.Keys + ({c} + rest)
      && |k'.tiles| + |rest - k'.glyphs.Keys| == |k.tiles| + |({c} + rest) - k.glyphs.Keys|
  {
    NewCodePointsCons(c, rest, k.glyphs.Keys);
  }

  /** Splitting the first code point off the set of code points not yet cached. */
  lemma NewCodePointsCons(c: UChar, rest: set<UChar>, cached: set<UChar>)
    ensures c in cached ==> ({c} + rest) - cached == rest - cached
    ensures c !in cached ==> |({c} + rest) - cached| == 1 + |rest - (cached + {c})|
  {
    if c !in cached {
      var later := rest - (cached + {c});
      assert ({c} + rest) - cached == {c} + later;
    }
  }

  /**
   * After a run of requests, a code point that was not cached before holds the tile of
   * its first request that rendered; the requests for it before that one failed.
   */
  lemma {:induction false} ServeAllCachesRenderedTile(k: Cache, cs: seq<UChar>, outcomes: seq<Option<Tile>>, c: UChar, i: nat)
    requires k.Valid() && |outcomes| == |cs| && c !in k.glyphs
    requires i < |cs| && cs[i] == c && outcomes[i].Some?
    requires forall j :: 0 <= j < i && cs[j] == c ==> outcomes[j].None?
    ensures ServeAll(k, cs, outcomes).Lookup(c) == outcomes[i]
    decreases |cs|
  {
    var k' := Request(k, cs[0], outcomes[0]);
    if i == 0 {
      ExtendsKeepsLookups(k', ServeAll(k', cs[1..], outcomes[1..]), c);
    } else {
      assert c !in k'.glyphs;
      forall j | 0 <= j < i - 1 && cs[1..][j] == c ensures outcomes[1..][j].None? {
        assert cs[j + 1] == c;
      }
      ServeAllCachesRenderedTile(k', cs[1..], outcomes[1..], c, i - 1);
    }
  }

  /** A code point cached before a run of requests keeps its tile through the whole run. */
  lemma ServeAllKeepsCachedTiles(k: Cache, cs: seq<UChar>, outcomes: seq<Option<Tile>>, c: UChar)
    requires k.Valid() && |outcomes| == |cs| && c in k.glyphs
    ensures ServeAll(k, cs, outcomes).Lookup(c) == k.Lookup(c)
  {
    ExtendsKeepsLookups(k, ServeAll(k, cs, outcomes), c);
  }
}
