// The physical payload of a whole matrix: what is stored, what the decoder derives from it, and
// the proof that decoding gives back exactly what the encoder wrote.
module MatrixCodec {
  import opened Bitwise
  import opened Packing
  import opened Numeric
  import opened Options
  import opened Mxfp4
  import opened TagRepair
  import opened TagSearch
  import opened TagEncode
  import opened BlockCodec
  import opened Slices

  // ----- flattening equal-width rows -----

  predicate Width<T>(xss: seq<seq<T>>, w: nat) {
    forall r :: 0 <= r < |xss| ==> |xss[r]| == w
  }

  lemma {:induction false} FlattenLength<T>(xss: seq<seq<T>>, w: nat)
    requires Width(xss, w)
    ensures |Flatten(xss)| == |xss| * w
  {
    if |xss| > 0 {
      FlattenLength(xss[..|xss| - 1], w);
    }
  }

  lemma {:induction false} FlattenSlice<T>(xss: seq<seq<T>>, w: nat, r: nat)
    requires Width(xss, w) && r < |xss|
    ensures |Flatten(xss)| == |xss| * w
    ensures 0 <= r * w && r * w + w <= |xss| * w && Flatten(xss)[r * w..r * w + w] == xss[r]
  {
    var n := |xss| - 1;
    FlattenLength(xss, w);
    FlattenLength(xss[..n], w);
    Slot(r, |xss|, w);
    if r < n {
      FlattenSlice(xss[..n], w, r);
      assert Flatten(xss)[r * w..r * w + w] == Flatten(xss[..n])[r * w..r * w + w];
    }
  }

  lemma FlattenAt<T>(xss: seq<seq<T>>, w: nat, r: nat, i: nat)
    requires Width(xss, w) && r < |xss| && i < w
    ensures |Flatten(xss)| == |xss| * w
    ensures 0 <= r * w + i < |xss| * w && Flatten(xss)[r * w + i] == xss[r][i]
  {
    FlattenSlice(xss, w, r);
    assert Flatten(xss)[r * w + i] == Flatten(xss)[r * w..r * w + w][i];
  }

  lemma {:induction false} FlattenAll<T>(xss: seq<seq<T>>, p: T -> bool)
    requires forall r, i :: 0 <= r < |xss| && 0 <= i < |xss[r]| ==> p(xss[r][i])
    ensures forall k :: 0 <= k < |Flatten(xss)| ==> p(Flatten(xss)[k])
  {
    if |xss| > 0 {
      FlattenAll(xss[..|xss| - 1], p);
    }
  }

  // ----- stored content and payload -----

  // One entry per block, row-major; the row's states one after another.
  datatype Content = Content(
    rows: nat, blocks: nat, symbols: seq<seq<nat>>, tags: seq<nat>, offsets: seq<nat>, codes: seq<nat>)

  datatype Payload = Payload(
    rows: nat, columns: nat, symbols: seq<nat>, selectors: seq<nat>, base: int, scales: seq<nat>, palettes: seq<nat>)

  datatype Decoded = Decoded(packed: seq<nat>, scales: seq<nat>, tags: seq<nat>)

  function SymbolBits(scheme: Scheme): nat {
    match Alphabet(scheme)
    case 2 => 1
    case 4 => 2
    case _ => 3
  }

  // Bits of a tag the symbols carry.
  function ImplicitBits(scheme: Scheme): nat { if Tags(scheme) == 4 then 2 else 1 }

  // One more bit of the tag is stored beside the symbols, except by XOR-SQ.
  predicate Explicit(f: Format) { f.tags == 2 * Tags(f.scheme) }

  // Palette codes of four states with two-bit symbols are two nibbles a byte.
  predicate NibblePalettes(f: Format) { f.tags == 4 && Alphabet(f.scheme) == 4 }

  predicate CatalogOk(f: Format) {
    && (|f.catalog| == 16 || |f.catalog| == 32)
    && (NibblePalettes(f) ==> |f.catalog| == 16)
    && (f.scheme.Lanes? || f.scheme.LowBit8? ==> |f.catalog| == 32)
    && forall i, j :: 0 <= i < j < |f.catalog| ==> f.catalog[i] != f.catalog[j]
  }

  function PaletteBits(catalog: seq<nat>): nat { if |catalog| == 16 then 4 else 5 }

  predicate SymbolBlock(scheme: Scheme, symbols: seq<nat>) {
    |symbols| == BLOCK && forall i :: 0 <= i < BLOCK ==> symbols[i] < Alphabet(scheme)
  }

  predicate ContentOk(f: Format, c: Content) {
    && FormatOk(f) && c.rows > 0 && c.blocks > 0
    && |c.symbols| == |c.tags| == c.rows * c.blocks
    && |c.offsets| == |c.codes| == c.rows * f.tags
    && (forall j :: 0 <= j < |c.symbols| ==> SymbolBlock(f.scheme, c.symbols[j]))
    && (forall j :: 0 <= j < |c.tags| ==>
      c.tags[j] < f.tags && TagOf(f.scheme, c.symbols[j]) == LowTag(f.scheme, c.tags[j]))
    && (forall k :: 0 <= k < |c.offsets| ==> c.offsets[k] < OffsetLimit(f))
    && (forall k :: 0 <= k < |c.codes| ==> c.codes[k] < |f.catalog|)
  }

  function HighBit(scheme: Scheme, tag: nat): nat { Shr(tag, ImplicitBits(scheme)) }

  function PackSymbols(scheme: Scheme, symbols: seq<nat>): seq<nat> {
    if Alphabet(scheme) == 4 then TwoBitBytes(symbols) else PackBits(FieldsStream(symbols, SymbolBits(scheme)))
  }

  function HighBits(scheme: Scheme, tags: seq<nat>): (s: seq<bool>)
    ensures |s| == |tags|
    ensures forall j :: 0 <= j < |s| ==> s[j] == (HighBit(scheme, tags[j]) % 2 == 1)
  {
    seq(|tags|, j requires 0 <= j < |tags| => HighBit(scheme, tags[j]) % 2 == 1)
  }

  function PackScales(f: Format, offsets: seq<nat>): seq<nat> {
    if Relative(f) then PackBits(FieldsStream(offsets, 2)) else offsets
  }

  function PackPalettes(f: Format, codes: seq<nat>): seq<nat> {
    if NibblePalettes(f) then NibbleBytes(codes) else PackBits(FieldsStream(codes, PaletteBits(f.catalog)))
  }

  function Serialize(f: Format, c: Content, base: int): Payload
    requires FormatOk(f)
  {
    Payload(
      c.rows,
      c.blocks * BLOCK,
      PackSymbols(f.scheme, Flatten(c.symbols)),
      if Explicit(f) then PackBits(HighBits(f.scheme, c.tags)) else [],
      base,
      PackScales(f, c.offsets),
      PackPalettes(f, c.codes))
  }

  // ----- decoding -----

  function UnpackSymbols(scheme: Scheme, packed: seq<nat>, count: nat): seq<nat> {
    var bits := SymbolBits(scheme);
    if Alphabet(scheme) == 4 then UnpackTwoBit(packed) else Fields(UnpackBits(packed, count * bits), bits, count)
  }

  // 32 consecutive symbols
  function Chunk(symbols: seq<nat>, j: nat): (s: seq<nat>)
    requires (j + 1) * BLOCK <= |symbols|
    ensures |s| == BLOCK
  {
    symbols[j * BLOCK..j * BLOCK + BLOCK]
  }

  function BlockTag(scheme: Scheme, selector: bool, symbols: seq<nat>): nat {
    Or(Shl(if selector then 1 else 0, ImplicitBits(scheme)), TagOf(scheme, symbols))
  }

  // Whole blocks, and a scale base in range or as many scale bytes and palette nibbles as states.
  predicate PayloadOk(f: Format, p: Payload) {
    && p.columns % BLOCK == 0
    && (Relative(f) ==> 0 <= p.base <= 251)
    && (!Relative(f) ==> |p.scales| == p.rows * 4)
    && (NibblePalettes(f) ==> |p.palettes| == p.rows * 2)
  }

  function BaseOf(f: Format, p: Payload): nat
    requires PayloadOk(f, p)
  {
    if Relative(f) then p.base else 0
  }

  // Everything the decoder unpacks before it looks at a block.
  datatype Unpacked = Unpacked(symbols: seq<nat>, selectors: seq<bool>, offsets: seq<nat>, codes: seq<nat>)

  function UnpackSelectors(f: Format, packed: seq<nat>, count: nat): (s: seq<bool>)
    ensures |s| == count && (!Explicit(f) ==> forall j :: 0 <= j < count ==> !s[j])
  {
    if Explicit(f) then UnpackBits(packed, count) else seq(count, j => false)
  }

  function UnpackScales(f: Format, packed: seq<nat>, count: nat): seq<nat> {
    if Relative(f) then Fields(UnpackBits(packed, count * 2), 2, count) else packed
  }

  function UnpackPalettes(f: Format, packed: seq<nat>, count: nat): seq<nat> {
    if NibblePalettes(f) then UnpackNibbles(packed)
    else Fields(UnpackBits(packed, count * PaletteBits(f.catalog)), PaletteBits(f.catalog), count)
  }

  function Unpack(f: Format, p: Payload): Unpacked
    requires FormatOk(f)
  {
    Unpacked(
      UnpackSymbols(f.scheme, p.symbols, p.rows * p.columns),
      UnpackSelectors(f, p.selectors, p.rows * (p.columns / BLOCK)),
      UnpackScales(f, p.scales, p.rows * f.tags),
      UnpackPalettes(f, p.palettes, p.rows * f.tags))
  }

  lemma UnpackSerialize(f: Format, c: Content, base: int)
    requires ContentOk(f, c) && CatalogOk(f)
    ensures Unpack(f, Serialize(f, c, base)) ==
            Unpacked(Flatten(c.symbols), HighBits(f.scheme, c.tags), c.offsets, c.codes)
  {
    hide PackSymbols, UnpackSymbols, PackScales, UnpackScales, PackPalettes, UnpackPalettes, UnpackSelectors, Flatten,
      HighBits, PackBits, SymbolBlock, TagOf;
    UnpackSymbolsInverts(f, c);
    SelectorsInvert(f, c);
    ScalesInvert(f, c.offsets, c.rows * f.tags);
    PalettesInvert(f, c.codes, c.rows);
    BlockSizes(c.rows, c.blocks, c.rows * c.blocks);
  }

  lemma SelectorsInvert(f: Format, c: Content)
    requires ContentOk(f, c)
    ensures UnpackSelectors(f, if Explicit(f) then PackBits(HighBits(f.scheme, c.tags)) else [], c.rows * c.blocks)
         == HighBits(f.scheme, c.tags)
  {
    hide PackBits, UnpackBits, SymbolBlock, TagOf, Shr;
    if Explicit(f) {
      UnpackPackBits(HighBits(f.scheme, c.tags));
    } else {
      forall j | 0 <= j < |c.tags|
        ensures !HighBits(f.scheme, c.tags)[j]
      {
        NoHighBit(c.tags[j]);
      }
    }
  }

  lemma NoHighBit(tag: nat)
    requires tag < 4
    ensures Shr(tag, 2) == 0
  {
    ShrTwo(tag);
  }

  lemma ShrTwo(tag: nat)
    ensures Shr(tag, 2) == tag / 4 && Shr(tag, 1) == tag / 2
  {
    assert Shr(tag, 2) == Shr(tag / 2, 1) && Shr(tag, 1) == Shr(tag / 2, 0);
  }

  lemma ScalesInvert(f: Format, offsets: seq<nat>, count: nat)
    requires |offsets| == count && forall k :: 0 <= k < count ==> offsets[k] < OffsetLimit(f)
    ensures UnpackScales(f, PackScales(f, offsets), count) == offsets
  {
    hide PackBits, UnpackBits, FieldsStream, Fields, Pow2;
    PowersUsed();
    if Relative(f) {
      UnpackPackBits(FieldsStream(offsets, 2));
      FieldsOfStream(offsets, 2);
    }
  }

  lemma PalettesInvert(f: Format, codes: seq<nat>, rows: nat)
    requires FormatOk(f) && CatalogOk(f) && |codes| == rows * f.tags
    requires forall k :: 0 <= k < |codes| ==> codes[k] < |f.catalog|
    ensures UnpackPalettes(f, PackPalettes(f, codes), rows * f.tags) == codes
  {
    hide PackBits, UnpackBits, FieldsStream, Fields, NibbleBytes, UnpackNibbles, Pow2;
    PowersUsed();
    if NibblePalettes(f) {
      UnpackNibblesInverts(codes);
    } else {
      UnpackPackBits(FieldsStream(codes, PaletteBits(f.catalog)));
      FieldsOfStream(codes, PaletteBits(f.catalog));
    }
  }

  lemma PowersUsed()
    ensures Pow2(1) == 2 && Pow2(2) == 4 && Pow2(3) == 8 && Pow2(4) == 16 && Pow2(5) == 32
  {
  }

  lemma UnpackSymbolsInverts(f: Format, c: Content)
    requires ContentOk(f, c)
    ensures var flat := Flatten(c.symbols);
      && |flat| == c.rows * (c.blocks * BLOCK)
      && UnpackSymbols(f.scheme, PackSymbols(f.scheme, flat), c.rows * (c.blocks * BLOCK)) == flat
  {
    hide PackBits, UnpackBits, FieldsStream, Fields, TwoBitBytes, UnpackTwoBit, Flatten, Pow2, TagOf;
    var flat := Flatten(c.symbols);
    FlattenLength(c.symbols, BLOCK);
    BlockSizes(c.rows, c.blocks, c.rows * c.blocks);
    FlattenAll(c.symbols, x => x < Alphabet(f.scheme));
    PowersUsed();
    if Alphabet(f.scheme) == 4 {
      UnpackTwoBitInverts(flat);
    } else {
      UnpackPackBits(FieldsStream(flat, SymbolBits(f.scheme)));
      FieldsOfStream(flat, SymbolBits(f.scheme));
    }
  }

  // The array behind a payload has rows * columns symbols, and what looks like bytes is bytes.
  predicate Geometry(f: Format, p: Payload)
    requires FormatOk(f)
  {
    && (p.columns % BLOCK == 0 ==> |p.symbols| * 8 == p.rows * p.columns * SymbolBits(f.scheme))
    && Bytes(p.palettes)
  }

  predicate Usable(f: Format, u: Unpacked, rows: nat, blocks: nat) {
    && |u.symbols| == rows * blocks * BLOCK
    && |u.selectors| == rows * blocks
    && |u.offsets| == |u.codes| == rows * f.tags
    && (!Explicit(f) ==> forall j :: 0 <= j < |u.selectors| ==> !u.selectors[j])
    && (forall i :: 0 <= i < |u.symbols| ==> u.symbols[i] < Alphabet(f.scheme))
    && (forall k :: 0 <= k < |u.codes| ==> u.codes[k] < |f.catalog|)
  }

  // Any bytes at all unpack to in-range symbols and codes, so no lookup of the decoder can fail.
  lemma UnpackUsable(f: Format, p: Payload)
    requires FormatOk(f) && CatalogOk(f) && PayloadOk(f, p) && Geometry(f, p)
    ensures Usable(f, Unpack(f, p), p.rows, p.columns / BLOCK)
  {
    hide UnpackSymbols, UnpackPalettes, UnpackScales, UnpackSelectors;
    var blocks := p.columns / BLOCK;
    assert p.columns == blocks * BLOCK;
    BlockSizes(p.rows, blocks, p.rows * blocks);
    SymbolsUsable(f.scheme, p.symbols, p.rows * p.columns);
    ScalesUsable(f, p);
    PalettesUsable(f, p);
  }

  lemma SymbolsUsable(scheme: Scheme, packed: seq<nat>, count: nat)
    requires |packed| * 8 == count * SymbolBits(scheme)
    ensures var s := UnpackSymbols(scheme, packed, count);
      |s| == count && forall i :: 0 <= i < count ==> s[i] < Alphabet(scheme)
  {
    hide UnpackBits, TwoBitSymbol, FieldAt, Pow2;
    PowersUsed();
    var s := UnpackSymbols(scheme, packed, count);
    forall i | 0 <= i < |s|
      ensures s[i] < Alphabet(scheme)
    {
      if Alphabet(scheme) == 4 {
        TwoBitBelow(packed[i / 4], i % 4);
      } else {
        FieldBelow(UnpackBits(packed, count * SymbolBits(scheme)), SymbolBits(scheme), i);
      }
    }
  }

  lemma ScalesUsable(f: Format, p: Payload)
    requires FormatOk(f) && PayloadOk(f, p)
    ensures |UnpackScales(f, p.scales, p.rows * f.tags)| == p.rows * f.tags
  {
    hide UnpackBits, FieldAt;
  }

  lemma PalettesUsable(f: Format, p: Payload)
    requires FormatOk(f) && CatalogOk(f) && PayloadOk(f, p) && Bytes(p.palettes)
    ensures var codes := UnpackPalettes(f, p.palettes, p.rows * f.tags);
      |codes| == p.rows * f.tags && forall k :: 0 <= k < |codes| ==> codes[k] < |f.catalog|
  {
    hide UnpackBits, FieldAt, Pow2, Low, Shr;
    PowersUsed();
    var count, bits := p.rows * f.tags, PaletteBits(f.catalog);
    var codes := UnpackPalettes(f, p.palettes, count);
    forall k | 0 <= k < |codes|
      ensures codes[k] < |f.catalog|
    {
      if NibblePalettes(f) {
        NibbleBelow(p.palettes[k / 2]);
      } else {
        FieldBelow(UnpackBits(p.palettes, count * bits), bits, k);
      }
    }
  }

  lemma NibbleBelow(byte: nat)
    requires byte < 256
    ensures Low(byte, 4) < 16 && Shr(byte, 4) < 16
  {
    hide Low, Shr;
    PowersUsed();
    LowBelow(byte, 4);
    ShrFour(byte);
  }

  lemma TwoBitBelow(byte: nat, lane: nat)
    requires lane < 4
    ensures TwoBitSymbol(byte, lane) < 4
  {
    assert Pow2(2) == 4;
    LowBelow(Shr(byte, 2 * lane), 2);
  }

  lemma FieldBelow(s: seq<bool>, bits: nat, i: nat)
    ensures FieldAt(s, bits, i) < Pow2(bits)
  {
    if 0 <= i * bits && i * bits + bits <= |s| {
      BitsOfValue(s[i * bits..i * bits + bits]);
    }
  }

  lemma TagBelow(scheme: Scheme, selector: bool, symbols: seq<nat>)
    ensures BlockTag(scheme, selector, symbols) == (if selector then Tags(scheme) else 0) + TagOf(scheme, symbols)
    ensures TagOf(scheme, symbols) < Tags(scheme)
  {
    hide TagOf, Or, Shl, Pow2;
    var t, n := TagOf(scheme, symbols), ImplicitBits(scheme);
    var high := if selector then 1 else 0;
    TagInRange(scheme, symbols);
    PowersUsed();
    ShlOfBit(high);
    OrAdds(t, n, high);
    OrCommutes(t, Shl(high, n));
  }

  lemma ShlOfBit(high: nat)
    ensures Shl(high, 2) == 4 * high && Shl(high, 1) == 2 * high
  {
    assert Shl(high, 2) == 2 * Shl(high, 1) && Shl(high, 1) == 2 * Shl(high, 0);
  }

  lemma {:induction false} OrCommutes(a: nat, b: nat)
    ensures Or(a, b) == Or(b, a)
    decreases a + b
  {
    if a > 0 && b > 0 { OrCommutes(a / 2, b / 2); }
  }

  // What the decoder derives for one block: its tag, the scale and the nibbles of the state it names.
  datatype View = View(tag: nat, scale: nat, nibbles: seq<nat>)

  function BlockView(f: Format, u: Unpacked, base: nat, rows: nat, blocks: nat, r: nat, b: nat): (v: View)
    requires FormatOk(f) && Usable(f, u, rows, blocks) && r < rows && b < blocks
    ensures |v.nibbles| == BLOCK && Nibbles(v.nibbles)
  {
    Slot(r, rows, blocks);
    var j := r * blocks + b;
    var symbols := Chunk(u.symbols, j);
    TagBelow(f.scheme, u.selectors[j], symbols);
    var tag := BlockTag(f.scheme, u.selectors[j], symbols);
    Slot(r, rows, f.tags);
    var state := r * f.tags + tag;
    var palette := f.catalog[u.codes[state]];
    View(tag, (base + u.offsets[state]) % 256, Lookup(f.palettes[palette], symbols))
  }

  function RowViews(f: Format, u: Unpacked, base: nat, rows: nat, blocks: nat, r: nat): (vs: seq<View>)
    requires FormatOk(f) && Usable(f, u, rows, blocks) && r < rows
    ensures |vs| == blocks
    ensures forall b :: 0 <= b < |vs| ==> vs[b] == BlockView(f, u, base, rows, blocks, r, b)
  {
    seq(blocks, b requires 0 <= b < blocks => BlockView(f, u, base, rows, blocks, r, b))
  }

  function Views(f: Format, u: Unpacked, base: nat, rows: nat, blocks: nat): (vs: seq<seq<View>>)
    requires FormatOk(f) && Usable(f, u, rows, blocks)
    ensures |vs| == rows
    ensures forall r :: 0 <= r < |vs| ==> vs[r] == RowViews(f, u, base, rows, blocks, r)
  {
    seq(rows, r requires 0 <= r < rows => RowViews(f, u, base, rows, blocks, r))
  }

  function ViewTags(vs: seq<View>): (t: seq<nat>)
    ensures |t| == |vs| && forall j :: 0 <= j < |t| ==> t[j] == vs[j].tag
  {
    seq(|vs|, j requires 0 <= j < |vs| => vs[j].tag)
  }

  function Scales(vs: seq<View>): (t: seq<nat>)
    ensures |t| == |vs| && forall j :: 0 <= j < |t| ==> t[j] == vs[j].scale
  {
    seq(|vs|, j requires 0 <= j < |vs| => vs[j].scale)
  }

  function NibbleRows(vs: seq<View>): (t: seq<seq<nat>>)
    ensures |t| == |vs| && forall j :: 0 <= j < |t| ==> t[j] == vs[j].nibbles
  {
    seq(|vs|, j requires 0 <= j < |vs| => vs[j].nibbles)
  }

  function TagTable(vss: seq<seq<View>>): (t: seq<seq<nat>>)
    ensures |t| == |vss| && forall r :: 0 <= r < |t| ==> t[r] == ViewTags(vss[r])
  {
    seq(|vss|, r requires 0 <= r < |vss| => ViewTags(vss[r]))
  }

  function ScaleTable(vss: seq<seq<View>>): (t: seq<seq<nat>>)
    ensures |t| == |vss| && forall r :: 0 <= r < |t| ==> t[r] == Scales(vss[r])
  {
    seq(|vss|, r requires 0 <= r < |vss| => Scales(vss[r]))
  }

  function NibbleTable(vss: seq<seq<View>>): (t: seq<seq<seq<nat>>>)
    ensures |t| == |vss| && forall r :: 0 <= r < |t| ==> t[r] == NibbleRows(vss[r])
  {
    seq(|vss|, r requires 0 <= r < |vss| => NibbleRows(vss[r]))
  }

  // Two nibbles per byte, low nibble first.
  function PackOutput(nibbles: seq<seq<seq<nat>>>): seq<nat> {
    NibbleBytes(Flatten(Flatten(nibbles)))
  }

  function Decode(f: Format, p: Payload): (d: Option<Decoded>)
    requires FormatOk(f) && Geometry(f, p)
    ensures d.Some? <==> PayloadOk(f, p) && CatalogOk(f)
  {
    if !PayloadOk(f, p) || !CatalogOk(f) then None
    else
      UnpackUsable(f, p);
      var vss := Views(f, Unpack(f, p), BaseOf(f, p), p.rows, p.columns / BLOCK);
      Some(Decoded(PackOutput(NibbleTable(vss)), Flatten(ScaleTable(vss)), Flatten(TagTable(vss))))
  }

  // ----- encoding a matrix -----

  // The dictionary from palette id to catalog index; a later duplicate would win.
  function CatalogIndex(catalog: seq<nat>, id: nat): (k: nat)
    requires id in catalog
    ensures k < |catalog| && catalog[k] == id
  {
    var n := |catalog| - 1;
    if catalog[n] == id then n else
      assert catalog == catalog[..n] + [catalog[n]];
      CatalogIndex(catalog[..n], id)
  }

  predicate MatrixOk(f: Format, base: nat, blocks: nat, rows: seq<Row>, sols: seq<Solution>) {
    && FormatOk(f) && CatalogOk(f) && base <= (if Relative(f) then 251 else 0)
    && |rows| == |sols| > 0 && blocks > 0
    && forall r :: 0 <= r < |rows| ==> RowOk(rows[r]) && |rows[r].nibbles| == blocks && SolutionOk(f, rows[r], sols[r])
  }

  ghost predicate AllStored(f: Format, base: nat, blocks: nat, rows: seq<Row>, sols: seq<Solution>, stored: seq<Stored>)
    requires MatrixOk(f, base, blocks, rows, sols)
  {
    && |stored| == |rows|
    && forall r :: 0 <= r < |rows| ==> RowStored(f, rows[r], base, sols[r], stored[r])
  }

  function Codes(f: Format, sol: Solution): (c: seq<nat>)
    requires |sol.palettes| == f.tags && forall t :: 0 <= t < f.tags ==> sol.palettes[t] in f.catalog
    ensures |c| == f.tags
    ensures forall t :: 0 <= t < f.tags ==> c[t] < |f.catalog| && f.catalog[c[t]] == sol.palettes[t]
  {
    seq(f.tags, t requires 0 <= t < f.tags => CatalogIndex(f.catalog, sol.palettes[t]))
  }

  function CodeTable(f: Format, base: nat, blocks: nat, rows: seq<Row>, sols: seq<Solution>): (c: seq<seq<nat>>)
    requires MatrixOk(f, base, blocks, rows, sols)
    ensures |c| == |sols| && forall r :: 0 <= r < |c| ==> c[r] == Codes(f, sols[r])
  {
    seq(|sols|, r requires 0 <= r < |sols| => Codes(f, sols[r]))
  }

  function OffsetTable(sols: seq<Solution>): (c: seq<seq<nat>>)
    ensures |c| == |sols| && forall r :: 0 <= r < |c| ==> c[r] == sols[r].offsets
  {
    seq(|sols|, r requires 0 <= r < |sols| => sols[r].offsets)
  }

  function SolutionTags(sols: seq<Solution>): (c: seq<seq<nat>>)
    ensures |c| == |sols| && forall r :: 0 <= r < |c| ==> c[r] == sols[r].tags
  {
    seq(|sols|, r requires 0 <= r < |sols| => sols[r].tags)
  }

  function StoredSymbols(stored: seq<Stored>): (c: seq<seq<seq<nat>>>)
    ensures |c| == |stored| && forall r :: 0 <= r < |c| ==> c[r] == stored[r].symbols
  {
    seq(|stored|, r requires 0 <= r < |stored| => stored[r].symbols)
  }

  function StoredNibbles(stored: seq<Stored>): (c: seq<seq<seq<nat>>>)
    ensures |c| == |stored| && forall r :: 0 <= r < |c| ==> c[r] == stored[r].nibbles
  {
    seq(|stored|, r requires 0 <= r < |stored| => stored[r].nibbles)
  }

  function StoredScales(stored: seq<Stored>): (c: seq<seq<nat>>)
    ensures |c| == |stored| && forall r :: 0 <= r < |c| ==> c[r] == stored[r].scales
  {
    seq(|stored|, r requires 0 <= r < |stored| => stored[r].scales)
  }

  function ContentOf(f: Format, base: nat, blocks: nat, rows: seq<Row>, sols: seq<Solution>,
      stored: seq<Stored>): Content
    requires MatrixOk(f, base, blocks, rows, sols)
  {
    Content(|rows|, blocks, Flatten(StoredSymbols(stored)), Flatten(SolutionTags(sols)),
            Flatten(OffsetTable(sols)), Flatten(CodeTable(f, base, blocks, rows, sols)))
  }

  // What the encoder itself believes the output is.
  function Written(sols: seq<Solution>, stored: seq<Stored>): Decoded {
    Decoded(PackOutput(StoredNibbles(stored)), Flatten(StoredScales(stored)), Flatten(SolutionTags(sols)))
  }

  lemma BlockFacts(f: Format, row: Row, base: nat, sol: Solution, stored: Stored, b: nat)
    requires FormatOk(f) && RowOk(row) && SolutionOk(f, row, sol) && RowStored(f, row, base, sol, stored)
    requires b < |row.nibbles|
    ensures SymbolBlock(f.scheme, stored.symbols[b])
    ensures TagOf(f.scheme, stored.symbols[b]) == LowTag(f.scheme, sol.tags[b])
    ensures stored.nibbles[b] == Lookup(f.palettes[sol.palettes[sol.tags[b]]], stored.symbols[b])
    ensures stored.scales[b] == base + sol.offsets[sol.tags[b]]
  {
    hide TagOf, Lookup, BlockCosts;
    assert BlockStored(f, row, base, sol, b, stored.symbols[b], stored.nibbles[b], stored.scales[b]);
    assert |BlockCosts(f, row, base, sol, b)| == BLOCK by {
      CostsSize(f, row, base, sol, b);
    }
  }

  lemma CostsSize(f: Format, row: Row, base: nat, sol: Solution, b: nat)
    requires FormatOk(f) && RowOk(row) && SolutionOk(f, row, sol) && b < |row.nibbles|
    ensures |BlockCosts(f, row, base, sol, b)| == BLOCK
  {
  }

  lemma RowWidths(f: Format, base: nat, blocks: nat, rows: seq<Row>, sols: seq<Solution>, stored: seq<Stored>)
    requires MatrixOk(f, base, blocks, rows, sols) && AllStored(f, base, blocks, rows, sols, stored)
    ensures Width(StoredSymbols(stored), blocks) && Width(SolutionTags(sols), blocks)
    ensures Width(OffsetTable(sols), f.tags) && Width(CodeTable(f, base, blocks, rows, sols), f.tags)
  {
  }

  lemma ContentIsOk(f: Format, base: nat, blocks: nat, rows: seq<Row>, sols: seq<Solution>, stored: seq<Stored>)
    requires MatrixOk(f, base, blocks, rows, sols) && AllStored(f, base, blocks, rows, sols, stored)
    ensures ContentOk(f, ContentOf(f, base, blocks, rows, sols, stored))
  {
    hide TagOf, Flatten, RowStored;
    var c := ContentOf(f, base, blocks, rows, sols, stored);
    RowWidths(f, base, blocks, rows, sols, stored);
    FlattenLength(StoredSymbols(stored), blocks);
    FlattenLength(SolutionTags(sols), blocks);
    FlattenLength(OffsetTable(sols), f.tags);
    FlattenLength(CodeTable(f, base, blocks, rows, sols), f.tags);
    FlattenAll(OffsetTable(sols), x => x < OffsetLimit(f));
    FlattenAll(CodeTable(f, base, blocks, rows, sols), x => x < |f.catalog|);
    forall j | 0 <= j < |c.symbols|
      ensures SymbolBlock(f.scheme, c.symbols[j])
      ensures c.tags[j] < f.tags && TagOf(f.scheme, c.symbols[j]) == LowTag(f.scheme, c.tags[j])
    {
      var r, b := SplitBlock(j, |rows|, blocks);
      FlattenAt(StoredSymbols(stored), blocks, r, b);
      FlattenAt(SolutionTags(sols), blocks, r, b);
      BlockFacts(f, rows[r], base, sols[r], stored[r], b);
    }
  }

  lemma SplitBlock(j: nat, rows: nat, blocks: nat) returns (r: nat, b: nat)
    requires j < rows * blocks
    ensures r < rows && b < blocks && j == r * blocks + b
  {
    if rows == 1 {
      r, b := 0, j;
    } else if j < (rows - 1) * blocks {
      r, b := SplitBlock(j, rows - 1, blocks);
    } else {
      r, b := rows - 1, j - (rows - 1) * blocks;
    }
  }

  // The decoder's view of a stored block is what the encoder wrote for it.
  lemma ViewIsStored(f: Format, base: nat, blocks: nat, rows: seq<Row>, sols: seq<Solution>, stored: seq<Stored>,
                     u: Unpacked, r: nat, b: nat)
    requires MatrixOk(f, base, blocks, rows, sols) && AllStored(f, base, blocks, rows, sols, stored)
    requires r < |rows| && b < blocks && Usable(f, u, |rows|, blocks)
    requires var c := ContentOf(f, base, blocks, rows, sols, stored);
      u == Unpacked(Flatten(c.symbols), HighBits(f.scheme, c.tags), c.offsets, c.codes)
    ensures BlockView(f, u, base, |rows|, blocks, r, b)
      == View(sols[r].tags[b], stored[r].scales[b], stored[r].nibbles[b])
  {
    hide TagOf, Flatten, RowStored, Or, Shl, Shr, Lookup;
    var c := ContentOf(f, base, blocks, rows, sols, stored);
    ContentIsOk(f, base, blocks, rows, sols, stored);
    RowWidths(f, base, blocks, rows, sols, stored);
    Slot(r, |rows|, blocks);
    var j := r * blocks + b;
    var tag := sols[r].tags[b];
    FlattenAt(StoredSymbols(stored), blocks, r, b);
    FlattenAt(SolutionTags(sols), blocks, r, b);
    BlockFacts(f, rows[r], base, sols[r], stored[r], b);
    FlattenSlice(c.symbols, BLOCK, j);
    assert Chunk(u.symbols, j) == stored[r].symbols[b];
    TagRestored(f, tag, stored[r].symbols[b]);
    FlattenAt(OffsetTable(sols), f.tags, r, tag);
    FlattenAt(CodeTable(f, base, blocks, rows, sols), f.tags, r, tag);
  }

  lemma TagRestored(f: Format, tag: nat, symbols: seq<nat>)
    requires FormatOk(f) && tag < f.tags && TagOf(f.scheme, symbols) == LowTag(f.scheme, tag)
    ensures BlockTag(f.scheme, HighBit(f.scheme, tag) % 2 == 1, symbols) == tag
  {
    hide TagOf, Or, Shl, Shr;
    TagBelow(f.scheme, HighBit(f.scheme, tag) % 2 == 1, symbols);
    ShrTwo(tag);
  }

  // Decoding the physical payload gives back the encoder's nibbles, scales and tags, so none of
  // the encoder's "physical payload changed" checks can fail.
  lemma PhysicalRoundTrip(f: Format, base: nat, blocks: nat, rows: seq<Row>, sols: seq<Solution>, stored: seq<Stored>)
    requires MatrixOk(f, base, blocks, rows, sols) && AllStored(f, base, blocks, rows, sols, stored)
    ensures var p := Serialize(f, ContentOf(f, base, blocks, rows, sols, stored), base);
      Geometry(f, p) && Decode(f, p) == Some(Written(sols, stored))
  {
    hide Flatten, RowStored, PackOutput, Unpack, RowViews, Geometry, PackSymbols, PackScales, PackPalettes, PackBits,
      HighBits, TagOf;
    var c := ContentOf(f, base, blocks, rows, sols, stored);
    var p := Serialize(f, c, base);
    ContentIsOk(f, base, blocks, rows, sols, stored);
    GeometryOfSerialized(f, c, base);
    UnpackSerialize(f, c, base);
    UnpackUsable(f, p);
    var u := Unpack(f, p);
    var vss := Views(f, u, base, |rows|, blocks);
    forall r | 0 <= r < |rows|
      ensures NibbleRows(vss[r]) == stored[r].nibbles && Scales(vss[r]) == stored[r].scales
      ensures ViewTags(vss[r]) == sols[r].tags
    {
      RowIsStored(f, base, blocks, rows, sols, stored, u, r);
    }
    assert NibbleTable(vss) == StoredNibbles(stored);
    assert ScaleTable(vss) == StoredScales(stored);
    assert TagTable(vss) == SolutionTags(sols);
  }

  lemma RowIsStored(f: Format, base: nat, blocks: nat, rows: seq<Row>, sols: seq<Solution>, stored: seq<Stored>,
                    u: Unpacked, r: nat)
    requires MatrixOk(f, base, blocks, rows, sols) && AllStored(f, base, blocks, rows, sols, stored)
    requires r < |rows| && Usable(f, u, |rows|, blocks)
    requires var c := ContentOf(f, base, blocks, rows, sols, stored);
      u == Unpacked(Flatten(c.symbols), HighBits(f.scheme, c.tags), c.offsets, c.codes)
    ensures var vs := RowViews(f, u, base, |rows|, blocks, r);
      NibbleRows(vs) == stored[r].nibbles && Scales(vs) == stored[r].scales && ViewTags(vs) == sols[r].tags
  {
    hide Flatten, RowStored, BlockView, ContentOf, Usable, FormatOk, HighBits, TagOf;
    RowShape(f, base, blocks, rows, sols, stored, r);
    StoredWidth(f, rows[r], base, sols[r], stored[r]);
    var vs := RowViews(f, u, base, |rows|, blocks, r);
    forall b | 0 <= b < blocks
      ensures vs[b] == View(sols[r].tags[b], stored[r].scales[b], stored[r].nibbles[b])
    {
      ViewIsStored(f, base, blocks, rows, sols, stored, u, r, b);
    }
  }

  lemma RowShape(f: Format, base: nat, blocks: nat, rows: seq<Row>, sols: seq<Solution>, stored: seq<Stored>, r: nat)
    requires MatrixOk(f, base, blocks, rows, sols) && AllStored(f, base, blocks, rows, sols, stored) && r < |rows|
    ensures FormatOk(f) && RowOk(rows[r]) && |rows[r].nibbles| == blocks && SolutionOk(f, rows[r], sols[r])
    ensures |stored| == |rows| == |sols| && RowStored(f, rows[r], base, sols[r], stored[r])
  {
    hide RowStored, FormatOk, RowOk, SolutionOk;
  }

  lemma StoredWidth(f: Format, row: Row, base: nat, sol: Solution, stored: Stored)
    requires FormatOk(f) && RowOk(row) && SolutionOk(f, row, sol) && RowStored(f, row, base, sol, stored)
    ensures |stored.nibbles| == |stored.scales| == |sol.tags| == |row.nibbles|
  {
  }

  lemma GeometryOfSerialized(f: Format, c: Content, base: int)
    requires ContentOk(f, c) && CatalogOk(f)
    ensures Geometry(f, Serialize(f, c, base))
    ensures PayloadOk(f, Serialize(f, c, base)) <==> (Relative(f) ==> 0 <= base <= 251)
    ensures Serialize(f, c, base).columns / BLOCK == c.blocks
  {
    hide Flatten, TagOf, PackSymbols, PackScales, PackPalettes, PackBits, HighBits;
    FlattenLength(c.symbols, BLOCK);
    BlockSizes(c.rows, c.blocks, c.rows * c.blocks);
    SymbolBytes(f.scheme, Flatten(c.symbols), c.rows * c.blocks);
    StateBytes(f, c);
  }

  lemma StateBytes(f: Format, c: Content)
    requires ContentOk(f, c) && CatalogOk(f)
    ensures !Relative(f) ==> |PackScales(f, c.offsets)| == c.rows * 4
    ensures NibblePalettes(f) ==> |PackPalettes(f, c.codes)| == c.rows * 2
    ensures Bytes(PackPalettes(f, c.codes))
  {
    hide FieldsStream, PackBits, NibbleByte, Pow2, TagOf, SymbolBlock;
    PowersUsed();
    if NibblePalettes(f) {
      NibblePacks(c.codes);
    } else {
      PackBitsBytes(FieldsStream(c.codes, PaletteBits(f.catalog)));
    }
  }

  lemma BlockSizes(rows: nat, blocks: nat, m: nat)
    requires m == rows * blocks
    ensures rows * (blocks * BLOCK) == m * BLOCK
    ensures (blocks * BLOCK) % BLOCK == 0 && (blocks * BLOCK) / BLOCK == blocks
  {
  }

  lemma SymbolBytes(scheme: Scheme, symbols: seq<nat>, m: nat)
    requires |symbols| == m * BLOCK
    ensures |PackSymbols(scheme, symbols)| * 8 == m * BLOCK * SymbolBits(scheme)
  {
    hide FieldsStream, PackBits, TwoBitByte;
    var bits := SymbolBits(scheme);
    assert |symbols| == 32 * m;
    if Alphabet(scheme) == 4 {
      QuarterOf(8 * m);
    } else {
      EighthOf(if bits == 1 then 4 * m else 12 * m);
    }
  }

  lemma QuarterOf(n: nat)
    ensures (4 * n) / 4 == n
  {
  }

  lemma EighthOf(n: nat)
    ensures (8 * n + 7) / 8 == n
  {
  }

  // ----- the error that is physically stored -----

  // The cost of a stored block is the squared error of the weights its nibbles and scale decode to.
  lemma StoredError(f: Format, row: Row, base: nat, sol: Solution, stored: Stored, b: nat)
    requires FormatOk(f) && RowOk(row) && SolutionOk(f, row, sol) && RowStored(f, row, base, sol, stored)
    requires b < |row.nibbles|
    ensures |stored.nibbles[b]| == BLOCK && Nibbles(stored.nibbles[b])
    ensures Carries(f.scheme, BlockCosts(f, row, base, sol, b), LowTag(f.scheme, sol.tags[b]), stored.symbols[b])
    ensures Cost(f.scheme, BlockCosts(f, row, base, sol, b), stored.symbols[b])
         == Sse(Weights(row.nibbles[b], row.scales[b]), Weights(stored.nibbles[b], stored.scales[b]))
  {
    hide TagOf, Weights, Sum, Carries, Cost, BlockCosts;
    BlockFacts(f, row, base, sol, stored, b);
    StoredCarries(f, row, base, sol, b, stored.symbols[b], stored.nibbles[b], stored.scales[b]);
    var t := sol.tags[b];
    var palette := f.palettes[sol.palettes[t]];
    LookupCost(f.scheme, Targets(row)[b], palette, base + sol.offsets[t], stored.symbols[b]);
    BlockCostsAre(f, row, base, sol, b);
  }

  lemma BlockCostsAre(f: Format, row: Row, base: nat, sol: Solution, b: nat)
    requires FormatOk(f) && RowOk(row) && SolutionOk(f, row, sol) && b < |row.nibbles|
    ensures var t := sol.tags[b];
      BlockCosts(f, row, base, sol, b)
        == Costs(Targets(row)[b], Weights(f.palettes[sol.palettes[t]], base + sol.offsets[t]))
  {
  }

  // Picking costs of symbols is squared distance to the weights the symbols expand to.
  lemma LookupCost(scheme: Scheme, target: seq<real>, palette: seq<nat>, raw: nat, symbols: seq<nat>)
    requires |target| == |symbols| == BLOCK && |palette| == Alphabet(scheme) && Nibbles(palette)
    requires SymbolBlock(scheme, symbols)
    ensures var costs := Costs(target, Weights(palette, raw));
      && Fits(scheme, costs, symbols)
      && Nibbles(Lookup(palette, symbols))
      && Cost(scheme, costs, symbols) == Sse(target, Weights(Lookup(palette, symbols), raw))
  {
    hide Sum, NibbleValue, Exp2;
    var levels := Weights(palette, raw);
    var costs := Costs(target, levels);
    var decoded := Weights(Lookup(palette, symbols), raw);
    forall i | 0 <= i < BLOCK
      ensures Picked(scheme, costs, symbols)[i] == Distances(target, decoded)[i]
    {
      assert decoded[i] == levels[symbols[i]];
      assert costs[i][symbols[i]] == Square(target[i] - levels[symbols[i]]);
    }
    assert Picked(scheme, costs, symbols) == Distances(target, decoded);
  }

  function BlockSse(row: Row, stored: Stored): (xs: seq<real>)
    requires RowOk(row) && |stored.nibbles| == |stored.scales| == |row.nibbles|
    requires forall b :: 0 <= b < |stored.nibbles| ==> |stored.nibbles[b]| == BLOCK && Nibbles(stored.nibbles[b])
    ensures |xs| == |row.nibbles|
    ensures forall b :: 0 <= b < |xs| ==>
      xs[b] == Sse(Weights(row.nibbles[b], row.scales[b]), Weights(stored.nibbles[b], stored.scales[b]))
  {
    seq(|row.nibbles|, b requires 0 <= b < |row.nibbles| =>
      Sse(Weights(row.nibbles[b], row.scales[b]), Weights(stored.nibbles[b], stored.scales[b])))
  }

  // A searched row error is exactly the squared error of the decoded row.
  lemma SearchedIsPhysical(f: Format, row: Row, base: nat, sol: Solution, searched: seq<real>, stored: Stored,
      written: seq<real>)
    requires FormatOk(f) && RowOk(row) && SolutionOk(f, row, sol) && RowStored(f, row, base, sol, stored)
    requires BlockOptimal(f, row, base, sol, searched) && sol.error == Sum(searched)
    requires BlockOptimal(f, row, base, sol, written)
    requires forall b :: 0 <= b < |written| ==>
      written[b] == Cost(f.scheme, BlockCosts(f, row, base, sol, b), stored.symbols[b])
    ensures forall b :: 0 <= b < |stored.nibbles| ==> |stored.nibbles[b]| == BLOCK && Nibbles(stored.nibbles[b])
    ensures sol.error == Sum(BlockSse(row, stored))
  {
    hide Cost, BlockCosts, ConstrainedMin, Sum, Weights, Sse;
    BlockOptimalUnique(f, row, base, sol, searched, written);
    forall b | 0 <= b < |row.nibbles|
      ensures |stored.nibbles[b]| == BLOCK && Nibbles(stored.nibbles[b])
      ensures written[b] == Sse(Weights(row.nibbles[b], row.scales[b]), Weights(stored.nibbles[b], stored.scales[b]))
    {
      StoredError(f, row, base, sol, stored, b);
    }
    assert BlockSse(row, stored) == written;
  }

  // ----- the encoder -----

  // Materialise every row, pack, decode the payload again and compare.  `searched` holds, per row,
  // the block errors the search proved optimal.
  method EncodeMatrix(f: Format, base: nat, blocks: nat, rows: seq<Row>, sols: seq<Solution>,
      ghost searched: seq<seq<real>>)
      returns (payload: Payload, written: Decoded, raised: bool, ghost stored: seq<Stored>)
    requires MatrixOk(f, base, blocks, rows, sols)
    requires |searched| == |rows|
    requires forall r :: 0 <= r < |rows| ==>
      BlockOptimal(f, rows[r], base, sols[r], searched[r]) && sols[r].error == Sum(searched[r])
    ensures !raised
    ensures AllStored(f, base, blocks, rows, sols, stored) && written == Written(sols, stored)
    ensures Geometry(f, payload) && Decode(f, payload) == Some(written)
    ensures forall r :: 0 <= r < |rows| ==>
      && (forall b :: 0 <= b < |stored[r].nibbles| ==> |stored[r].nibbles[b]| == BLOCK && Nibbles(stored[r].nibbles[b]))
      && sols[r].error == Sum(BlockSse(rows[r], stored[r]))
  {
    hide BlockOptimal, RowStored, Decode, Written, ContentOf, Serialize, BlockSse, Sum, RowOk;
    var done: seq<Stored> := [];
    raised := false;
    for r := 0 to |rows|
      invariant |done| == r && !raised
      invariant forall q :: 0 <= q < r ==> RowStored(f, rows[q], base, sols[q], done[q])
      invariant forall q :: 0 <= q < r ==> Exact(rows[q], sols[q], done[q])
    {
      var one, measured, failed;
      ghost var errors;
      one, measured, failed, errors := MaterializeRow(f, rows[r], base, sols[r]);
      ExactRow(f, rows[r], base, sols[r], searched[r], one, errors);
      if failed || measured != sols[r].error {
        raised := true;
      }
      done := done + [one];
    }
    stored := done;
    written := Written(sols, done);
    payload := Serialize(f, ContentOf(f, base, blocks, rows, sols, done), base);
    PhysicalRoundTrip(f, base, blocks, rows, sols, done);
    var decoded := Decode(f, payload);
    if decoded != Some(written) {
      raised := true;
    }
  }

  ghost predicate Exact(row: Row, sol: Solution, stored: Stored) {
    && RowOk(row) && |stored.nibbles| == |stored.scales| == |row.nibbles|
    && (forall b :: 0 <= b < |stored.nibbles| ==> |stored.nibbles[b]| == BLOCK && Nibbles(stored.nibbles[b]))
    && sol.error == Sum(BlockSse(row, stored))
  }

  lemma ExactRow(f: Format, row: Row, base: nat, sol: Solution, searched: seq<real>, stored: Stored, written: seq<real>)
    requires FormatOk(f) && RowOk(row) && SolutionOk(f, row, sol) && RowStored(f, row, base, sol, stored)
    requires BlockOptimal(f, row, base, sol, searched) && sol.error == Sum(searched)
    requires BlockOptimal(f, row, base, sol, written)
    requires forall b :: 0 <= b < |written| ==>
      written[b] == Cost(f.scheme, BlockCosts(f, row, base, sol, b), stored.symbols[b])
    ensures Exact(row, sol, stored)
    ensures Sum(written) == sol.error
  {
    hide Cost, BlockCosts, ConstrainedMin, Sum, Weights, Sse, BlockSse;
    SearchedIsPhysical(f, row, base, sol, searched, stored, written);
    SearchMeetsMaterialize(f, row, base, sol, searched, written);
    StoredWidth(f, row, base, sol, stored);
  }
}
