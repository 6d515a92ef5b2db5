/**
 * The Space Image Format of src/y2019/day08.rs: a flat list of pixel colours cut into
 * layers of width * height pixels, merged by letting the first non-transparent layer win.
 */
module Day08Image {

  datatype Color = Black | White | Transparent

  datatype Option<T> = None | Some(value: T)

  /** `Color::from_char`: the digits 0, 1 and 2; anything else is no colour. */
  function FromChar(c: char): (r: Option<Color>)
    ensures r.Some? <==> c in "012"
  {
    match c
    case '0' => Some(Black)
    case '1' => Some(White)
    case '2' => Some(Transparent)
    case _ => None
  }

  /** The digit a colour is written with in the input. */
  function Digit(color: Color): char
  {
    match color
    case Black => '0'
    case White => '1'
    case Transparent => '2'
  }

  /** Reading a colour's digit gives the colour back, and every digit read is a colour's digit. */
  lemma FromCharRoundTrip(color: Color, c: char)
    ensures FromChar(Digit(color)) == Some(color)
    ensures FromChar(c) == Some(color) ==> c == Digit(color)
  {
  }

  /** `Color::to_pretty_char`: blank, a filled square and an underscore, all different. */
  function PrettyChar(color: Color): (r: char)
    ensures r == ' ' <==> color == Black
    ensures r == '\U{25A0}' <==> color == White
    ensures r == '_' <==> color == Transparent
  {
    match color
    case Black => ' '
    case White => '\U{25A0}'
    case Transparent => '_'
  }

  /** `number_of`: how many elements equal target; never more than there are elements. */
  function NumberOf(target: Color, xs: seq<Color>): (r: nat)
    ensures r <= |xs|
  {
    if |xs| == 0 then 0
    else (if xs[0] == target then 1 else 0) + NumberOf(target, xs[1..])
  }

  /** The count is the target's multiplicity in the slice. */
  lemma {:induction false} NumberOfMultiplicity(target: Color, xs: seq<Color>)
    ensures NumberOf(target, xs) == multiset(xs)[target]
  {
    if |xs| > 0 {
      NumberOfMultiplicity(target, xs[1..]);
      assert xs == [xs[0]] + xs[1..];
    }
  }

  /** The three colours' counts make up the whole slice. */
  lemma {:induction false} NumberOfPartition(xs: seq<Color>)
    ensures NumberOf(Black, xs) + NumberOf(White, xs) + NumberOf(Transparent, xs) == |xs|
  {
    if |xs| > 0 {
      NumberOfPartition(xs[1..]);
    }
  }

  /** Where layer k starts and ends in the pixel list. */
  function Start(k: nat, len: nat): nat
  {
    k * len
  }

  function End(k: nat, len: nat): nat
  {
    (k + 1) * len
  }

  /** Each of the |pixels| / len layers lies inside the pixel list and holds len pixels. */
  lemma LayerBounds(n: nat, len: nat)
    requires len > 0 && n % len == 0
    ensures forall k | 0 <= k < n / len :: Start(k, len) <= End(k, len) <= n && End(k, len) - Start(k, len) == len
  {
    forall k | 0 <= k < n / len ensures Start(k, len) <= End(k, len) <= n && End(k, len) - Start(k, len) == len {
      assert (k + 1) * len <= (n / len) * len;
    }
  }

  /** The layers: consecutive slices of len pixels. */
  function Layers(pixels: seq<Color>, len: nat): (r: seq<seq<Color>>)
    requires len > 0 && |pixels| % len == 0
    ensures |r| == |pixels| / len
    ensures forall k | 0 <= k < |r| :: |r[k]| == len
    ensures forall k | 0 <= k < |r| :: Start(k, len) <= End(k, len) <= |pixels| && r[k] == pixels[Start(k, len)..End(k, len)]
  {
    LayerBounds(|pixels|, len);
    seq(|pixels| / len, k requires 0 <= k < |pixels| / len => pixels[Start(k, len)..End(k, len)])
  }

  /** Every layer covers index i. */
  ghost predicate Covers(layers: seq<seq<Color>>, i: nat)
  {
    forall k | 0 <= k < |layers| :: i < |layers[k]|
  }

  /**
   * The `fold` in `pixel_color`: the colour so far stays unless it is Transparent, in which
   * case the next layer's pixel replaces it.
   */
  function Fold(current: Color, layers: seq<seq<Color>>, i: nat): Color
    requires Covers(layers, i)
    decreases |layers|
  {
    if |layers| == 0 then current
    else Fold(if current == Transparent then layers[0][i] else current, layers[1..], i)
  }

  /** `pixel_color`: the fold starting from Transparent. */
  function PixelColor(layers: seq<seq<Color>>, i: nat): Color
    requires Covers(layers, i)
  {
    Fold(Transparent, layers, i)
  }

  /** Index of the first layer whose pixel i is not Transparent, or the number of layers. */
  function FirstOpaque(layers: seq<seq<Color>>, i: nat): (k: nat)
    requires Covers(layers, i)
    ensures k <= |layers|
    ensures forall j | 0 <= j < k :: layers[j][i] == Transparent
    ensures k < |layers| ==> layers[k][i] != Transparent
  {
    if |layers| == 0 then 0
    else if layers[0][i] != Transparent then 0
    else 1 + FirstOpaque(layers[1..], i)
  }

  /** A non-transparent colour survives the fold. */
  lemma {:induction false} FoldKeeps(current: Color, layers: seq<seq<Color>>, i: nat)
    requires Covers(layers, i) && current != Transparent
    ensures Fold(current, layers, i) == current
  {
    if |layers| > 0 {
      FoldKeeps(current, layers[1..], i);
    }
  }

  /**
   * The pixel is the colour of the first layer where it is not Transparent, and Transparent
   * when it is transparent in every layer.
   */
  lemma {:induction false} PixelColorFirstOpaque(layers: seq<seq<Color>>, i: nat)
    requires Covers(layers, i)
    ensures FirstOpaque(layers, i) < |layers| ==> PixelColor(layers, i) == layers[FirstOpaque(layers, i)][i]
    ensures FirstOpaque(layers, i) == |layers| ==> PixelColor(layers, i) == Transparent
  {
    if |layers| > 0 {
      if layers[0][i] != Transparent {
        FoldKeeps(layers[0][i], layers[1..], i);
      } else {
        PixelColorFirstOpaque(layers[1..], i);
      }
    }
  }

  /** Stacking a layer on top only matters where the image below shows through. */
  lemma {:induction false} PixelColorOnTop(top: seq<Color>, below: seq<seq<Color>>, i: nat)
    requires i < |top| && Covers(below, i)
    ensures Covers([top] + below, i)
    ensures PixelColor([top] + below, i) == if top[i] == Transparent then PixelColor(below, i) else top[i]
  {
    var layers := [top] + below;
    assert layers[0] == top && layers[1..] == below;
    if top[i] != Transparent {
      FoldKeeps(top[i], below, i);
    }
  }

  /**
   * What `merge_image` ends with: the merged pixels, the `%` by a zero layer size, or the
   * `assert!` on an incomplete last layer.
   */
  datatype Merged = Image(pixels: seq<Color>) | ZeroSizedLayer | IncompleteLayer

  /** Every index below len is covered by every layer of len pixels. */
  lemma LayersCover(pixels: seq<Color>, len: nat, i: nat)
    requires len > 0 && |pixels| % len == 0 && i < len
    ensures Covers(Layers(pixels, len), i)
  {
  }

  /** The merged image as a value: one merged pixel per position of a layer. */
  function MergedPixels(len: nat, pixels: seq<Color>): (r: seq<Color>)
    requires len > 0 && |pixels| % len == 0
    ensures |r| == len
  {
    seq(len, idx requires 0 <= idx < len => LayersCover(pixels, len, idx); PixelColor(Layers(pixels, len), idx))
  }

  /** The position of pixel (x, y) in a row-by-row image. */
  function Index(y: nat, x: nat, width: nat): nat
  {
    y * width + x
  }

  /**
   * `merge_image`: the image has width * height pixels, pixel y * width + x being the merged
   * colour at that index.
   */
  method MergeImage(width: nat, height: nat, pixels: seq<Color>) returns (r: Merged)
    ensures r.ZeroSizedLayer? <==> width * height == 0
    ensures r.Image? <==> width * height > 0 && |pixels| % (width * height) == 0
    ensures r.Image? ==> r.pixels == MergedPixels(width * height, pixels)
  {
    var len := width * height;
    if len == 0 {
      return ZeroSizedLayer;
    }
    if |pixels| % len != 0 {
      return IncompleteLayer;
    }
    var layers := Layers(pixels, len);
    var image: seq<Color> := [];
    for y := 0 to height
      invariant |image| == Index(y, 0, width) <= len
      invariant image == MergedPixels(len, pixels)[..|image|]
    {
      for x := 0 to width
        invariant |image| == Index(y, x, width) <= len
        invariant image == MergedPixels(len, pixels)[..|image|]
      {
        var idx := y * width + x;
        RowBound(y, x, width, height);
        LayersCover(pixels, len, idx);
        image := image + [PixelColor(layers, idx)];
      }
      RowEnd(y, width, height);
    }
    RowEnd(height - 1, width, height);
    r := Image(image);
  }

  /** Where a row stops the next one starts; the pixels of the rows lie inside the image. */
  lemma RowBound(y: nat, x: nat, width: nat, height: nat)
    requires y < height && x < width
    ensures Index(y, x, width) < width * height && Index(y, x, width) + 1 == Index(y, x + 1, width)
  {
    assert (y + 1) * width <= height * width;
  }

  lemma RowEnd(y: nat, width: nat, height: nat)
    requires y < height
    ensures Index(y, width, width) == Index(y + 1, 0, width) <= width * height
  {
    assert (y + 1) * width <= height * width;
  }

  /** In the merged image, pixel (x, y) is the first non-transparent colour at y * width + x. */
  lemma MergedPixelAt(width: nat, height: nat, pixels: seq<Color>, y: nat, x: nat)
    requires width * height > 0 && |pixels| % (width * height) == 0 && y < height && x < width
    ensures Index(y, x, width) < width * height
    ensures Covers(Layers(pixels, width * height), Index(y, x, width))
    ensures MergedPixels(width * height, pixels)[Index(y, x, width)]
      == PixelColor(Layers(pixels, width * height), Index(y, x, width))
  {
    RowBound(y, x, width, height);
    LayersCover(pixels, width * height, Index(y, x, width));
  }

  /** The 2-by-2 image of four layers merges to black, white, white, black. */
  lemma MergeExample()
    ensures MergedPixels(4, [Black, Transparent, Transparent, Transparent,
                             White, White, Transparent, Transparent,
                             Transparent, Transparent, White, Transparent,
                             Black, Black, Black, Black]) == [Black, White, White, Black]
  {
    var l0 := [Black, Transparent, Transparent, Transparent];
    var l1 := [White, White, Transparent, Transparent];
    var l2 := [Transparent, Transparent, White, Transparent];
    var l3 := [Black, Black, Black, Black];
    var pixels := l0 + l1 + l2 + l3;
    var layers := Layers(pixels, 4);
    assert layers[0] == pixels[0..4] == l0;
    assert layers[1] == pixels[4..8] == l1;
    assert layers[2] == pixels[8..12] == l2;
    assert layers[3] == pixels[12..16] == l3;
    assert layers == [l0, l1, l2, l3];
    var merged := MergedPixels(4, pixels);
    forall i | 0 <= i < 4 ensures merged[i] == [Black, White, White, Black][i] {
      LayersCover(pixels, 4, i);
      PixelColorOnTop(l0, [l1, l2, l3], i);
      PixelColorOnTop(l1, [l2, l3], i);
      PixelColorOnTop(l2, [l3], i);
      PixelColorOnTop(l3, [], i);
      assert [l0] + [l1, l2, l3] == layers;
      assert [l1] + [l2, l3] == [l1, l2, l3];
      assert [l2] + [l3] == [l2, l3];
      assert [l3] + [] == [l3];
    }
    assert pixels == [Black, Transparent, Transparent, Transparent,
                      White, White, Transparent, Transparent,
                      Transparent, Transparent, White, Transparent,
                      Black, Black, Black, Black];
  }

  function Product(a: nat, b: nat): nat
  {
    a * b
  }

  lemma SomeLayer(n: nat, len: nat)
    requires len > 0 && n > 0 && n % len == 0
    ensures n / len > 0
  {
  }

  /**
   * The layer `answer1` picks with `min_by`: fewest Black pixels, the first one among equals.
   */
  function FewestBlack(layers: seq<seq<Color>>): (k: nat)
    requires |layers| > 0
    ensures k < |layers|
    ensures forall j | 0 <= j < |layers| :: NumberOf(Black, layers[k]) <= NumberOf(Black, layers[j])
    ensures forall j | 0 <= j < k :: NumberOf(Black, layers[k]) < NumberOf(Black, layers[j])
  {
    if |layers| == 1 then 0
    else
      var k := FewestBlack(layers[..|layers| - 1]);
      if NumberOf(Black, layers[|layers| - 1]) < NumberOf(Black, layers[k]) then |layers| - 1 else k
  }

  /**
   * `answer1`: on the layer with the fewest Black pixels, the White count times the
   * Transparent count; the `unwrap` panics when there is no layer.
   */
  function LayerChecksum(width: nat, height: nat, pixels: seq<Color>): (r: Option<nat>)
    ensures r.Some? <==> width * height > 0 && |pixels| % (width * height) == 0 && |pixels| > 0
  {
    var len := width * height;
    if len == 0 || |pixels| % len != 0 || |pixels| == 0 then None
    else
      var layers := Layers(pixels, len);
      SomeLayer(|pixels|, len);
      var l := layers[FewestBlack(layers)];
      var product: nat := Product(NumberOf(White, l), NumberOf(Transparent, l));
      Some(product)
  }
}
