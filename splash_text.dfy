/**
 * Code-point iteration of the splash screen's text renderer (splash/TrueType.kt, identical in
 * both package trees): `getCP` combines a UTF-16 surrogate pair as section 2.2 of RFC 2781
 * describes, and `renderText` walks the text with it, asking for one baked glyph per code point.
 */
module SplashText {
  /** A Kotlin `Char`: one UTF-16 code unit. */
  newtype Utf16Unit = x: int | 0 <= x < 0x1_0000

  predicate IsHighSurrogate(c: Utf16Unit) {
    0xD800 <= c <= 0xDBFF
  }

  predicate IsLowSurrogate(c: Utf16Unit) {
    0xDC00 <= c <= 0xDFFF
  }

  const MIN_SUPPLEMENTARY_CODE_POINT := 0x1_0000
  const MAX_CODE_POINT := 0x10_FFFF

  /** `Character.toCodePoint(high, low)`, written as the JDK computes it. */
  function ToCodePoint(high: Utf16Unit, low: Utf16Unit): (cp: int)
    requires IsHighSurrogate(high) && IsLowSurrogate(low)
    ensures MIN_SUPPLEMENTARY_CODE_POINT <= cp <= MAX_CODE_POINT
    ensures cp == MIN_SUPPLEMENTARY_CODE_POINT + (high as int - 0xD800) * 0x400 + (low as int - 0xDC00)
  {
    (high as int * 0x400 + low as int) + (MIN_SUPPLEMENTARY_CODE_POINT - 0xD800 * 0x400 - 0xDC00)
  }

  /** UTF-16 encoding of one code point (section 2.1 of RFC 2781); a BMP value is one unit. */
  function Encode(cp: int): (units: seq<Utf16Unit>)
    requires 0 <= cp <= MAX_CODE_POINT
    ensures cp < MIN_SUPPLEMENTARY_CODE_POINT ==> units == [cp as Utf16Unit]
    ensures cp >= MIN_SUPPLEMENTARY_CODE_POINT ==>
      |units| == 2 && IsHighSurrogate(units[0]) && IsLowSurrogate(units[1]) && ToCodePoint(units[0], units[1]) == cp
  {
    if cp < MIN_SUPPLEMENTARY_CODE_POINT then [cp as Utf16Unit]
    else
      var u := cp - MIN_SUPPLEMENTARY_CODE_POINT;
      [(0xD800 + u / 0x400) as Utf16Unit, (0xDC00 + u % 0x400) as Utf16Unit]
  }

  /** Combining a pair and encoding the result again gives the pair back. */
  lemma EncodeToCodePoint(high: Utf16Unit, low: Utf16Unit)
    requires IsHighSurrogate(high) && IsLowSurrogate(low)
    ensures Encode(ToCodePoint(high, low)) == [high, low]
  {
    var u := ToCodePoint(high, low) - MIN_SUPPLEMENTARY_CODE_POINT;
    assert u == (high as int - 0xD800) * 0x400 + (low as int - 0xDC00);
    assert u / 0x400 == high as int - 0xD800 && u % 0x400 == low as int - 0xDC00;
  }

  /**
   * `getCP(text, to, i, cpOut)`: the number of units consumed and the code point written to
   * `cpOut[0]`. A high surrogate followed, before `to`, by a low surrogate is combined; any other
   * unit, an unpaired surrogate included, stands for itself.
   */
  function GetCP(text: seq<Utf16Unit>, to: int, i: int): (r: (nat, int))
    requires 0 <= i < |text| && to <= |text|
    ensures (r.0 == 1 || r.0 == 2) && i + r.0 <= |text|
    ensures 0 <= r.1 <= MAX_CODE_POINT
  {
    var c1 := text[i];
    if IsHighSurrogate(c1) && i + 1 < to && IsLowSurrogate(text[i + 1]) then
      (2, ToCodePoint(c1, text[i + 1]))
    else
      (1, c1 as int)
  }

  /**
   * `getCP` consumes two units exactly for a high surrogate followed, before `to`, by a low one,
   * and the units it consumed are the UTF-16 encoding of the code point it reports.
   */
  lemma GetCPCases(text: seq<Utf16Unit>, to: int, i: int)
    requires 0 <= i < |text| && to <= |text|
    ensures var r := GetCP(text, to, i);
      (r.0 == 2 <==> IsHighSurrogate(text[i]) && i + 1 < to && IsLowSurrogate(text[i + 1])) &&
      (r.0 == 1 ==> r.1 == text[i] as int) &&
      text[i..i + r.0] == Encode(r.1)
  {
    if IsHighSurrogate(text[i]) && i + 1 < to && IsLowSurrogate(text[i + 1]) {
      EncodeToCodePoint(text[i], text[i + 1]);
    }
  }

  /** The code points `renderText` visits from index `i` on. */
  function DecodeFrom(text: seq<Utf16Unit>, i: nat): (cps: seq<int>)
    requires i <= |text|
    ensures forall k :: 0 <= k < |cps| ==> 0 <= cps[k] <= MAX_CODE_POINT
    decreases |text| - i
  {
    if i == |text| then []
    else
      var r := GetCP(text, |text|, i);
      [r.1] + DecodeFrom(text, i + r.0)
  }

  function Decode(text: seq<Utf16Unit>): seq<int> {
    DecodeFrom(text, 0)
  }

  /** UTF-16 encoding of a sequence of code points. */
  function EncodeAll(cps: seq<int>): seq<Utf16Unit>
    requires forall k :: 0 <= k < |cps| ==> 0 <= cps[k] <= MAX_CODE_POINT
  {
    if |cps| == 0 then [] else Encode(cps[0]) + EncodeAll(cps[1..])
  }

  /** Decoding loses nothing: encoding the visited code points gives the text back, unpaired surrogates included. */
  lemma {:induction false} EncodeDecodeFrom(text: seq<Utf16Unit>, i: nat)
    requires i <= |text|
    ensures EncodeAll(DecodeFrom(text, i)) == text[i..]
    decreases |text| - i
  {
    if i < |text| {
      var r := GetCP(text, |text|, i);
      GetCPCases(text, |text|, i);
      var cps := DecodeFrom(text, i);
      assert cps[1..] == DecodeFrom(text, i + r.0);
      EncodeDecodeFrom(text, i + r.0);
      assert text[i..] == text[i..i + r.0] + text[i + r.0..];
    }
  }

  lemma EncodeDecode(text: seq<Utf16Unit>)
    ensures EncodeAll(Decode(text)) == text
  {
    EncodeDecodeFrom(text, 0);
  }

  /** Unicode scalar values (no surrogate code points) survive encoding and decoding. */
  lemma {:induction false} DecodeEncode(cps: seq<int>)
    requires forall k :: 0 <= k < |cps| ==> 0 <= cps[k] <= MAX_CODE_POINT && !(0xD800 <= cps[k] <= 0xDFFF)
    ensures Decode(EncodeAll(cps)) == cps
  {
    if |cps| > 0 {
      var text := EncodeAll(cps);
      var head := Encode(cps[0]);
      var tail := EncodeAll(cps[1..]);
      assert text == head + tail;
      var r := GetCP(text, |text|, 0);
      GetCPCases(text, |text|, 0);
      assert text[..|head|] == head;
      if cps[0] < MIN_SUPPLEMENTARY_CODE_POINT {
        assert r.0 == 1;
      } else {
        assert r.0 == 2;
      }
      DecodeEncode(cps[1..]);
      DecodeFromSuffix(text, |head|, tail);
      assert cps == [cps[0]] + cps[1..];
    }
  }

  /** Decoding from a position that starts a known suffix only looks at that suffix. */
  lemma {:induction false} DecodeFromSuffix(text: seq<Utf16Unit>, i: nat, suffix: seq<Utf16Unit>)
    requires i <= |text| && text[i..] == suffix
    ensures DecodeFrom(text, i) == Decode(suffix)
    decreases |text| - i
  {
    DecodeFromShift(text, i, suffix, 0);
  }

  lemma {:induction false} DecodeFromShift(text: seq<Utf16Unit>, i: nat, suffix: seq<Utf16Unit>, j: nat)
    requires i <= |text| && text[i..] == suffix && j <= |suffix|
    ensures DecodeFrom(text, i + j) == DecodeFrom(suffix, j)
    decreases |suffix| - j
  {
    if j < |suffix| {
      assert text[i + j] == suffix[j];
      if j + 1 < |suffix| {
        assert text[i + j + 1] == suffix[j + 1];
      }
      var r := GetCP(suffix, |suffix|, j);
      assert GetCP(text, |text|, i + j) == r;
      DecodeFromShift(text, i, suffix, j + r.0);
    }
  }

  /** `stbtt_BakeFontBitmap(…, 32, chardata)` with `chardata` of 224 entries. */
  const FIRST_BAKED_CHAR := 32
  const BAKED_CHAR_COUNT := 224

  /** The glyph index `renderText` asks `stbtt_GetBakedQuad` for: `cp - 32`, without any range check. */
  function GlyphIndex(cp: int): (g: int)
    ensures 0 <= g < BAKED_CHAR_COUNT <==> FIRST_BAKED_CHAR <= cp < FIRST_BAKED_CHAR + BAKED_CHAR_COUNT
  {
    cp - FIRST_BAKED_CHAR
  }

  /** The values `i` takes in `renderText` from index `i` on: each step moves past what `getCP` consumed. */
  function StartsFrom(text: seq<Utf16Unit>, i: nat): (starts: seq<nat>)
    requires i <= |text|
    ensures |starts| == |DecodeFrom(text, i)|
    ensures |starts| > 0 ==> starts[0] == i
    decreases |text| - i
  {
    if i == |text| then []
    else [i] + StartsFrom(text, i + GetCP(text, |text|, i).0)
  }

  /** Every start lies within the text, at or after where the iteration began. */
  lemma {:induction false} StartsInRange(text: seq<Utf16Unit>, i: nat, k: nat)
    requires i <= |text| && k < |StartsFrom(text, i)|
    ensures i <= StartsFrom(text, i)[k] < |text|
    decreases |text| - i
  {
    var n := GetCP(text, |text|, i).0;
    var rest := StartsFrom(text, i + n);
    assert StartsFrom(text, i) == [i] + rest;
    if k > 0 {
      StartsInRange(text, i + n, k - 1);
      assert StartsFrom(text, i)[k] == rest[k - 1];
    }
  }

  /** The last step ends exactly at the end of the text: the loop never passes `text.length`. */
  lemma {:induction false} StartsEndAtLength(text: seq<Utf16Unit>, i: nat)
    requires i < |text|
    ensures |StartsFrom(text, i)| > 0
    ensures StartsFrom(text, i)[|StartsFrom(text, i)| - 1] < |text|
    ensures var starts := StartsFrom(text, i);
      starts[|starts| - 1] + GetCP(text, |text|, starts[|starts| - 1]).0 == |text|
    decreases |text| - i
  {
    var n := GetCP(text, |text|, i).0;
    var rest := StartsFrom(text, i + n);
    var starts := StartsFrom(text, i);
    assert starts == [i] + rest;
    if i + n < |text| {
      StartsEndAtLength(text, i + n);
      assert starts[|starts| - 1] == rest[|rest| - 1];
    } else {
      assert rest == [];
      assert starts[|starts| - 1] == i;
    }
  }

  /** Consecutive starts differ by what `getCP` consumed, so by 1 or 2. */
  lemma {:induction false} StartsStep(text: seq<Utf16Unit>, i: nat, k: nat)
    requires i <= |text| && k + 1 < |StartsFrom(text, i)|
    ensures StartsFrom(text, i)[k] < |text|
    ensures StartsFrom(text, i)[k + 1] == StartsFrom(text, i)[k] + GetCP(text, |text|, StartsFrom(text, i)[k]).0
    decreases |text| - i
  {
    StartsInRange(text, i, k);
    var n := GetCP(text, |text|, i).0;
    var rest := StartsFrom(text, i + n);
    assert StartsFrom(text, i) == [i] + rest;
    if k > 0 {
      StartsStep(text, i + n, k - 1);
      assert StartsFrom(text, i)[k] == rest[k - 1];
      assert StartsFrom(text, i)[k + 1] == rest[k];
    } else {
      assert rest[0] == i + n;
    }
  }

  lemma RenderStep(text: seq<Utf16Unit>, i: nat)
    requires i < |text|
    ensures var r := GetCP(text, |text|, i);
      DecodeFrom(text, i) == [r.1] + DecodeFrom(text, i + r.0) &&
      StartsFrom(text, i) == [i] + StartsFrom(text, i + r.0)
  {
  }

  /** One loop step keeps "decoded so far, then the rest, is the whole decoding". */
  lemma DecodeAdvance(text: seq<Utf16Unit>, i: nat, cps: seq<int>)
    requires i < |text| && cps + DecodeFrom(text, i) == Decode(text)
    ensures var r := GetCP(text, |text|, i);
      (cps + [r.1]) + DecodeFrom(text, i + r.0) == Decode(text)
  {
    var r := GetCP(text, |text|, i);
    RenderStep(text, i);
    var rest := DecodeFrom(text, i + r.0);
    assert cps + ([r.1] + rest) == (cps + [r.1]) + rest;
  }

  /** One loop step keeps "starts so far, then the rest, are all the starts". */
  lemma StartsAdvance(text: seq<Utf16Unit>, i: nat, starts: seq<nat>)
    requires i < |text| && starts + StartsFrom(text, i) == StartsFrom(text, 0)
    ensures (starts + [i]) + StartsFrom(text, i + GetCP(text, |text|, i).0) == StartsFrom(text, 0)
  {
    var n := GetCP(text, |text|, i).0;
    RenderStep(text, i);
    var rest := StartsFrom(text, i + n);
    assert starts + ([i] + rest) == (starts + [i]) + rest;
  }

  /**
   * The iteration loop of `renderText`: `i` advances by what `getCP` consumed, and each step asks
   * for the glyph of the code point it decoded. `starts` are the values `i` takes at each step.
   */
  method RenderText(text: seq<Utf16Unit>) returns (glyphs: seq<int>, starts: seq<nat>)
    ensures starts == StartsFrom(text, 0)
    ensures |glyphs| == |Decode(text)|
    ensures forall k :: 0 <= k < |glyphs| ==> glyphs[k] == GlyphIndex(Decode(text)[k])
  {
    var i: nat := 0;
    var to := |text|;
    glyphs, starts := [], [];
    ghost var cps: seq<int> := [];
    while i < to
      invariant i <= to
      invariant cps + DecodeFrom(text, i) == Decode(text)
      invariant starts + StartsFrom(text, i) == StartsFrom(text, 0)
      invariant glyphs == Glyphs(cps)
    {
      var r := GetCP(text, to, i);
      DecodeAdvance(text, i, cps);
      StartsAdvance(text, i, starts);
      GlyphsSnoc(cps, r.1);
      starts := starts + [i];
      i := i + r.0;
      cps := cps + [r.1];
      glyphs := glyphs + [GlyphIndex(r.1)];
    }
    assert cps == Decode(text);
    assert starts == StartsFrom(text, 0);
  }

  /** The glyph index asked for each code point. */
  function Glyphs(cps: seq<int>): (r: seq<int>)
    ensures |r| == |cps| && forall k :: 0 <= k < |cps| ==> r[k] == GlyphIndex(cps[k])
  {
    seq(|cps|, k requires 0 <= k < |cps| => GlyphIndex(cps[k]))
  }

  lemma GlyphsSnoc(cps: seq<int>, cp: int)
    ensures Glyphs(cps + [cp]) == Glyphs(cps) + [GlyphIndex(cp)]
  {
    var l, r := Glyphs(cps + [cp]), Glyphs(cps) + [GlyphIndex(cp)];
    forall k | 0 <= k < |l| ensures l[k] == r[k] {
      if k < |cps| {
        assert (cps + [cp])[k] == cps[k];
      }
    }
  }

  /** A line feed decodes to code point 10, whose glyph index -22 lies outside the baked table. */
  lemma LineFeedGlyphOutOfRange()
    ensures Decode([10 as Utf16Unit]) == [10]
    ensures GlyphIndex(10) < 0
  {
    assert DecodeFrom([10 as Utf16Unit], 1) == [];
  }

  /** An astral character, written as a surrogate pair, is one code point and one glyph request. */
  lemma SurrogatePairIsOneCodePoint()
    ensures Decode([0xD83D as Utf16Unit, 0xDE00 as Utf16Unit]) == [0x1F600]
  {
    var text := [0xD83D as Utf16Unit, 0xDE00 as Utf16Unit];
    assert GetCP(text, 2, 0) == (2, 0x1F600);
    assert DecodeFrom(text, 2) == [];
  }

  /** A high surrogate at the end, with no unit after it, passes through unpaired. */
  lemma TrailingHighSurrogatePassesThrough()
    ensures Decode([0x41 as Utf16Unit, 0xD83D as Utf16Unit]) == [0x41, 0xD83D]
  {
    var text := [0x41 as Utf16Unit, 0xD83D as Utf16Unit];
    assert GetCP(text, 2, 0) == (1, 0x41);
    assert GetCP(text, 2, 1) == (1, 0xD83D);
    assert DecodeFrom(text, 2) == [];
  }
}
