/**
 * assets/textures/conv.py: turns a texture whose channels are `(r, g, b)` into the
 * metallic-roughness layout `(b, 255 - r, g)`, and derives the output file name with
 * Python's `str.replace`. Opening, converting and saving the image are left out.
 */
module TextureConv {

  /** One RGB pixel as PIL's `getdata` yields it. */
  datatype Pixel = Pixel(r: int, g: int, b: int)

  predicate InByteRange(p: Pixel) {
    0 <= p.r <= 255 && 0 <= p.g <= 255 && 0 <= p.b <= 255
  }

  /** `(b, 255 - r, g)`: undone by `RestorePixel`, and a byte pixel exactly when the input is one. */
  function ConvertPixel(p: Pixel): (q: Pixel)
    ensures RestorePixel(q) == p
    ensures InByteRange(q) <==> InByteRange(p)
  {
    Pixel(p.b, 255 - p.r, p.g)
  }

  /** The inverse channel map: `r = 255 - g'`, `g = b'`, `b = r'`. */
  function RestorePixel(q: Pixel): Pixel {
    Pixel(255 - q.g, q.b, q.r)
  }

  /** The conversion loses nothing: each map undoes the other, and byte ranges are preserved. */
  lemma PixelRoundTrip(p: Pixel, q: Pixel)
    ensures RestorePixel(ConvertPixel(p)) == p
    ensures ConvertPixel(RestorePixel(q)) == q
    ensures InByteRange(p) ==> InByteRange(ConvertPixel(p))
    ensures InByteRange(q) ==> InByteRange(RestorePixel(q))
  {
  }

  /** The list comprehension of line 15, written as the loop it stands for. */
  function ConvertImage(data: seq<Pixel>): (out: seq<Pixel>)
    ensures |out| == |data|
    ensures forall i :: 0 <= i < |data| ==> out[i] == ConvertPixel(data[i])
  {
    if data == [] then [] else [ConvertPixel(data[0])] + ConvertImage(data[1..])
  }

  function RestoreImage(data: seq<Pixel>): (out: seq<Pixel>)
    ensures |out| == |data|
    ensures forall i :: 0 <= i < |data| ==> out[i] == RestorePixel(data[i])
  {
    if data == [] then [] else [RestorePixel(data[0])] + RestoreImage(data[1..])
  }

  /** Whole images: same length and order, invertible, byte ranges preserved. */
  lemma ImageRoundTrip(data: seq<Pixel>)
    ensures RestoreImage(ConvertImage(data)) == data
    ensures ConvertImage(RestoreImage(data)) == data
    ensures (forall i :: 0 <= i < |data| ==> InByteRange(data[i])) ==>
      forall i :: 0 <= i < |data| ==> InByteRange(ConvertImage(data)[i])
  {
    forall i | 0 <= i < |data|
      ensures RestoreImage(ConvertImage(data))[i] == data[i]
      ensures ConvertImage(RestoreImage(data))[i] == data[i]
      ensures InByteRange(data[i]) ==> InByteRange(ConvertImage(data)[i])
    {
      PixelRoundTrip(data[i], data[i]);
    }
  }

  /** `s` has `pat` at position `i`. */
  predicate At(s: string, pat: string, i: int) {
    0 <= i && i + |pat| <= |s| && s[i..i + |pat|] == pat
  }

  /** Python's `s.replace(pat, rep)`: every non-overlapping occurrence, scanning left to right. */
  function Replace(s: string, pat: string, rep: string): (r: string)
    requires |pat| > 0
    ensures |rep| >= |pat| ==> |r| >= |s|
    ensures |rep| <= |pat| ==> |r| <= |s|
    decreases |s|
  {
    if |s| < |pat| then s
    else if s[..|pat|] == pat then rep + Replace(s[|pat|..], pat, rep)
    else [s[0]] + Replace(s[1..], pat, rep)
  }

  /** With no occurrence of `pat`, `replace` returns the string unchanged. */
  lemma {:induction false} ReplaceAbsent(s: string, pat: string, rep: string)
    requires |pat| > 0
    ensures (forall i :: !At(s, pat, i)) ==> Replace(s, pat, rep) == s
    decreases |s|
  {
    if |s| >= |pat| && forall i :: !At(s, pat, i) {
      assert !At(s, pat, 0);
      forall i ensures !At(s[1..], pat, i) {
        if At(s[1..], pat, i) {
          assert s[1..][i..i + |pat|] == s[i + 1..i + 1 + |pat|];
          assert At(s, pat, i + 1);
        }
      }
      ReplaceAbsent(s[1..], pat, rep);
    }
  }

  /** A prefix in which no occurrence starts is copied through unchanged. */
  lemma {:induction false} ReplaceCleanPrefix(a: string, b: string, pat: string, rep: string)
    requires |pat| > 0
    requires forall i :: 0 <= i < |a| ==> !At(a + b, pat, i)
    ensures Replace(a + b, pat, rep) == a + Replace(b, pat, rep)
    decreases |a|
  {
    if a == [] {
      assert a + b == b;
    } else {
      var s := a + b;
      assert !At(s, pat, 0);
      assert s[1..] == a[1..] + b;
      forall i | 0 <= i < |a[1..]|
        ensures !At(a[1..] + b, pat, i)
      {
        if At(a[1..] + b, pat, i) {
          assert (a[1..] + b)[i..i + |pat|] == s[i + 1..i + 1 + |pat|];
          assert At(s, pat, i + 1);
        }
      }
      ReplaceCleanPrefix(a[1..], b, pat, rep);
      if |s| < |pat| {
        assert Replace(b, pat, rep) == b;
      } else {
        assert s[..|pat|] != pat;
        assert Replace(s, pat, rep) == [s[0]] + Replace(s[1..], pat, rep);
        assert s[0] == a[0];
        assert [a[0]] + (a[1..] + Replace(b, pat, rep)) == a + Replace(b, pat, rep);
      }
    }
  }

  /**
   * Exactly one occurrence, at `|stem|`, with nothing else matching: `stem + pat + tail`
   * becomes `stem + rep + tail`.
   */
  lemma ReplaceOnce(stem: string, pat: string, tail: string, rep: string)
    requires |pat| > 0
    requires forall i :: 0 <= i < |stem| ==> !At(stem + pat + tail, pat, i)
    requires Replace(tail, pat, rep) == tail
    ensures Replace(stem + pat + tail, pat, rep) == stem + rep + tail
  {
    var rest := pat + tail;
    assert stem + pat + tail == stem + rest;
    ReplaceCleanPrefix(stem, rest, pat, rep);
    assert rest[..|pat|] == pat && rest[|pat|..] == tail;
    assert Replace(rest, pat, rep) == rep + tail;
    assert stem + (rep + tail) == stem + rep + tail;
  }

  /** An occurrence of `long` is also one of each of its prefixes. */
  lemma PrefixAt(s: string, long: string, short: string, i: int)
    requires At(s, long, i) && |short| <= |long| && long[..|short|] == short
    ensures At(s, short, i)
  {
    assert s[i..i + |short|] == s[i..i + |long|][..|short|];
  }

  /**
   * The name the converted image is saved under (line 22). It is never shorter than the input
   * name, and a name without `_s.png` is saved over the input file itself.
   */
  function SavedName(fileName: string): (r: string)
    ensures |r| >= |fileName|
    ensures (forall i :: !At(fileName, "_s.png", i)) ==> r == fileName
  {
    ReplaceAbsent(fileName, "_s.png", "_mr.png");
    Replace(fileName, "_s.png", "_mr.png")
  }

  /** The name the script prints (line 21); a name without `_s` is printed unchanged. */
  function PrintedName(fileName: string): (r: string)
    ensures |r| >= |fileName|
    ensures (forall i :: !At(fileName, "_s", i)) ==> r == fileName
  {
    ReplaceAbsent(fileName, "_s", "_mr");
    Replace(fileName, "_s", "_mr")
  }

  /** A name `stem_s.png` with no other `_s` becomes `stem_mr.png` both when printed and when saved. */
  lemma NamesAgree(stem: string)
    requires forall i :: 0 <= i < |stem| ==> !At(stem + "_s.png", "_s", i)
    ensures SavedName(stem + "_s.png") == stem + "_mr.png"
    ensures PrintedName(stem + "_s.png") == stem + "_mr.png"
  {
    var name := stem + "_s.png";
    assert name == stem + "_s.png" + "";
    assert "_s.png"[..2] == "_s";
    forall i | 0 <= i < |stem|
      ensures !At(stem + "_s.png" + "", "_s.png", i)
    {
      if At(name, "_s.png", i) {
        PrefixAt(name, "_s.png", "_s", i);
        assert false;
      }
    }
    ReplaceOnce(stem, "_s.png", "", "_mr.png");
    assert name == stem + "_s" + ".png";
    assert Replace("png", "_s", "_mr") == "png";
    assert Replace(".png", "_s", "_mr") == ".png";
    ReplaceOnce(stem, "_s", ".png", "_mr");
    assert stem + "_mr" + ".png" == stem + "_mr.png";
  }

  /**
   * The printed name can differ from the saved one: every `_s` in the name is rewritten in the
   * printed name, only the final `_s.png` in the saved one. `sand_side_s.png` is printed as
   * `sand_mride_mr.png` but saved as `sand_side_mr.png`; the shorter `a_s_s.png` shows the same.
   */
  lemma NamesDiffer()
    ensures SavedName("a_s_s.png") == "a_s_mr.png"
    ensures PrintedName("a_s_s.png") == "a_mr_mr.png"
  {
    PrintedSteps();
    SavedSteps();
  }

  lemma PrintedSteps()
    ensures Replace("a_s_s.png", "_s", "_mr") == "a_mr_mr.png"
  {
    assert Replace("png", "_s", "_mr") == "png";
    assert Replace(".png", "_s", "_mr") == ".png";
    assert Replace("_s.png", "_s", "_mr") == "_mr.png";
    assert Replace("s_s.png", "_s", "_mr") == "s_mr.png";
    assert Replace("_s_s.png", "_s", "_mr") == "_mr_mr.png";
  }

  lemma SavedSteps()
    ensures Replace("a_s_s.png", "_s.png", "_mr.png") == "a_s_mr.png"
  {
    assert Replace("_s.png", "_s.png", "_mr.png") == "_mr.png";
    assert Replace("s_s.png", "_s.png", "_mr.png") == "s_mr.png";
    assert Replace("_s_s.png", "_s.png", "_mr.png") == "_s_mr.png";
  }
}
