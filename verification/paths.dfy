/** Path pairing: an image path is derived from a label path purely textually,
    by three `str.replace` calls applied in order. */
module Paths {

  /** Python's `s.replace(pat, rep)`: every non-overlapping occurrence of
      `pat`, found left to right, is replaced by `rep`. */
  function Replace(s: string, pat: string, rep: string): string
    requires pat != []
    decreases |s|
  {
    if |s| < |pat| then s
    else if s[..|pat|] == pat then rep + Replace(s[|pat|..], pat, rep)
    else [s[0]] + Replace(s[1..], pat, rep)
  }

  /** `pat` occurs in `s` starting at index `i`. */
  predicate OccursAt(s: string, pat: string, i: int)
  {
    0 <= i && i + |pat| <= |s| && s[i..i + |pat|] == pat
  }

  ghost predicate Absent(s: string, pat: string)
  {
    forall i :: !OccursAt(s, pat, i)
  }

  /** `pat` occurs in `s` at index `k` and nowhere else. */
  ghost predicate OnlyAt(s: string, pat: string, k: int)
  {
    OccursAt(s, pat, k) && forall i :: OccursAt(s, pat, i) ==> i == k
  }

  /** `r` and `pat` are non-empty, `r` starts with a character absent from
      `pat` and `pat` with one absent from `r`: no occurrence of `pat` can
      overlap a copy of `r`. */
  predicate Separated(r: string, pat: string)
  {
    r != [] && pat != [] &&
    (forall j :: 0 <= j < |pat| ==> pat[j] != r[0]) &&
    (forall j :: 0 <= j < |r| ==> r[j] != pat[0])
  }

  const LabelDir: string := "/label3D/"
  const ImageDir: string := "/camera/"
  const LabelInfix: string := "_label3D_"
  const ImageInfix: string := "_camera_"
  const LabelExt: string := ".json"
  const ImageExt: string := ".png"

  /** `label2img_path` */
  function Label2ImgPath(labelPath: string): string
  {
    var p1 := Replace(labelPath, LabelDir, ImageDir);
    var p2 := Replace(p1, LabelInfix, ImageInfix);
    Replace(p2, LabelExt, ImageExt)
  }

  datatype SamplePair = SamplePair(imgPath: string, labelPath: string)

  /** `collect_img_label_path_pairs` over the label paths found on disk: the
      derived image paths zipped with the label paths. */
  method CollectImgLabelPathPairs(labelPaths: seq<string>) returns (pairs: seq<SamplePair>)
    ensures |pairs| == |labelPaths|
    ensures forall i :: 0 <= i < |labelPaths| ==>
              pairs[i] == SamplePair(Label2ImgPath(labelPaths[i]), labelPaths[i])
  {
    var imgPaths := seq(|labelPaths|, i requires 0 <= i < |labelPaths| => Label2ImgPath(labelPaths[i]));
    pairs := [];
    var i := 0;
    while i < |imgPaths|
      invariant 0 <= i <= |labelPaths|
      invariant |pairs| == i
      invariant forall j :: 0 <= j < i ==> pairs[j] == SamplePair(Label2ImgPath(labelPaths[j]), labelPaths[j])
    {
      pairs := pairs + [SamplePair(imgPaths[i], labelPaths[i])];
      i := i + 1;
    }
  }

  // ----- Properties of Replace -----

  /** An occurrence in a suffix is an occurrence in the whole, shifted. */
  lemma OccursInSuffix(s: string, pat: string, d: nat, i: int)
    requires d <= |s|
    ensures OccursAt(s[d..], pat, i) <==> (0 <= i && OccursAt(s, pat, i + d))
  {
    if 0 <= i && i + |pat| <= |s| - d {
      assert s[d..][i..i + |pat|] == s[i + d..i + d + |pat|];
    }
  }

  /** A string without `pat` is left unchanged. */
  lemma {:induction false} ReplaceAbsent(s: string, pat: string, rep: string)
    requires pat != [] && Absent(s, pat)
    ensures Replace(s, pat, rep) == s
    decreases |s|
  {
    if |s| >= |pat| {
      assert !OccursAt(s, pat, 0);
      forall i ensures !OccursAt(s[1..], pat, i) {
        OccursInSuffix(s, pat, 1, i);
      }
      ReplaceAbsent(s[1..], pat, rep);
    }
  }

  /** When `pat` occurs in `x + pat + y` only between `x` and `y`, exactly
      that occurrence is rewritten. */
  lemma {:induction false} ReplaceOnly(x: string, y: string, pat: string, rep: string)
    requires pat != [] && OnlyAt(x + pat + y, pat, |x|)
    ensures Replace(x + pat + y, pat, rep) == x + rep + y
    decreases |x|
  {
    var s := x + pat + y;
    if x == [] {
      assert s[..|pat|] == pat && s[|pat|..] == y;
      OnlyAtFrontRest(y, pat);
      ReplaceAbsent(y, pat, rep);
    } else {
      var s1 := x[1..] + pat + y;
      assert s == [x[0]] + s1;
      OnlyAtDropFirst(x, y, pat);
      assert Replace(s, pat, rep) == [s[0]] + Replace(s1, pat, rep);
      ReplaceOnly(x[1..], y, pat, rep);
      assert x + rep + y == [x[0]] + (x[1..] + rep + y);
    }
  }

  /** When `pat` occurs in `pat + y` only at the front, `y` lacks it. */
  lemma OnlyAtFrontRest(y: string, pat: string)
    requires pat != [] && OnlyAt(pat + y, pat, 0)
    ensures Absent(y, pat)
  {
    var s := pat + y;
    assert s[|pat|..] == y;
    forall i ensures !OccursAt(y, pat, i) {
      OccursInSuffix(s, pat, |pat|, i);
    }
  }

  /** Dropping the first character of `x` keeps the lone occurrence, one
      place earlier, and there is none at the very start. */
  lemma OnlyAtDropFirst(x: string, y: string, pat: string)
    requires pat != [] && x != [] && OnlyAt(x + pat + y, pat, |x|)
    ensures !OccursAt(x + pat + y, pat, 0)
    ensures OnlyAt(x[1..] + pat + y, pat, |x| - 1)
  {
    var s, s1 := x + pat + y, x[1..] + pat + y;
    assert s[1..] == s1;
    forall i | OccursAt(s1, pat, i) ensures i == |x| - 1 {
      OccursInSuffix(s, pat, 1, i);
    }
    assert s1[|x| - 1..|x| - 1 + |pat|] == pat;
  }

  /** ReplaceOnly, for a string already known to be `x + pat + y`. */
  lemma ReplaceOnlyIn(s: string, x: string, y: string, pat: string, rep: string)
    requires pat != [] && s == x + pat + y && OnlyAt(s, pat, |x|)
    ensures Replace(s, pat, rep) == x + rep + y
  {
    ReplaceOnly(x, y, pat, rep);
  }

  /** After `t` between `x` and `y` is swapped for `r`, an occurrence of `pat`
      cannot overlap `r` when `r` starts with a character absent from `pat` and
      `pat` starts with a character absent from `r`; it is an occurrence that
      was already there before the swap. */
  lemma OccursAfterSwap(x: string, t: string, r: string, y: string, pat: string, i: int)
    requires Separated(r, pat)
    ensures OccursAt(x + r + y, pat, i) ==>
              (i + |pat| <= |x| && OccursAt(x + t + y, pat, i)) ||
              (i >= |x| + |r| && OccursAt(x + t + y, pat, i - |r| + |t|))
  {
    var s, s' := x + r + y, x + t + y;
    if i < 0 || i + |pat| > |s| {
    } else if i + |pat| <= |x| {
      assert s[i..i + |pat|] == x[i..i + |pat|] == s'[i..i + |pat|];
    } else if i >= |x| + |r| {
      var k := i - |x| - |r|;
      assert s[i..i + |pat|] == y[k..k + |pat|];
      assert s'[k + |x| + |t|..k + |x| + |t| + |pat|] == y[k..k + |pat|];
    } else if i <= |x| {
      // the window covers the first character of `r`
      assert s[|x|] == r[0];
      assert s[i..i + |pat|][|x| - i] == r[0];
    } else {
      // the window starts inside `r`
      assert s[i] == r[i - |x|];
      assert s[i..i + |pat|][0] == r[i - |x|];
    }
  }

  /** A unique occurrence after the swapped segment stays unique, shifted by
      the difference in length. */
  lemma StillOnlyAfterSwap(x: string, t: string, r: string, y: string, pat: string, k: int,
                           before: string, after: string)
    requires Separated(r, pat)
    requires before == x + t + y && after == x + r + y
    requires k >= |x| + |t| && OnlyAt(before, pat, k)
    ensures OnlyAt(after, pat, k - |t| + |r|)
  {
    var d := k - |x| - |t|;
    assert before[k..k + |pat|] == y[d..d + |pat|];
    assert after[k - |t| + |r|..k - |t| + |r| + |pat|] == y[d..d + |pat|];
    forall i | OccursAt(after, pat, i) ensures i == k - |t| + |r| {
      OccursAfterSwap(x, t, r, y, pat, i);
    }
  }

  /** Three successive rewrites of unique tokens `t1`, `t2`, `t3` laid out as
      `prefix + t1 + middle + t2 + stem + t3`, where no replacement can
      create or hide a later token. */
  lemma ReplaceThree(prefix: string, middle: string, stem: string,
                     t1: string, r1: string, t2: string, r2: string, t3: string, r3: string)
    requires t1 != [] && Separated(r1, t2) && Separated(r1, t3) && Separated(r2, t3)
    requires OnlyAt(prefix + t1 + middle + t2 + stem + t3, t1, |prefix|)
    requires OnlyAt(prefix + t1 + middle + t2 + stem + t3, t2, |prefix| + |t1| + |middle|)
    requires OnlyAt(prefix + t1 + middle + t2 + stem + t3, t3, |prefix| + |t1| + |middle| + |t2| + |stem|)
    ensures Replace(Replace(Replace(prefix + t1 + middle + t2 + stem + t3, t1, r1), t2, r2), t3, r3)
            == prefix + r1 + middle + r2 + stem + r3
  {
    RewriteFirst(prefix, middle, stem, t1, r1, t2, t3);
    LaterTokensStayUnique(prefix, middle, stem, t1, r1, t2, t3);
    ReplaceSecond(prefix + r1 + middle, stem, t2, r2, t3, r3, prefix + r1 + middle + t2 + stem + t3);
  }

  /** After the first rewrite of ReplaceThree the later tokens stay unique. */
  lemma LaterTokensStayUnique(prefix: string, middle: string, stem: string,
                     t1: string, r1: string, t2: string, t3: string)
    requires t1 != [] && Separated(r1, t2) && Separated(r1, t3)
    requires OnlyAt(prefix + t1 + middle + t2 + stem + t3, t1, |prefix|)
    requires OnlyAt(prefix + t1 + middle + t2 + stem + t3, t2, |prefix| + |t1| + |middle|)
    requires OnlyAt(prefix + t1 + middle + t2 + stem + t3, t3, |prefix| + |t1| + |middle| + |t2| + |stem|)
    ensures OnlyAt(prefix + r1 + middle + t2 + stem + t3, t2, |prefix| + |r1| + |middle|)
    ensures OnlyAt(prefix + r1 + middle + t2 + stem + t3, t3, |prefix| + |r1| + |middle| + |t2| + |stem|)
  {
    StillOnlyAfterFirst(prefix, t1, r1, middle, t2, stem, t3, t2, |prefix| + |t1| + |middle|,
                        |prefix| + |r1| + |middle|);
    StillOnlyAfterFirst(prefix, t1, r1, middle, t2, stem, t3, t3, |prefix| + |t1| + |middle| + |t2| + |stem|,
                        |prefix| + |r1| + |middle| + |t2| + |stem|);
  }

  /** ReplaceOnly for the first segment of the label-path layout. */
  lemma RewriteFirst(prefix: string, middle: string, stem: string, t1: string, r1: string, t2: string, t3: string)
    requires t1 != [] && OnlyAt(prefix + t1 + middle + t2 + stem + t3, t1, |prefix|)
    ensures Replace(prefix + t1 + middle + t2 + stem + t3, t1, r1) == prefix + r1 + middle + t2 + stem + t3
  {
    var rest := middle + t2 + stem + t3;
    Regroup(prefix, t1, middle, t2, stem, t3);
    Regroup(prefix, r1, middle, t2, stem, t3);
    ReplaceOnlyIn(prefix + t1 + middle + t2 + stem + t3, prefix, rest, t1, r1);
  }

  /** StillOnlyAfterSwap for the first segment of the label-path layout. */
  lemma StillOnlyAfterFirst(prefix: string, t1: string, r1: string, middle: string, t2: string,
                            stem: string, t3: string, pat: string, k: int, k': int)
    requires Separated(r1, pat)
    requires k >= |prefix| + |t1| && OnlyAt(prefix + t1 + middle + t2 + stem + t3, pat, k)
    requires k' == k - |t1| + |r1|
    ensures OnlyAt(prefix + r1 + middle + t2 + stem + t3, pat, k')
  {
    var rest := middle + t2 + stem + t3;
    Regroup(prefix, t1, middle, t2, stem, t3);
    Regroup(prefix, r1, middle, t2, stem, t3);
    StillOnlyAfterSwap(prefix, t1, r1, rest, pat, k, prefix + t1 + middle + t2 + stem + t3,
                       prefix + r1 + middle + t2 + stem + t3);
  }

  /** Concatenation regrouped, proved apart from any quantified facts. */
  lemma Regroup(a: string, b: string, c: string, d: string, e: string, f: string)
    ensures a + b + c + d + e + f == a + b + (c + d + e + f)
  {
  }

  /** The last two rewrites of ReplaceThree. */
  lemma ReplaceSecond(a: string, stem: string, t2: string, r2: string, t3: string, r3: string, s1: string)
    requires t2 != [] && Separated(r2, t3)
    requires s1 == a + t2 + stem + t3
    requires OnlyAt(s1, t2, |a|) && OnlyAt(s1, t3, |a| + |t2| + |stem|)
    ensures Replace(Replace(s1, t2, r2), t3, r3) == a + r2 + stem + r3
  {
    var b := stem + t3;
    assert s1 == a + t2 + b;
    ReplaceOnly(a, b, t2, r2);
    StillOnlyAfterSwap(a, t2, r2, b, t3, |a| + |t2| + |stem|, s1, a + r2 + b);
    var a2 := a + r2 + stem;
    assert a + r2 + b == a2 + t3 + [];
    ReplaceOnly(a2, [], t3, r3);
    assert a2 + r3 + [] == a + r2 + stem + r3;
  }

  /** The rewrite of a well-formed label path: when each of the three label
      tokens occurs exactly once, at its place in
      `prefix + "/label3D/" + middle + "_label3D_" + stem + ".json"`,
      the image path is `prefix + "/camera/" + middle + "_camera_" + stem + ".png"`. */
  lemma Label2ImgPathRewrites(prefix: string, middle: string, stem: string)
    requires OnlyAt(prefix + LabelDir + middle + LabelInfix + stem + LabelExt, LabelDir, |prefix|)
    requires OnlyAt(prefix + LabelDir + middle + LabelInfix + stem + LabelExt, LabelInfix,
                    |prefix| + |LabelDir| + |middle|)
    requires OnlyAt(prefix + LabelDir + middle + LabelInfix + stem + LabelExt, LabelExt,
                    |prefix| + |LabelDir| + |middle| + |LabelInfix| + |stem|)
    ensures Label2ImgPath(prefix + LabelDir + middle + LabelInfix + stem + LabelExt)
            == prefix + ImageDir + middle + ImageInfix + stem + ImageExt
  {
    // '/' and '_' bound the replacements and do not occur in the later tokens,
    // whose first characters '_' and '.' do not occur in the replacements.
    assert ImageDir[0] == '/' && LabelInfix[0] == '_' && LabelExt[0] == '.' && ImageInfix[0] == '_';
    ReplaceThree(prefix, middle, stem, LabelDir, ImageDir, LabelInfix, ImageInfix, LabelExt, ImageExt);
  }

  /** A path containing none of the three tokens is its own image path. */
  lemma Label2ImgPathFixesTokenFree(path: string)
    requires Absent(path, LabelDir) && Absent(path, LabelInfix) && Absent(path, LabelExt)
    ensures Label2ImgPath(path) == path
  {
    ReplaceAbsent(path, LabelDir, ImageDir);
    ReplaceAbsent(path, LabelInfix, ImageInfix);
    ReplaceAbsent(path, LabelExt, ImageExt);
  }
}
