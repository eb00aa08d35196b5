/** Per-split assembly: each split restarts both id counters at 0, emits one
    image record per pair and appends that image's annotations. */
module Assembly {
  import opened Outcomes
  import opened Categories
  import opened Paths
  import opened Splits
  import opened Records

  /** Parsed label files by path. A path missing from the map is a label file
      that cannot be opened or parsed. */
  type LabelFiles = map<string, seq<RawAnn>>

  /** The lists and counters of one split after some of its pairs. */
  datatype Progress = Progress(images: seq<ImageEntry>, annotations: seq<AnnEntry>, imgIdx: int, annIdx: int)

  /** What the split loop of `main` computes for one split; the first failing
      pair aborts the split. */
  function Assemble(split: seq<SamplePair>, files: LabelFiles, style: string): Result<Progress>
    decreases |split|
  {
    if split == [] then Success(Progress([], [], 0, 0))
    else
      match Assemble(split[..|split| - 1], files, style)
      case Failure(e) => Failure(e)
      case Success(p) =>
        var pair := split[|split| - 1];
        if pair.labelPath !in files then Failure(FileError(pair.labelPath))
        else
          match AnnEntries(files[pair.labelPath], p.annIdx, p.imgIdx, style)
          case Failure(e) => Failure(e)
          case Success(b) =>
            Success(Progress(p.images + [GenImgEntry(pair.imgPath, p.imgIdx)],
                             p.annotations + b.entries, p.imgIdx + 1, b.next))
  }

  /** The loop body of `main` for one split (lines 355-375). */
  method AssembleSplit(split: seq<SamplePair>, files: LabelFiles, style: string) returns (r: Result<Progress>)
    ensures r == Assemble(split, files, style)
  {
    var imgIdx, annIdx := 0, 0;
    var imgEntries: seq<ImageEntry> := [];
    var annEntries: seq<AnnEntry> := [];
    for i := 0 to |split|
      invariant Assemble(split[..i], files, style) == Success(Progress(imgEntries, annEntries, imgIdx, annIdx))
    {
      assert split[..i + 1][..i] == split[..i];
      var pair := split[i];
      imgEntries := imgEntries + [GenImgEntry(pair.imgPath, imgIdx)];
      if pair.labelPath !in files {
        AssembleFailureStops(split, i + 1, files, style);
        return Failure(FileError(pair.labelPath));
      }
      var batch := GenAnnEntries(files[pair.labelPath], annIdx, imgIdx, style);
      if batch.Failure? {
        AssembleFailureStops(split, i + 1, files, style);
        return Failure(batch.error);
      }
      annEntries := annEntries + batch.value.entries;
      annIdx := batch.value.next;
      imgIdx := imgIdx + 1;
    }
    assert split[..|split|] == split;
    r := Success(Progress(imgEntries, annEntries, imgIdx, annIdx));
  }

  /** Once a prefix of the split fails, the whole split fails with the same
      error. */
  lemma {:induction false} AssembleFailureStops(split: seq<SamplePair>, k: nat, files: LabelFiles, style: string)
    requires k <= |split| && Assemble(split[..k], files, style).Failure?
    ensures Assemble(split, files, style) == Assemble(split[..k], files, style)
    decreases |split| - k
  {
    if k == |split| {
      assert split[..k] == split;
    } else {
      assert split[..k + 1][..k] == split[..k];
      AssembleFailureStops(split, k + 1, files, style);
    }
  }

  /** The label file of the pair can be read and all its records convert. */
  predicate PairOk(pair: SamplePair, files: LabelFiles, style: string)
  {
    pair.labelPath in files && forall r :: r in files[pair.labelPath] ==> RecordOk(r, style)
  }

  /** A split is assembled exactly when every pair's label file is readable
      and all its records convert; any other case aborts it. */
  lemma {:induction false} AssembleSucceeds(split: seq<SamplePair>, files: LabelFiles, style: string)
    ensures Assemble(split, files, style).Success? <==> forall i :: 0 <= i < |split| ==> PairOk(split[i], files, style)
    decreases |split|
  {
    if split != [] {
      var init := split[..|split| - 1];
      AssembleSucceeds(init, files, style);
      var p := Assemble(init, files, style);
      var pair := split[|split| - 1];
      if p.Success? && pair.labelPath in files {
        AnnEntriesSucceeds(files[pair.labelPath], p.value.annIdx, p.value.imgIdx, style);
      }
    }
  }

  /** Number of kept records over the label files of the split. */
  function KeptTotal(split: seq<SamplePair>, files: LabelFiles, style: string): nat
  {
    if split == [] then 0
    else
      var pair := split[|split| - 1];
      KeptTotal(split[..|split| - 1], files, style) +
      (if pair.labelPath in files then |Kept(files[pair.labelPath], style)| else 0)
  }

  /** The images of an assembled split: ids 0..m-1, one per pair in split
      order whether or not it has annotations, each with the sensor size. */
  lemma {:induction false} AssembleImages(split: seq<SamplePair>, files: LabelFiles, style: string)
    requires Assemble(split, files, style).Success?
    ensures var p := Assemble(split, files, style).value;
      p.imgIdx == |p.images| == |split| &&
      forall i :: 0 <= i < |split| ==> p.images[i] == ImageEntry(i, split[i].imgPath, 1920, 1208)
    decreases |split|
  {
    if split != [] {
      AssembleImages(split[..|split| - 1], files, style);
    }
  }

  /** The annotation ids of an assembled split are 0..k-1, with k the number
      of kept records over its label files. */
  lemma {:induction false} AssembleAnnotationIds(split: seq<SamplePair>, files: LabelFiles, style: string)
    requires Assemble(split, files, style).Success?
    ensures var p := Assemble(split, files, style).value;
      p.annIdx == |p.annotations| == KeptTotal(split, files, style) &&
      forall j :: 0 <= j < |p.annotations| ==> p.annotations[j].id == j
    decreases |split|
  {
    if split != [] {
      var init := split[..|split| - 1];
      AssembleAnnotationIds(init, files, style);
      var p := Assemble(init, files, style).value;
      AnnEntriesSpec(files[split[|split| - 1].labelPath], p.annIdx, p.imgIdx, style);
    }
  }

  /** The kept records over the label files of the split, in order, each
      tagged with the index of its pair. */
  function KeptRecords(split: seq<SamplePair>, files: LabelFiles, style: string): seq<(nat, RawAnn)>
  {
    if split == [] then []
    else
      var pair := split[|split| - 1];
      var kept := if pair.labelPath in files then Kept(files[pair.labelPath], style) else [];
      KeptRecords(split[..|split| - 1], files, style) +
      seq(|kept|, k requires 0 <= k < |kept| => (|split| - 1, kept[k]))
  }

  /** Annotation j of an assembled split is built, with id j, from the j-th
      kept record over its label files, for the image of that record's pair:
      each pair's annotations are its own kept records, in order. */
  lemma {:induction false} AssembleAnnotationsBuilt(split: seq<SamplePair>, files: LabelFiles, style: string)
    requires Assemble(split, files, style).Success?
    ensures var p, kr := Assemble(split, files, style).value, KeptRecords(split, files, style);
      |p.annotations| == p.annIdx == |kr| &&
      forall j :: 0 <= j < |kr| ==> BuiltFrom(p.annotations[j], kr[j].1, j, kr[j].0, style)
    decreases |split|
  {
    if split != [] {
      var init := split[..|split| - 1];
      AssembleAnnotationsBuilt(init, files, style);
      AssembleImages(init, files, style);
      var p, kr0 := Assemble(init, files, style).value, KeptRecords(init, files, style);
      var rs := files[split[|split| - 1].labelPath];
      AnnEntriesSpec(rs, p.annIdx, p.imgIdx, style);
      var b, kept := AnnEntries(rs, p.annIdx, p.imgIdx, style).value, Kept(rs, style);
      var annotations, kr := Assemble(split, files, style).value.annotations, KeptRecords(split, files, style);
      assert annotations == p.annotations + b.entries;
      assert kr == kr0 + seq(|kept|, k requires 0 <= k < |kept| => (|split| - 1, kept[k]));
      forall j | |kr0| <= j < |kr|
        ensures BuiltFrom(annotations[j], kr[j].1, j, kr[j].0, style)
      {
        assert annotations[j] == b.entries[j - |kr0|];
        assert kr[j] == (|split| - 1, kept[j - |kr0|]);
      }
    }
  }

  /** Every annotation of an assembled split refers to one of its images, and
      the annotations are grouped by image in split order. */
  lemma {:induction false} AssembleAnnotationImages(split: seq<SamplePair>, files: LabelFiles, style: string)
    requires Assemble(split, files, style).Success?
    ensures var p := Assemble(split, files, style).value;
      (forall j :: 0 <= j < |p.annotations| ==> 0 <= p.annotations[j].imageId < |split|) &&
      (forall j, k :: 0 <= j < k < |p.annotations| ==> p.annotations[j].imageId <= p.annotations[k].imageId)
    decreases |split|
  {
    if split != [] {
      var init := split[..|split| - 1];
      AssembleAnnotationImages(init, files, style);
      AssembleImages(init, files, style);
      var p := Assemble(init, files, style).value;
      AnnEntriesSpec(files[split[|split| - 1].labelPath], p.annIdx, p.imgIdx, style);
    }
  }

  /** One output document, as handed to `write_json_file`. */
  datatype CocoFile = CocoFile(split: string, categories: seq<CategoryEntry>,
                               images: seq<ImageEntry>, annotations: seq<AnnEntry>)

  const SplitNames: seq<string> := ["train", "val", "test"]

  /** The three splits cut from the (already shuffled) pairs: the first
      `len - val - test`, then `val`, then `test` pairs. */
  function Blocks(pairs: seq<SamplePair>, valN: nat, testN: nat): (blocks: seq<seq<SamplePair>>)
    requires valN + testN <= |pairs|
    ensures |blocks| == 3 && blocks[0] + blocks[1] + blocks[2] == pairs
    ensures |blocks[0]| == |pairs| - valN - testN && |blocks[1]| == valN && |blocks[2]| == testN
  {
    var trainN := |pairs| - valN - testN;
    var blocks := [pairs[..trainN], pairs[trainN..trainN + valN], pairs[trainN + valN..]];
    assert blocks[0] + blocks[1] + blocks[2] == pairs;
    blocks
  }

  /** `doc` is the document of the named split: its pairs assembled from
      counters at 0, with the Cityscapes category list. */
  predicate DocumentOf(doc: CocoFile, name: string, split: seq<SamplePair>, files: LabelFiles, style: string)
  {
    var a := Assemble(split, files, style);
    a.Success? && doc == CocoFile(name, CategoriesCityscapes, a.value.images, a.value.annotations)
  }

  /** Every handed-on document numbers its images 0..m-1 and its annotations
      0..k-1 on its own, and each annotation refers to one of its images:
      the counters restart for each split. */
  lemma DocumentIds(doc: CocoFile, name: string, split: seq<SamplePair>, files: LabelFiles, style: string)
    requires DocumentOf(doc, name, split, files, style)
    ensures |doc.images| == |split|
    ensures forall i :: 0 <= i < |doc.images| ==> doc.images[i].id == i
    ensures forall j :: 0 <= j < |doc.annotations| ==>
              doc.annotations[j].id == j && 0 <= doc.annotations[j].imageId < |doc.images|
  {
    AssembleImages(split, files, style);
    AssembleAnnotationIds(split, files, style);
    AssembleAnnotationImages(split, files, style);
  }

  /** The conversion of `main` after the pairs are collected and shuffled:
      split them, assemble each split with fresh counters, and hand each
      finished document on, stopping at the first exception. `written` holds
      the documents handed on before it. */
  method ConvertSplits(pairs: seq<SamplePair>, valN: nat, testN: nat, files: LabelFiles, style: string)
    returns (written: seq<CocoFile>, failure: Option<Error>)
    requires valN + testN <= |pairs|
    ensures |written| <= 3 && (failure.None? <==> |written| == 3)
    ensures GenCatEntries(style).Failure? ==> written == []
    ensures forall k :: 0 <= k < |written| ==>
              DocumentOf(written[k], SplitNames[k], Blocks(pairs, valN, testN)[k], files, style)
    ensures failure.Some? ==>
              var a := Assemble(Blocks(pairs, valN, testN)[|written|], files, style);
              (a.Failure? && failure.value == a.error) ||
              (a.Success? && GenCatEntries(style).Failure? && failure.value == GenCatEntries(style).error)
  {
    var totN := |pairs|;
    var trainN := totN - valN - testN;
    var splits := SplitSampleList(pairs, [trainN, valN, testN]);
    ThreeWaySplit(pairs, valN, testN, splits);
    ghost var blocks := Blocks(pairs, valN, testN);
    assert splits == blocks;
    written := [];
    for k := 0 to 3
      invariant |written| == k
      invariant GenCatEntries(style).Failure? ==> written == []
      invariant forall k' :: 0 <= k' < k ==> DocumentOf(written[k'], SplitNames[k'], blocks[k'], files, style)
    {
      var assembled := AssembleSplit(splits[k], files, style);
      if assembled.Failure? {
        return written, Some(assembled.error);
      }
      var catEntries := GenCatEntries(style);
      if catEntries.Failure? {
        return written, Some(catEntries.error);
      }
      written := written + [CocoFile(SplitNames[k], catEntries.value,
                                     assembled.value.images, assembled.value.annotations)];
    }
    failure := None;
  }
}
