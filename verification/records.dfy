/** Record builders: COCO image and annotation records, one vendor record at a
    time, and the batch of annotations of one image. */
module Records {
  import opened Outcomes
  import opened Categories

  /** The placeholder written as every annotation's area. */
  const DefaultArea: int := 100

  /** One vendor record of a label file: its `class` token and its
      `2d_bbox` as `[x_min, y_min, x_max, y_max]`. */
  datatype RawAnn = RawAnn(cls: string, bbox2d: seq<int>)

  datatype ImageEntry = ImageEntry(id: int, fileName: string, width: int, height: int)

  datatype AnnEntry = AnnEntry(id: int, imageId: int, categoryId: int, bbox: seq<int>, area: int, iscrowd: int)

  /** `gen_img_entry`, with the sensor resolution as default size. */
  function GenImgEntry(imgPath: string, imgIdx: int, width: int := 1920, height: int := 1208): (e: ImageEntry)
    ensures e.id == imgIdx && e.fileName == imgPath
    ensures e.width == width && e.height == height
  {
    ImageEntry(imgIdx, imgPath, width, height)
  }

  /** `box` is the corner-size form `[x, y, width, height]` of the box whose
      corners are `corners[0..2]` and `corners[2..4]`. */
  predicate CornerSize(box: seq<int>, corners: seq<int>)
  {
    |box| == 4 && |corners| >= 4 &&
    box[0] == corners[0] && box[1] == corners[1] &&
    box[0] + box[2] == corners[2] && box[1] + box[3] == corners[3]
  }

  /** `e` is the annotation built from `raw` with annotation id `id` for image
      `imgIdx` in the given style. */
  predicate BuiltFrom(e: AnnEntry, raw: RawAnn, id: int, imgIdx: int, style: string)
  {
    e.id == id && e.imageId == imgIdx &&
    ConvCategory(raw.cls, style) == Success(Some(e.categoryId)) &&
    CornerSize(e.bbox, raw.bbox2d) && e.area == DefaultArea && e.iscrowd == 0
  }

  /** The record is converted without an exception: its token is known and,
      unless ignored, its box has four numbers. */
  predicate RecordOk(raw: RawAnn, style: string)
  {
    var c := ConvCategory(raw.cls, style);
    c.Success? && (c.value.Some? ==> |raw.bbox2d| >= 4)
  }

  /** The record's category is kept, not ignored. */
  predicate IsKept(raw: RawAnn, style: string)
  {
    ConvCategory(raw.cls, style).Success? && ConvCategory(raw.cls, style).value.Some?
  }

  /** `gen_ann_entry`: the record and the next annotation id. An ignored
      category gives no record and leaves the counter alone; a kept one gives
      a record with the current id and the counter moves on by one. */
  function GenAnnEntry(raw: RawAnn, annIdx: int, imgIdx: int, style: string := A2d2Style)
    : (r: Result<(Option<AnnEntry>, int)>)
    ensures r.Success? <==> RecordOk(raw, style)
    ensures ConvCategory(raw.cls, style).Failure? ==> r == Failure(ConvCategory(raw.cls, style).error)
    ensures IsKept(raw, style) && |raw.bbox2d| < 4 ==> r == Failure(IndexError)
    ensures r.Success? && !IsKept(raw, style) ==> r.value == (None, annIdx)
    ensures r.Success? && IsKept(raw, style) ==>
              r.value.0.Some? && r.value.1 == annIdx + 1 && BuiltFrom(r.value.0.value, raw, annIdx, imgIdx, style)
  {
    match ConvCategory(raw.cls, style)
    case Failure(e) => Failure(e)
    case Success(None) => Success((None, annIdx))
    case Success(Some(categoryId)) =>
      if |raw.bbox2d| < 4 then Failure(IndexError)
      else
        var b := raw.bbox2d;
        var cocoBbox := [b[0], b[1], b[2] - b[0], b[3] - b[1]];
        Success((Some(AnnEntry(annIdx, imgIdx, categoryId, cocoBbox, DefaultArea, 0)), annIdx + 1))
  }

  /** The annotations of one image and the next annotation id. */
  datatype Batch = Batch(entries: seq<AnnEntry>, next: int)

  /** What `gen_ann_entries` computes over the records of one label file, in
      their order: the first failing record aborts the batch. */
  function AnnEntries(anns: seq<RawAnn>, annIdx: int, imgIdx: int, style: string): Result<Batch>
    decreases |anns|
  {
    if anns == [] then Success(Batch([], annIdx))
    else
      match AnnEntries(anns[..|anns| - 1], annIdx, imgIdx, style)
      case Failure(e) => Failure(e)
      case Success(b) =>
        match GenAnnEntry(anns[|anns| - 1], b.next, imgIdx, style)
        case Failure(e) => Failure(e)
        case Success((entry, next)) =>
          Success(Batch(if entry.Some? then b.entries + [entry.value] else b.entries, next))
  }

  /** The records whose category is kept, in order. */
  function Kept(anns: seq<RawAnn>, style: string): seq<RawAnn>
  {
    if anns == [] then []
    else if IsKept(anns[|anns| - 1], style) then Kept(anns[..|anns| - 1], style) + [anns[|anns| - 1]]
    else Kept(anns[..|anns| - 1], style)
  }

  /** `gen_ann_entries` over the already parsed records of one label file. */
  method GenAnnEntries(anns: seq<RawAnn>, annIdx: int, imgIdx: int, style: string) returns (r: Result<Batch>)
    ensures r == AnnEntries(anns, annIdx, imgIdx, style)
  {
    var entries: seq<AnnEntry> := [];
    var idx := annIdx;
    for i := 0 to |anns|
      invariant AnnEntries(anns[..i], annIdx, imgIdx, style) == Success(Batch(entries, idx))
    {
      assert anns[..i + 1][..i] == anns[..i];
      var res := GenAnnEntry(anns[i], idx, imgIdx, style);
      if res.Failure? {
        AnnEntriesFailureStops(anns, i + 1, annIdx, imgIdx, style);
        return Failure(res.error);
      }
      var (entry, next) := res.value;
      idx := next;
      if entry.Some? {
        entries := entries + [entry.value];
      }
    }
    assert anns[..|anns|] == anns;
    r := Success(Batch(entries, idx));
  }

  /** Once a prefix of the records fails, the whole batch fails with the
      same error. */
  lemma {:induction false} AnnEntriesFailureStops(anns: seq<RawAnn>, k: nat, annIdx: int, imgIdx: int, style: string)
    requires k <= |anns| && AnnEntries(anns[..k], annIdx, imgIdx, style).Failure?
    ensures AnnEntries(anns, annIdx, imgIdx, style) == AnnEntries(anns[..k], annIdx, imgIdx, style)
    decreases |anns| - k
  {
    if k == |anns| {
      assert anns[..k] == anns;
    } else {
      assert anns[..k + 1][..k] == anns[..k];
      AnnEntriesFailureStops(anns, k + 1, annIdx, imgIdx, style);
    }
  }

  /** The batch succeeds exactly when every record converts, whatever the
      starting counter. */
  lemma {:induction false} AnnEntriesSucceeds(anns: seq<RawAnn>, annIdx: int, imgIdx: int, style: string)
    ensures AnnEntries(anns, annIdx, imgIdx, style).Success? <==> forall r :: r in anns ==> RecordOk(r, style)
    decreases |anns|
  {
    if anns != [] {
      var init, last := anns[..|anns| - 1], anns[|anns| - 1];
      AnnEntriesSucceeds(init, annIdx, imgIdx, style);
      assert anns == init + [last];
      assert forall r :: r in anns <==> r in init || r == last;
    }
  }

  /** A successful batch holds one annotation per kept record, in record
      order, with consecutive ids from the input counter, all for the given
      image; the returned counter is the input counter plus their number. */
  lemma {:induction false} AnnEntriesSpec(anns: seq<RawAnn>, annIdx: int, imgIdx: int, style: string)
    requires AnnEntries(anns, annIdx, imgIdx, style).Success?
    ensures var b := AnnEntries(anns, annIdx, imgIdx, style).value;
      |b.entries| == |Kept(anns, style)| &&
      b.next == annIdx + |b.entries| &&
      forall j :: 0 <= j < |b.entries| ==> BuiltFrom(b.entries[j], Kept(anns, style)[j], annIdx + j, imgIdx, style)
    decreases |anns|
  {
    if anns != [] {
      AnnEntriesSpec(anns[..|anns| - 1], annIdx, imgIdx, style);
    }
  }

  /** In the native style nothing is ignored: every record is kept. */
  lemma {:induction false} A2d2KeepsAll(anns: seq<RawAnn>)
    requires forall r :: r in anns ==> r.cls in CategoryA2d2Idx
    ensures Kept(anns, A2d2Style) == anns
    decreases |anns|
  {
    if anns != [] {
      var init, last := anns[..|anns| - 1], anns[|anns| - 1];
      assert forall r :: r in init ==> r in anns;
      A2d2KeepsAll(init);
      assert last in anns;
      assert IsKept(last, A2d2Style);
      assert anns == init + [last];
    }
  }

  /** The worked example: in the Cityscapes style, a pedestrian box
      `[10, 20, 30, 50]` followed by an ignored utility vehicle, for image 7
      with next id 3, gives one annotation with id 3 and box `[10, 20, 20, 30]`,
      and the next id becomes 4. */
  lemma PedestrianAndIgnoredVehicle()
    ensures AnnEntries([RawAnn("Pedestrian", [10, 20, 30, 50]), RawAnn("UtilityVehicle", [0, 0, 5, 5])], 3, 7, CityscapesStyle)
            == Success(Batch([AnnEntry(3, 7, 24, [10, 20, 20, 30], 100, 0)], 4))
  {
    var anns := [RawAnn("Pedestrian", [10, 20, 30, 50]), RawAnn("UtilityVehicle", [0, 0, 5, 5])];
    var first := AnnEntry(3, 7, 24, [10, 20, 20, 30], 100, 0);
    assert anns[..1] == [anns[0]] && anns[..1][..0] == [];
    assert GenAnnEntry(anns[0], 3, 7, CityscapesStyle) == Success((Some(first), 4));
    assert AnnEntries(anns[..1][..0], 3, 7, CityscapesStyle) == Success(Batch([], 3));
    assert [] + [first] == [first];
    assert AnnEntries(anns[..1], 3, 7, CityscapesStyle) == Success(Batch([first], 4));
    assert GenAnnEntry(anns[1], 4, 7, CityscapesStyle) == Success((None, 4));
  }
}
