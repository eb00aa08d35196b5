# A2D2 to COCO annotation converter, modelled in Dafny

This project models the conversion logic of `tools/dataset_converters/a2d2.py`.
That script turns the 2D bounding boxes of the Audi A2D2 dataset into COCO
detection files, one per split (`train`, `val`, `test`). The model covers:

- **Category remapping** (`categories.dfy`). A vendor class token is looked up
  in the table of the target style, `"a2d2"` or `"cityscapes"`. The outcome is
  an id, an explicit ignore (`None`), or an exception. The exception is an
  invalid target for an unknown style and a `KeyError` for an unknown token.
  The static COCO category list of each style is also here.
- **Path pairing** (`paths.dfy`). A label path becomes an image path by three
  `str.replace` calls, applied in order. Each replaces every non-overlapping
  occurrence, left to right. The label paths are then zipped with their image
  paths.
- **Split slicing** (`splits.dfy`). A list is cut into consecutive slices of
  the given counts with two running indices. Python's clamping slice semantics
  are modelled.
- **Record builders and batch building** (`records.dfy`). An image record, one
  annotation built from one vendor record, and the annotations of one image.
  The batch threads the annotation-id counter through the image's records.
- **Per-split assembly** (`assembly.dfy`). The loop of `main` splits the pairs
  into train/val/test. It restarts both counters at 0 for each split, emits one
  image record per pair and appends that image's annotations. Each finished
  document is then handed to the JSON writer.

Python exceptions become `Failure` values of `Outcomes.Result`:

- `InvalidTarget` for an unknown style;
- `KeyError` for an unknown token;
- `IndexError` for a kept record whose box has fewer than four numbers;
- `NotImplemented` for the category list of the native style;
- `FileError` for a label file that cannot be read.

The loops of the source are methods, and each is tied to its own kind of
specification:

- `GenAnnEntries` and `AssembleSplit` are proved equal to specification
  functions (`AnnEntries` and `Assemble`) defined by recursion on the prefix.
  The properties are lemmas about those functions.
- `SplitSampleList` and `CollectImgLabelPathPairs` state their result element
  by element: a slice between prefix sums, or a pair built from one label
  path.
- `ConvertSplits` relates each handed-on document to `Assemble` of its split
  and names the exception that stops it.

Two doc comments of the source disagree with its code, and the model follows
the code in both cases:

- `a2d2.py:61` says ignored categories give -1. The table stores `None`
  (lines 41-45), and the caller tests for `None` (line 152).
- `a2d2.py:136-137` says `2d_bbox` is already `[x, y, width, height]`. Lines
  155-162 treat it as `[x_min, y_min, x_max, y_max]` and convert it.

## Model

| member | source | states |
|---|---|---|
| Categories.ConvCategory | tools/dataset_converters/a2d2.py:59-68 | Any style other than "a2d2"/"cityscapes" fails with an invalid-target error. With a valid style, the only failure is a `KeyError` on the token. The lookup succeeds exactly when the token is a key of that style's table. The native style never yields an ignore. |
| Categories.GenCatEntries | tools/dataset_converters/a2d2.py:212-229 | A category list is returned only for the Cityscapes style. The native style fails as not implemented, and any other style fails as an invalid target. |
| Categories.TablesKeyedByTokens | tools/dataset_converters/a2d2.py:13-46 | Both lookup tables are keyed by exactly the same fourteen vendor tokens. |
| Categories.A2d2IdsByPosition | tools/dataset_converters/a2d2.py:13-28 | In the native style, the i-th token gets id i. |
| Categories.A2d2LookupIsBijective | tools/dataset_converters/a2d2.py:13-28 | The fourteen tokens are distinct. Each native id lies in 0..13, no two tokens share an id, and no token is ignored. |
| Categories.CityscapesLookup | tools/dataset_converters/a2d2.py:30-57 | In the Cityscapes style every known token converts. It is ignored exactly when it is one of UtilityVehicle, Trailer, CaravanTransporter, EmergencyVehicle and Animal. Every id it does produce appears in the Cityscapes category list. |
| Categories.UnknownTokenFails | tools/dataset_converters/a2d2.py:63-66 | A token outside the tables fails with `KeyError` in both valid styles. It is never treated as an ignore. |
| Paths.ReplaceAbsent | tools/dataset_converters/a2d2.py:82-84 | `str.replace` leaves a string without the pattern unchanged. |
| Paths.ReplaceOnly | tools/dataset_converters/a2d2.py:82-84 | When the pattern occurs once, between `x` and `y`, `str.replace` rewrites exactly that occurrence: the result is `x + rep + y`. |
| Paths.OccursAfterSwap | tools/dataset_converters/a2d2.py:82-84 | Take a replacement whose first character is absent from the pattern, and a pattern whose first character is absent from the replacement. After the swap, no occurrence of the pattern overlaps the replacement; any occurrence was already there before the swap. |
| Paths.StillOnlyAfterSwap | tools/dataset_converters/a2d2.py:82-84 | A token that occurred once after the rewritten segment still occurs once, shifted by the change in length. |
| Paths.ReplaceThree | tools/dataset_converters/a2d2.py:82-84 | Three successive rewrites of uniquely placed, separated tokens give the layout with each token swapped for its replacement. |
| Paths.Label2ImgPathRewrites | tools/dataset_converters/a2d2.py:71-85 | Take `P + "/label3D/" + M + "_label3D_" + S + ".json"` in which each of the three tokens occurs only at its place. Its image path is `P + "/camera/" + M + "_camera_" + S + ".png"`. |
| Paths.Label2ImgPathFixesTokenFree | tools/dataset_converters/a2d2.py:71-85 | A path containing none of the three label tokens is its own image path. |
| Paths.CollectImgLabelPathPairs | tools/dataset_converters/a2d2.py:88-101 | There is one pair per label path, in the same order, and pair i is (image path of label i, label i). |
| Splits.Slice | tools/dataset_converters/a2d2.py:112 | Python slicing with non-negative bounds: in range it is the subsequence, it is empty when the start is at or past the end or the length, and an end past the length is clamped. |
| Splits.SumPrefix | tools/dataset_converters/a2d2.py:110-114 | The running index never exceeds the total of the counts. |
| Splits.SplitSampleList | tools/dataset_converters/a2d2.py:104-116 | There is one list per count. List i is the slice from the sum of the earlier counts to that sum plus count i. The loop keeps both indices equal to the running sum. |
| Splits.SlicesPartition | tools/dataset_converters/a2d2.py:104-116 | When the counts add up to the length of the input, list i has exactly count i elements and the lists concatenate back to the input. |
| Splits.ThreeWaySplit | tools/dataset_converters/a2d2.py:336-342 | With `train_N = tot_N - val_N - test_N`, the three lists are the consecutive blocks of sizes train_N, val_N and test_N, and together they are the whole input. |
| Records.GenImgEntry | tools/dataset_converters/a2d2.py:119-130 | The image record carries the given id and file path, with a default size of 1920 by 1208. |
| Records.GenAnnEntry | tools/dataset_converters/a2d2.py:133-174 | Building one annotation succeeds exactly when the token converts and a kept record has a four-number box. A lookup error is passed on, and a kept record with a short box is an `IndexError`. An ignored record gives no entry and leaves the counter unchanged. A kept record gives an entry and the counter plus one. That entry has the current id and the image id, the mapped category, the corner-size box `[x0, y0, x1 - x0, y1 - y0]`, area 100 and iscrowd 0. |
| Records.GenAnnEntries | tools/dataset_converters/a2d2.py:177-209 | The loop returns the batch function's result: the entries of the records in order, or the first record's exception. |
| Records.AnnEntriesFailureStops | tools/dataset_converters/a2d2.py:201-207 | The first record that raises aborts the batch with that error. |
| Records.AnnEntriesSucceeds | tools/dataset_converters/a2d2.py:201-209 | A batch succeeds exactly when every record of the label file converts. |
| Records.AnnEntriesSpec | tools/dataset_converters/a2d2.py:199-209 | The batch holds one entry per kept record, in record order. Ids are consecutive from the input counter, and every entry is for the given image. The returned counter is the input counter plus the number of entries. |
| Records.A2d2KeepsAll | tools/dataset_converters/a2d2.py:13-28 | In the native style no record with a known token is dropped. |
| Records.PedestrianAndIgnoredVehicle | tools/dataset_converters/a2d2.py:150-174 | Worked example in the Cityscapes style: a pedestrian box `[10, 20, 30, 50]` followed by an ignored utility vehicle gives one annotation with box `[10, 20, 20, 30]` and category 24. The counter moves from 3 to 4. |
| Assembly.AssembleSplit | tools/dataset_converters/a2d2.py:355-375 | The split loop returns the assembly function's result: the image and annotation lists with both counters started at 0. A missing label file or a failing record aborts the split. |
| Assembly.AssembleFailureStops | tools/dataset_converters/a2d2.py:360-372 | The first pair that raises aborts the split with that error. |
| Assembly.AssembleSucceeds | tools/dataset_converters/a2d2.py:360-372 | A split is assembled exactly when every pair's label file is readable and all its records convert. |
| Assembly.AssembleImages | tools/dataset_converters/a2d2.py:355-375 | There is one image per pair, in split order, including pairs without annotations. Image i has id i, the pair's image path and size 1920 by 1208. The final image counter is the number of pairs. |
| Assembly.AssembleAnnotationIds | tools/dataset_converters/a2d2.py:356-372 | Annotation ids are exactly 0..k-1 in order, where k is the number of kept records over the split's label files. The final counter is k. |
| Assembly.AssembleAnnotationsBuilt | tools/dataset_converters/a2d2.py:360-372 | Annotation j of a split is built with id j from the j-th kept record over the split's label files. It carries the image id of that record's pair, the mapped category, the corner-size box, area 100 and iscrowd 0. So each pair's annotations are exactly its own kept records, in order. The final counter is their number. |
| Assembly.AssembleAnnotationImages | tools/dataset_converters/a2d2.py:360-375 | Every annotation refers to one of the split's images, and annotations are grouped by image in split order. |
| Assembly.Blocks | tools/dataset_converters/a2d2.py:336-348 | The train, val and test blocks have sizes `tot_N - val_N - test_N`, `val_N` and `test_N` and concatenate to the pairs. |
| Assembly.DocumentIds | tools/dataset_converters/a2d2.py:353-381 | Each handed-on document numbers its images 0..m-1 and its annotations 0..k-1 on its own, because the counters restart per split. Every annotation refers to one of its images. |
| Assembly.ConvertSplits | tools/dataset_converters/a2d2.py:336-381 | The splits are processed in the order train, val, test. Each handed-on document is its split assembled from fresh counters, with the Cityscapes categories. Processing stops at the first exception, which is either the split's assembly error or the category-list error. In the native style no document is handed on. When there is no exception, all three are handed on. |

## Left out

- Argument parsing (`parse_args`), `mmcv.mkdir_or_exist` and `write_json_file` are left out. This covers the `isdir` check, the output file name and JSON serialisation, compact or indented. `ConvertSplits` returns the documents that would be written, in order, and treats the writer as never failing.
- File discovery and reading are left out: `glob.glob` (line 92) and `open`/`json.load` (lines 196-197). The label paths are a parameter. The parsed label files are a map from path to records, and a path missing from the map stands for a file that cannot be read.
- Randomness is left out: `random.seed(12)` and `random.shuffle` (lines 322, 334). `ConvertSplits` receives the pairs already shuffled, in whatever order the shuffle produced.
- ConvertSplits: a negative `train_N` (line 337, more validation and test samples than pairs) is excluded by the precondition `valN + testN <= |pairs|`. Python would then slice with negative indices. Counts are natural numbers throughout.
- The commented-out Cityscapes conversion block (lines 383-399) and the unused `--nproc` option are dead code.
- The JSON object of a label file is modelled as the sequence of its records in insertion order; the record keys are not kept. A record missing its `class` or `2d_bbox` key is excluded by typing.
- Bounding-box coordinates are integers. JSON floats are not modelled, and the code neither clamps nor validates them.
- Paths.Replace models `str.replace` only for a non-empty pattern. All three patterns used are non-empty.
- Paths.Label2ImgPathRewrites requires each token to occur only at its own place. Requiring only that `P`, `M` and `S` are token-free is not enough. For example, if `P` ends in `"/label3D"`, the string `"/label3D/"` first matches across the end of `P` and the start of `"/label3D/"`, so the leftmost match is not the intended one.
