/** What reading back a written document gives. */
module CocoRoundTrip {
  import opened Sequences
  import opened Wrappers
  import opened Geometry
  import opened SortedNames
  import opened Coco
  import opened CocoReading

  /** A detection as ground truth: full confidence, no track. */
  function AsTruth(d: Detection): Detection { Detection(d.className, 1.0, d.box, None) }

  function AllAsTruth(dets: seq<Detection>): seq<Detection> {
    seq(|dets|, i requires 0 <= i < |dets| => AsTruth(dets[i]))
  }

  ghost predicate AllReadable(sizes: Sizes, g: Grouped) {
    forall file, d :: file in sizes && d in DetectionsOf(g, file) ==> Readable(d, sizes[file])
  }

  /** The listed files' detections as ground truth, one entry per image. */
  function Restored(sizes: Sizes, g: Grouped): Grouped {
    map file | file in sizes :: AllAsTruth(DetectionsOf(g, file))
  }

  // ---------------------------------------------------------------- ids

  lemma {:induction false} PositionAt(names: seq<string>, i: nat)
    requires Distinct(names) && i < |names|
    ensures PositionOf(names, names[i]) == i + 1
  {
    if i < |names| - 1 {
      PositionAt(names[..|names| - 1], i);
    }
  }

  lemma PositionIn(names: seq<string>, x: string) returns (i: nat)
    requires Distinct(names) && x in names
    ensures i < |names| && names[i] == x && PositionOf(names, x) == i + 1
  {
    i :| i < |names| && names[i] == x;
    PositionAt(names, i);
  }

  // ---------------------------------------------------------------- the indices read back

  function SizedImage(file: string, sizes: Sizes): Image
    requires file in sizes
  {
    Image(file, sizes[file].0, sizes[file].1)
  }

  ghost predicate IndexesImages(m: map<int, Image>, files: seq<string>, sizes: Sizes, n: nat)
    requires n <= |files| && forall f :: f in files ==> f in sizes
  {
    && (forall id :: id in m <==> 1 <= id <= n)
    && forall id :: 1 <= id <= n ==> m[id] == SizedImage(files[id - 1], sizes)
  }

  lemma IndexOneMore(images: seq<ImageJson>, n: nat)
    requires n < |images| && IndexImages(images[..n]).Ok?
    ensures IndexImages(images[..n + 1]) == AddImage(IndexImages(images[..n]).value, images[n], n)
  {
    TakeOneMore(images, n);
  }

  lemma ImageReadsBack(m: map<int, Image>, files: seq<string>, sizes: Sizes, n: nat)
    requires Distinct(files) && n < |files| && forall f :: f in files ==> f in sizes
    requires IndexesImages(m, files, sizes, n)
    ensures var r := AddImage(m, ImagesOf(files, sizes)[n], n);
      r.Ok? && IndexesImages(r.value, files, sizes, n + 1)
  {
    PositionAt(files, n);
  }

  lemma {:induction false} ImagesReadBack(files: seq<string>, sizes: Sizes, n: nat)
    requires Distinct(files) && n <= |files| && forall f :: f in files ==> f in sizes
    ensures var r := IndexImages(ImagesOf(files, sizes)[..n]);
      r.Ok? && IndexesImages(r.value, files, sizes, n)
  {
    if n > 0 {
      ImagesReadBack(files, sizes, n - 1);
      IndexOneMore(ImagesOf(files, sizes), n - 1);
      ImageReadsBack(IndexImages(ImagesOf(files, sizes)[..n - 1]).value, files, sizes, n - 1);
    }
  }

  ghost predicate IndexesCategories(m: map<int, string>, labels: seq<string>, n: nat)
    requires n <= |labels|
  {
    && (forall id :: id in m <==> 1 <= id <= n)
    && forall id :: 1 <= id <= n ==> m[id] == labels[id - 1]
  }

  lemma {:induction false} CategoriesReadBack(labels: seq<string>, n: nat)
    requires Distinct(labels) && n <= |labels|
    ensures var r := IndexCategories(CategoriesOf(labels)[..n]);
      r.Ok? && IndexesCategories(r.value, labels, n)
  {
    if n > 0 {
      var categories := CategoriesOf(labels);
      CategoriesReadBack(labels, n - 1);
      TakeTake(categories, n - 1, n);
      PositionAt(labels, n - 1);
    }
  }

  // ---------------------------------------------------------------- the annotations read back

  /** The indices are those of a document written for `files` and `labels`. */
  ghost predicate Indexed(files: seq<string>, labels: seq<string>, sizes: Sizes, images: map<int, Image>, categories: map<int, string>) {
    && Distinct(files) && Distinct(labels)
    && (forall f :: f in files <==> f in sizes)
    && IndexesImages(images, files, sizes, |files|)
    && IndexesCategories(categories, labels, |labels|)
  }

  ghost predicate EntryReadable(entry: (string, Detection), sizes: Sizes) {
    entry.0 in sizes && Readable(entry.1, sizes[entry.0])
  }

  /** Reading the annotation written for an entry gives the entry back, or fails exactly when it is not readable. */
  lemma AnnotationReadsBack(id: nat, position: nat, entry: (string, Detection), files: seq<string>, labels: seq<string>,
                            sizes: Sizes, images: map<int, Image>, categories: map<int, string>)
    requires Indexed(files, labels, sizes, images, categories)
    requires entry.0 in files && entry.1.className in labels
    ensures var r := ReadAnnotation(AnnotationOf(id, entry, files, labels), position, images, categories);
      && (r.Ok? <==> EntryReadable(entry, sizes))
      && (r.Ok? ==> r.value == (entry.0, AsTruth(entry.1)))
  {
    var i := PositionIn(files, entry.0);
    var j := PositionIn(labels, entry.1.className);
    var a := AnnotationOf(id, entry, files, labels);
    assert ReadBox(a.bbox.value.values) == entry.1.box;
  }

  /** The grouping after all entries, over every listed file. */
  ghost predicate Groups(g: Grouped, entries: seq<(string, Detection)>, files: seq<string>) {
    && (forall f :: f in g <==> f in files)
    && forall f :: f in files ==> g[f] == AllAsTruth(EntriesFor(entries, f))
  }

  lemma PushGroups(g: Grouped, entries: seq<(string, Detection)>, e: (string, Detection), files: seq<string>)
    requires Groups(g, entries, files) && e.0 in files
    ensures Groups(Push(g, (e.0, AsTruth(e.1))), entries + [e], files)
  {
    var g', more := Push(g, (e.0, AsTruth(e.1))), entries + [e];
    assert more[..|entries|] == entries;
    forall f | f in files ensures g'[f] == AllAsTruth(EntriesFor(more, f)) {
      if f == e.0 {
        assert AllAsTruth(EntriesFor(entries, f) + [e.1]) == AllAsTruth(EntriesFor(entries, f)) + [AsTruth(e.1)];
      }
    }
  }

  ghost predicate Writable(entries: seq<(string, Detection)>, files: seq<string>, labels: seq<string>) {
    forall i :: 0 <= i < |entries| ==> entries[i].0 in files && entries[i].1.className in labels
  }

  ghost predicate ReadsBack(r: Result<Grouped, CocoError>, entries: seq<(string, Detection)>, files: seq<string>, sizes: Sizes) {
    && (r.Ok? <==> forall i :: 0 <= i < |entries| ==> EntryReadable(entries[i], sizes))
    && (r.Ok? ==> Groups(r.value, entries, files))
  }

  lemma ReadsBackStep(before: Result<Grouped, CocoError>, step: Result<(string, Detection), CocoError>,
                      r: Result<Grouped, CocoError>, entries: seq<(string, Detection)>, e: (string, Detection),
                      files: seq<string>, sizes: Sizes)
    requires ReadsBack(before, entries, files, sizes) && e.0 in files
    requires step.Ok? <==> EntryReadable(e, sizes)
    requires step.Ok? ==> step.value == (e.0, AsTruth(e.1))
    requires r == if before.Err? then before else if step.Err? then Err(step.error) else Ok(Push(before.value, step.value))
    ensures ReadsBack(r, entries + [e], files, sizes)
  {
    if before.Ok? {
      PushGroups(before.value, entries, e, files);
    }
    if r.Err? {
      if before.Ok? {
        assert !EntryReadable((entries + [e])[|entries|], sizes);
      } else {
        var i :| 0 <= i < |entries| && !EntryReadable(entries[i], sizes);
        assert !EntryReadable((entries + [e])[i], sizes);
      }
    }
  }

  lemma {:induction false} AnnotationsReadBack(entries: seq<(string, Detection)>, files: seq<string>, labels: seq<string>,
                                               sizes: Sizes, images: map<int, Image>, categories: map<int, string>,
                                               empty: Grouped)
    requires Indexed(files, labels, sizes, images, categories)
    requires Writable(entries, files, labels) && Groups(empty, [], files)
    ensures ReadsBack(ReadAnnotations(empty, AnnotationsOf(entries, files, labels), images, categories), entries, files, sizes)
  {
    if entries != [] {
      var init, e := entries[..|entries| - 1], entries[|entries| - 1];
      var all := AnnotationsOf(entries, files, labels);
      AnnotationsReadBack(init, files, labels, sizes, images, categories, empty);
      InitLast(entries);
      OneMoreAnnotation(init, e, files, labels);
      Snoc(AnnotationsOf(init, files, labels), all[|init|]);
      AnnotationReadsBack(|entries|, |init|, e, files, labels, sizes, images, categories);
      ReadsBackStep(ReadAnnotations(empty, AnnotationsOf(init, files, labels), images, categories),
                    ReadAnnotation(all[|init|], |init|, images, categories),
                    ReadAnnotations(empty, all, images, categories), init, e, files, sizes);
    }
  }

  // ---------------------------------------------------------------- the listing

  lemma {:induction false} EntriesForConcat(a: seq<(string, Detection)>, b: seq<(string, Detection)>, file: string)
    ensures EntriesFor(a + b, file) == EntriesFor(a, file) + EntriesFor(b, file)
  {
    if b == [] {
      assert a + b == a;
    } else {
      InitOfConcat(a, b);
      EntriesForConcat(a, b[..|b| - 1], file);
    }
  }

  lemma {:induction false} EntriesForTag(file: string, dets: seq<Detection>, f: string)
    ensures EntriesFor(Tag(file, dets), f) == if f == file then dets else []
  {
    if dets != [] {
      assert Tag(file, dets)[..|dets| - 1] == Tag(file, dets[..|dets| - 1]);
      EntriesForTag(file, dets[..|dets| - 1], f);
    }
  }

  /** The listing holds each listed file's detections, in order ... */
  lemma {:induction false} ListedFor(files: seq<string>, g: Grouped, f: string)
    requires Distinct(files)
    ensures EntriesFor(Listed(files, g), f) == if f in files then DetectionsOf(g, f) else []
  {
    if files != [] {
      var init, last := files[..|files| - 1], files[|files| - 1];
      ListedFor(init, g, f);
      InitLast(files);
      EntriesForConcat(Listed(init, g), Tag(last, DetectionsOf(g, last)), f);
      EntriesForTag(last, DetectionsOf(g, last), f);
    }
  }

  lemma TaggedAre(file: string, dets: seq<Detection>, e: (string, Detection))
    ensures e in Tag(file, dets) <==> e.0 == file && e.1 in dets
  {
    if e.0 == file && e.1 in dets {
      var i :| 0 <= i < |dets| && dets[i] == e.1;
      assert Tag(file, dets)[i] == e;
    }
  }

  /** ... and nothing else. */
  lemma {:induction false} ListedAre(files: seq<string>, g: Grouped, e: (string, Detection))
    ensures e in Listed(files, g) <==> e.0 in files && e.1 in DetectionsOf(g, e.0)
  {
    if files != [] {
      var init, last := files[..|files| - 1], files[|files| - 1];
      ListedAre(init, g, e);
      InitLast(files);
      TaggedAre(last, DetectionsOf(g, last), e);
    }
  }

  lemma ListedIsWritable(files: seq<string>, g: Grouped)
    ensures Writable(Listed(files, g), files, Sorted(Labels(g)))
  {
    var entries := Listed(files, g);
    forall i | 0 <= i < |entries| ensures entries[i].0 in files && entries[i].1.className in Sorted(Labels(g)) {
      assert entries[i] in entries;
      ListedAre(files, g, entries[i]);
      assert entries[i].1.className in Labels(g);
    }
  }

  // ---------------------------------------------------------------- the layout of a written document

  ghost predicate At(file: string, files: seq<string>, i: int) { 0 <= i < |files| && files[i] == file }

  /** Entries come file by file, in the order of `files`. */
  ghost predicate FileByFile(entries: seq<(string, Detection)>, files: seq<string>) {
    forall k, l, i, j :: 0 <= k < l < |entries| && At(entries[k].0, files, i) && At(entries[l].0, files, j) ==> i <= j
  }

  lemma {:induction false} ListedFileByFile(files: seq<string>, g: Grouped)
    requires Distinct(files)
    ensures FileByFile(Listed(files, g), files)
  {
    if files != [] {
      var n := |files| - 1;
      var init, entries := files[..n], Listed(files, g);
      var before := Listed(init, g);
      ListedFileByFile(init, g);
      forall k, l, i, j | 0 <= k < l < |entries| && At(entries[k].0, files, i) && At(entries[l].0, files, j)
        ensures i <= j
      {
        if l < |before| {
          ListedAre(init, g, before[k]);
          ListedAre(init, g, before[l]);
          assert before[k] in before && before[l] in before;
          assert At(before[k].0, init, i) && At(before[l].0, init, j);
        } else {
          assert entries[l].0 == files[n];
        }
      }
    }
  }

  ghost predicate ImageAt(j: ImageJson, id: int, file: string, size: (real, real)) {
    j == ImageJson(Some(id), Some(file), Some(size.0), Some(size.1))
  }

  /** Annotation `a` is for entry `e`: its image is file `files[f]`, its category `labels[l]`, counted from 1. */
  ghost predicate AnnotationAt(a: AnnotationJson, id: int, e: (string, Detection), files: seq<string>, f: nat,
                               labels: seq<string>, l: nat) {
    && f < |files| && files[f] == e.0
    && l < |labels| && labels[l] == e.1.className
    && a == AnnotationJson(Some(id), Some(f + 1), Some(l + 1),
                           Some(Numbers([e.1.box.x, e.1.box.y, e.1.box.width, e.1.box.height])))
  }

  ghost predicate AnnotationFor(a: AnnotationJson, id: int, e: (string, Detection), files: seq<string>, labels: seq<string>) {
    exists f: nat, l: nat :: AnnotationAt(a, id, e, files, f, labels, l)
  }

  ghost predicate ImagesLaidOut(images: seq<ImageJson>, files: seq<string>, sizes: Sizes)
    requires forall f :: f in files ==> f in sizes
  {
    |images| == |files| && forall i :: 0 <= i < |files| ==> ImageAt(images[i], i + 1, files[i], sizes[files[i]])
  }

  ghost predicate CategoriesLaidOut(categories: seq<CategoryJson>, labels: seq<string>) {
    |categories| == |labels| && forall i :: 0 <= i < |labels| ==> categories[i] == CategoryJson(Some(i + 1), Some(labels[i]))
  }

  ghost predicate AnnotationsLaidOut(annotations: seq<AnnotationJson>, entries: seq<(string, Detection)>,
                                     files: seq<string>, labels: seq<string>) {
    && |annotations| == |entries|
    && forall k :: 0 <= k < |entries| ==> AnnotationFor(annotations[k], k + 1, entries[k], files, labels)
  }

  lemma IndicesAreLaidOut(files: seq<string>, labels: seq<string>, sizes: Sizes)
    requires Distinct(files) && Distinct(labels) && forall f :: f in files ==> f in sizes
    ensures ImagesLaidOut(ImagesOf(files, sizes), files, sizes)
    ensures CategoriesLaidOut(CategoriesOf(labels), labels)
  {
    forall i | 0 <= i < |files| ensures PositionOf(files, files[i]) == i + 1 {
      PositionAt(files, i);
    }
    forall i | 0 <= i < |labels| ensures PositionOf(labels, labels[i]) == i + 1 {
      PositionAt(labels, i);
    }
  }

  lemma AnnotationIsFor(id: nat, e: (string, Detection), files: seq<string>, labels: seq<string>)
    requires Distinct(files) && Distinct(labels) && e.0 in files && e.1.className in labels
    ensures AnnotationFor(AnnotationOf(id, e, files, labels), id, e, files, labels)
  {
    var f := PositionIn(files, e.0);
    var l := PositionIn(labels, e.1.className);
    assert AnnotationAt(AnnotationOf(id, e, files, labels), id, e, files, f, labels, l);
  }

  lemma AnnotationsAreLaidOut(entries: seq<(string, Detection)>, files: seq<string>, labels: seq<string>)
    requires Distinct(files) && Distinct(labels) && Writable(entries, files, labels)
    ensures AnnotationsLaidOut(AnnotationsOf(entries, files, labels), entries, files, labels)
  {
    forall k | 0 <= k < |entries|
      ensures AnnotationFor(AnnotationsOf(entries, files, labels)[k], k + 1, entries[k], files, labels)
    {
      AnnotationIsFor(k + 1, entries[k], files, labels);
    }
  }

  /** The entries are the listed files' detections, file by file and in order within a file. */
  ghost predicate Lists(entries: seq<(string, Detection)>, files: seq<string>, g: Grouped) {
    && FileByFile(entries, files)
    && (forall e :: e in entries ==> e.0 in files)
    && forall f :: f in files ==> EntriesFor(entries, f) == DetectionsOf(g, f)
  }

  lemma ListedLists(files: seq<string>, g: Grouped)
    requires Distinct(files)
    ensures Lists(Listed(files, g), files, g)
  {
    ListedFileByFile(files, g);
    forall e | e in Listed(files, g) ensures e.0 in files {
      ListedAre(files, g, e);
    }
    forall f | f in files ensures EntriesFor(Listed(files, g), f) == DetectionsOf(g, f) {
      ListedFor(files, g, f);
    }
  }

  /** A written document numbers the files and the labels from 1, in ascending order, and the listed detections
      from 1; a box is written as x, y, width, height. */
  lemma WritingMeans(sizes: Sizes, g: Grouped) returns (files: seq<string>, labels: seq<string>, entries: seq<(string, Detection)>)
    ensures Ascending(files) && forall f :: f in files <==> f in sizes
    ensures Ascending(labels) && forall l :: l in labels <==> exists f, d :: f in g && d in g[f] && d.className == l
    ensures Lists(entries, files, g)
    ensures var doc := WriteOf(sizes, g);
      && doc.images.Some? && ImagesLaidOut(doc.images.value, files, sizes)
      && doc.categories.Some? && CategoriesLaidOut(doc.categories.value, labels)
      && doc.annotations.Some? && AnnotationsLaidOut(doc.annotations.value, entries, files, labels)
  {
    files, labels := Sorted(sizes.Keys), Sorted(Labels(g));
    entries := Listed(files, g);
    SortedIsAscending(sizes.Keys);
    SortedIsAscending(Labels(g));
    SortedIsDistinct(sizes.Keys);
    SortedIsDistinct(Labels(g));
    ListedLists(files, g);
    ListedIsWritable(files, g);
    IndicesAreLaidOut(files, labels, sizes);
    AnnotationsAreLaidOut(entries, files, labels);
  }

  // ---------------------------------------------------------------- round trips

  lemma IndicesReadBack(files: seq<string>, labels: seq<string>, sizes: Sizes)
    returns (images: map<int, Image>, categories: map<int, string>)
    requires Distinct(files) && Distinct(labels) && forall f :: f in files <==> f in sizes
    ensures IndexImages(ImagesOf(files, sizes)) == Ok(images)
    ensures IndexCategories(CategoriesOf(labels)) == Ok(categories)
    ensures Indexed(files, labels, sizes, images, categories)
  {
    ImagesReadBack(files, sizes, |files|);
    CategoriesReadBack(labels, |labels|);
    assert |ImagesOf(files, sizes)| == |files| && |CategoriesOf(labels)| == |labels|;
    TakeAll(ImagesOf(files, sizes));
    TakeAll(CategoriesOf(labels));
    images, categories := IndexImages(ImagesOf(files, sizes)).value, IndexCategories(CategoriesOf(labels)).value;
  }

  lemma GroupsIsRestored(r: Grouped, sizes: Sizes, g: Grouped, files: seq<string>)
    requires Distinct(files) && forall f :: f in files <==> f in sizes
    requires Groups(r, Listed(files, g), files)
    ensures r == Restored(sizes, g)
  {
    forall f | f in files ensures r[f] == AllAsTruth(DetectionsOf(g, f)) {
      ListedFor(files, g, f);
    }
    assert r.Keys == Restored(sizes, g).Keys;
  }

  lemma ParseIsReadAnnotations(doc: Document, images: map<int, Image>, categories: map<int, string>)
    requires doc.images.Some? && doc.categories.Some? && doc.annotations.Some?
    requires IndexImages(doc.images.value) == Ok(images) && IndexCategories(doc.categories.value) == Ok(categories)
    ensures ParseOf(doc) == ReadAnnotations(NoDetections(images), doc.annotations.value, images, categories)
  {}

  lemma EmptyGroups(images: map<int, Image>, files: seq<string>, sizes: Sizes)
    requires (forall f :: f in files ==> f in sizes) && IndexesImages(images, files, sizes, |files|)
    ensures Groups(NoDetections(images), [], files)
  {
    forall f ensures f in FileNames(images) <==> f in files {
      if f in files {
        var i :| 0 <= i < |files| && files[i] == f;
        assert i + 1 in images && images[i + 1].fileName == f;
      } else {
        forall id | id in images ensures images[id].fileName != f {
          assert images[id].fileName == files[id - 1];
        }
      }
    }
  }

  lemma WrittenReadsBack(sizes: Sizes, g: Grouped)
    ensures var files := Sorted(sizes.Keys);
      ReadsBack(ParseOf(WriteOf(sizes, g)), Listed(files, g), files, sizes)
  {
    var files, labels := Sorted(sizes.Keys), Sorted(Labels(g));
    SortedIsDistinct(sizes.Keys);
    SortedIsDistinct(Labels(g));
    var images, categories := IndicesReadBack(files, labels, sizes);
    EmptyGroups(images, files, sizes);
    ListedIsWritable(files, g);
    AnnotationsReadBack(Listed(files, g), files, labels, sizes, images, categories, NoDetections(images));
    ParseIsReadAnnotations(WriteOf(sizes, g), images, categories);
  }

  lemma EntriesReadable(sizes: Sizes, g: Grouped, files: seq<string>, entries: seq<(string, Detection)>)
    requires (forall f :: f in files <==> f in sizes) && entries == Listed(files, g)
    ensures AllReadable(sizes, g) <==> forall i :: 0 <= i < |entries| ==> EntryReadable(entries[i], sizes)
  {
    if forall i :: 0 <= i < |entries| ==> EntryReadable(entries[i], sizes) {
      forall file, d | file in sizes && d in DetectionsOf(g, file) ensures Readable(d, sizes[file]) {
        ListedAre(files, g, (file, d));
        var i :| 0 <= i < |entries| && entries[i] == (file, d);
        assert EntryReadable(entries[i], sizes);
      }
    } else {
      var i :| 0 <= i < |entries| && !EntryReadable(entries[i], sizes);
      assert entries[i] in entries;
      ListedAre(files, g, entries[i]);
    }
  }

  /** Reading a written document succeeds exactly when every listed detection is readable, and then gives each
      image's detections back in order, as ground truth; files without an image are not written. */
  lemma ParseOfWrite(sizes: Sizes, g: Grouped)
    ensures ParseOf(WriteOf(sizes, g)).Ok? <==> AllReadable(sizes, g)
    ensures AllReadable(sizes, g) ==> ParseOf(WriteOf(sizes, g)) == Ok(Restored(sizes, g))
  {
    var files := Sorted(sizes.Keys);
    var r := ParseOf(WriteOf(sizes, g));
    WrittenReadsBack(sizes, g);
    EntriesReadable(sizes, g, files, Listed(files, g));
    SortedIsDistinct(sizes.Keys);
    if r.Ok? {
      GroupsIsRestored(r.value, sizes, g, files);
    }
  }

  // ---------------------------------------------------------------- writing again

  lemma AnnotationsKeepBoxes(a: seq<(string, Detection)>, b: seq<(string, Detection)>, files: seq<string>, labels: seq<string>)
    requires |a| == |b|
    requires forall i :: 0 <= i < |a| ==> b[i] == (a[i].0, AsTruth(a[i].1))
    ensures AnnotationsOf(a, files, labels) == AnnotationsOf(b, files, labels)
  {}

  lemma {:induction false} ListedRestored(files: seq<string>, sizes: Sizes, g: Grouped)
    requires forall f :: f in files ==> f in sizes
    ensures var a, b := Listed(files, g), Listed(files, Restored(sizes, g));
      |a| == |b| && forall i :: 0 <= i < |a| ==> b[i] == (a[i].0, AsTruth(a[i].1))
  {
    if files != [] {
      ListedRestored(files[..|files| - 1], sizes, g);
    }
  }

  /** The detections whose file has an image. */
  function Kept(sizes: Sizes, g: Grouped): Grouped { map file | file in g && file in sizes :: g[file] }

  lemma LabelsRestored(sizes: Sizes, g: Grouped)
    ensures Labels(Restored(sizes, g)) == Labels(Kept(sizes, g))
  {
    var kept, restored := Kept(sizes, g), Restored(sizes, g);
    forall l | l in Labels(kept) ensures l in Labels(restored) {
      var file, d: Detection :| file in kept && d in kept[file] && d.className == l;
      assert AsTruth(d) in restored[file] by {
        var i :| 0 <= i < |g[file]| && g[file][i] == d;
        assert restored[file][i] == AsTruth(d);
      }
    }
    forall l | l in Labels(restored) ensures l in Labels(kept) {
      var file, d: Detection :| file in restored && d in restored[file] && d.className == l;
      var i :| 0 <= i < |restored[file]| && restored[file][i] == d;
      assert DetectionsOf(g, file)[i].className == l;
      assert file in kept && g[file][i] in kept[file];
    }
  }

  lemma CategoriesAreInjective(a: seq<string>, b: seq<string>)
    requires CategoriesOf(a) == CategoriesOf(b)
    ensures a == b
  {
    assert |CategoriesOf(a)| == |a| && |CategoriesOf(b)| == |b|;
    forall i | 0 <= i < |a| ensures a[i] == b[i] {
      assert CategoriesOf(a)[i] == CategoriesOf(b)[i];
    }
  }

  ghost predicate SameAnnotations(sizes: Sizes, g: Grouped, h: Grouped) {
    var files, labels := Sorted(sizes.Keys), Sorted(Labels(g));
    AnnotationsOf(Listed(files, g), files, labels) == AnnotationsOf(Listed(files, h), files, labels)
  }

  /** Documents for the same sizes agree when their labels and listings do; equal documents have equal labels. */
  lemma SameDocument(sizes: Sizes, g: Grouped, h: Grouped)
    ensures WriteOf(sizes, g) == WriteOf(sizes, h) ==> Labels(g) == Labels(h)
    ensures Labels(g) == Labels(h) && SameAnnotations(sizes, g, h) ==> WriteOf(sizes, g) == WriteOf(sizes, h)
  {
    var a, b := Sorted(Labels(g)), Sorted(Labels(h));
    assert WriteOf(sizes, g).categories.value == CategoriesOf(a);
    assert WriteOf(sizes, h).categories.value == CategoriesOf(b);
    if WriteOf(sizes, g) == WriteOf(sizes, h) {
      CategoriesAreInjective(a, b);
    }
  }

  lemma AnnotationsRestored(sizes: Sizes, g: Grouped)
    requires Labels(Restored(sizes, g)) == Labels(g)
    ensures SameAnnotations(sizes, Restored(sizes, g), g)
  {
    var files, labels := Sorted(sizes.Keys), Sorted(Labels(g));
    ListedRestored(files, sizes, g);
    AnnotationsKeepBoxes(Listed(files, g), Listed(files, Restored(sizes, g)), files, labels);
  }

  lemma KeptWithin(sizes: Sizes, g: Grouped)
    requires g.Keys <= sizes.Keys
    ensures Kept(sizes, g) == g
  {}

  lemma WriteOfRestored(sizes: Sizes, g: Grouped)
    ensures WriteOf(sizes, Restored(sizes, g)) == WriteOf(sizes, g) <==> Labels(g) == Labels(Kept(sizes, g))
    ensures g.Keys <= sizes.Keys ==> WriteOf(sizes, Restored(sizes, g)) == WriteOf(sizes, g)
  {
    var restored := Restored(sizes, g);
    LabelsRestored(sizes, g);
    SameDocument(sizes, restored, g);
    if Labels(restored) == Labels(g) {
      AnnotationsRestored(sizes, g);
    }
    if g.Keys <= sizes.Keys {
      KeptWithin(sizes, g);
    }
  }

  /** Writing what was read back gives the same document exactly when every label used anywhere is used by a
      file that has an image; in particular whenever the detections are keyed within the images. */
  lemma WriteOfParse(sizes: Sizes, g: Grouped)
    requires AllReadable(sizes, g)
    ensures ParseOf(WriteOf(sizes, g)).Ok?
    ensures WriteOf(sizes, ParseOf(WriteOf(sizes, g)).value) == WriteOf(sizes, g) <==> Labels(g) == Labels(Kept(sizes, g))
    ensures g.Keys <= sizes.Keys ==> WriteOf(sizes, ParseOf(WriteOf(sizes, g)).value) == WriteOf(sizes, g)
  {
    ParseOfWrite(sizes, g);
    WriteOfRestored(sizes, g);
  }
}
