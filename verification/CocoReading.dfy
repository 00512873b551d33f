/** What the reader makes of any document. */
module CocoReading {
  import opened Sequences
  import opened Wrappers
  import opened Geometry
  import opened Coco

  // ---------------------------------------------------------------- one annotation

  /** What the reader accepts of a detection on an image of the given size. */
  ghost predicate Readable(d: Detection, size: (real, real)) {
    && d.className in {
         "person", "bicycle", "car", "motorcycle", "bus", "truck", "boat",
         "backpack", "suitcase", "traffic light", "fire hydrant", "stop sign"
       }
    && 0.0 < d.box.width && 0.0 < d.box.height
    && -0.001 <= d.box.x && d.box.x + d.box.width <= size.0 + 0.001
    && -0.001 <= d.box.y && d.box.y + d.box.height <= size.1 + 0.001
  }

  /** The annotation names a listed image and category, and its box is the four numbers x, y, width, height. */
  ghost predicate Denotes(a: AnnotationJson, images: map<int, Image>, categories: map<int, string>, image: Image, d: Detection) {
    && a.imageId.Some? && a.imageId.value in images && images[a.imageId.value] == image
    && a.categoryId.Some? && a.categoryId.value in categories && categories[a.categoryId.value] == d.className
    && a.bbox == Some(Numbers([d.box.x, d.box.y, d.box.width, d.box.height]))
    && d.confidence == 1.0 && d.trackId == None
  }

  lemma DenotedIsRead(a: AnnotationJson, position: nat, images: map<int, Image>, categories: map<int, string>, image: Image, d: Detection)
    requires Denotes(a, images, categories, image, d)
    ensures ReadAnnotation(a, position, images, categories).Ok? <==> Readable(d, (image.width, image.height))
    ensures Readable(d, (image.width, image.height)) ==>
      ReadAnnotation(a, position, images, categories) == Ok((image.fileName, d))
  {
    assert ReadBox(a.bbox.value.values) == d.box;
    assert d == Detection(d.className, 1.0, d.box, None);
  }

  lemma ReadIsDenoted(a: AnnotationJson, position: nat, images: map<int, Image>, categories: map<int, string>)
    returns (image: Image, d: Detection)
    requires ReadAnnotation(a, position, images, categories).Ok?
    ensures Denotes(a, images, categories, image, d)
  {
    image := images[a.imageId.value];
    d := ReadAnnotation(a, position, images, categories).value.1;
    assert a.bbox.value.values == [d.box.x, d.box.y, d.box.width, d.box.height];
  }

  /** An annotation is read exactly when it stands for a readable detection, which is then what is read, with
      the file of its image. */
  lemma AnnotationIsReadIff(a: AnnotationJson, position: nat, images: map<int, Image>, categories: map<int, string>,
                            file: string, d: Detection)
    ensures ReadAnnotation(a, position, images, categories) == Ok((file, d)) <==>
      exists image :: Denotes(a, images, categories, image, d) && Readable(d, (image.width, image.height)) && file == image.fileName
  {
    if ReadAnnotation(a, position, images, categories) == Ok((file, d)) {
      var image, d' := ReadIsDenoted(a, position, images, categories);
      DenotedIsRead(a, position, images, categories, image, d');
    }
    if image :| Denotes(a, images, categories, image, d) && Readable(d, (image.width, image.height)) && file == image.fileName {
      DenotedIsRead(a, position, images, categories, image, d);
    }
  }

  // ---------------------------------------------------------------- the indices

  ghost predicate ImageKeyed(j: ImageJson) { j.id.Some? && j.fileName.Some? && j.width.Some? && j.height.Some? }

  /** The last of the entries with this id. */
  ghost predicate LastImage(images: seq<ImageJson>, id: int, i: nat) {
    i < |images| && images[i].id == Some(id) && forall j :: i < j < |images| ==> images[j].id != Some(id)
  }

  ghost predicate IndexedBy(images: seq<ImageJson>, m: map<int, Image>) {
    && (forall i :: 0 <= i < |images| ==> ImageKeyed(images[i]) && images[i].id.value in m)
    && forall id :: id in m ==> exists i: nat ::
         LastImage(images, id, i) && m[id] == Image(images[i].fileName.value, images[i].width.value, images[i].height.value)
  }

  lemma IndexedOneMore(images: seq<ImageJson>, m: map<int, Image>, j: ImageJson)
    requires IndexedBy(images, m) && ImageKeyed(j)
    ensures IndexedBy(images + [j], m[j.id.value := Image(j.fileName.value, j.width.value, j.height.value)])
  {
    var more, m' := images + [j], m[j.id.value := Image(j.fileName.value, j.width.value, j.height.value)];
    forall id | id in m'
      ensures exists i: nat ::
        LastImage(more, id, i) && m'[id] == Image(more[i].fileName.value, more[i].width.value, more[i].height.value)
    {
      if id == j.id.value {
        assert LastImage(more, id, |images|);
      } else {
        var i: nat :| LastImage(images, id, i) &&
          m[id] == Image(images[i].fileName.value, images[i].width.value, images[i].height.value);
        assert LastImage(more, id, i) && more[i] == images[i];
      }
    }
  }

  ghost predicate AllKeyed(images: seq<ImageJson>) { forall i :: 0 <= i < |images| ==> ImageKeyed(images[i]) }

  lemma IndexStep(init: seq<ImageJson>, last: ImageJson, before: Result<map<int, Image>, CocoError>)
    requires before.Ok? <==> AllKeyed(init)
    requires before.Ok? ==> IndexedBy(init, before.value)
    ensures var r := if before.Err? then before else AddImage(before.value, last, |init|);
      && (r.Ok? <==> AllKeyed(init + [last]))
      && (r.Ok? ==> IndexedBy(init + [last], r.value))
  {
    if before.Ok? && ImageKeyed(last) {
      IndexedOneMore(init, before.value, last);
    }
    if before.Err? {
      var i :| 0 <= i < |init| && !ImageKeyed(init[i]);
      assert !ImageKeyed((init + [last])[i]);
    } else {
      assert (init + [last])[|init|] == last;
    }
  }

  /** The images are indexed exactly when each has all its keys, each id by its last entry. */
  lemma {:induction false} ImagesAreIndexed(images: seq<ImageJson>)
    ensures IndexImages(images).Ok? <==> AllKeyed(images)
    ensures IndexImages(images).Ok? ==> IndexedBy(images, IndexImages(images).value)
  {
    if images != [] {
      var init, last := images[..|images| - 1], images[|images| - 1];
      ImagesAreIndexed(init);
      InitLast(images);
      IndexStep(init, last, IndexImages(init));
    }
  }

  ghost predicate LastCategory(categories: seq<CategoryJson>, id: int, i: nat) {
    i < |categories| && categories[i].id == Some(id) && forall j :: i < j < |categories| ==> categories[j].id != Some(id)
  }

  ghost predicate NamedBy(categories: seq<CategoryJson>, m: map<int, string>) {
    && (forall i :: 0 <= i < |categories| ==>
         categories[i].id.Some? && categories[i].name.Some? && categories[i].id.value in m)
    && forall id :: id in m ==> exists i: nat :: LastCategory(categories, id, i) && m[id] == categories[i].name.value
  }

  lemma NamedOneMore(categories: seq<CategoryJson>, m: map<int, string>, j: CategoryJson)
    requires NamedBy(categories, m) && j.id.Some? && j.name.Some?
    ensures NamedBy(categories + [j], m[j.id.value := j.name.value])
  {
    var more, m' := categories + [j], m[j.id.value := j.name.value];
    forall id | id in m' ensures exists i: nat :: LastCategory(more, id, i) && m'[id] == more[i].name.value {
      if id == j.id.value {
        assert LastCategory(more, id, |categories|);
      } else {
        var i: nat :| LastCategory(categories, id, i) && m[id] == categories[i].name.value;
        assert LastCategory(more, id, i) && more[i] == categories[i];
      }
    }
  }

  /** Likewise the categories. */
  lemma {:induction false} CategoriesAreIndexed(categories: seq<CategoryJson>)
    ensures IndexCategories(categories).Ok? <==>
      forall i :: 0 <= i < |categories| ==> categories[i].id.Some? && categories[i].name.Some?
    ensures IndexCategories(categories).Ok? ==> NamedBy(categories, IndexCategories(categories).value)
  {
    if categories != [] {
      var init, last := categories[..|categories| - 1], categories[|categories| - 1];
      CategoriesAreIndexed(init);
      InitLast(categories);
      if IndexCategories(categories).Ok? {
        NamedOneMore(init, IndexCategories(init).value, last);
      } else if IndexCategories(init).Err? {
        var i :| 0 <= i < |init| && !(init[i].id.Some? && init[i].name.Some?);
        assert categories[i] == init[i];
      }
    }
  }

  // ---------------------------------------------------------------- the grouping

  /** The detections of `file` among the entries, in order. */
  function EntriesFor(entries: seq<(string, Detection)>, file: string): seq<Detection> {
    if entries == [] then [] else
    var last := entries[|entries| - 1];
    EntriesFor(entries[..|entries| - 1], file) + if last.0 == file then [last.1] else []
  }

  ghost predicate ReadAs(annotations: seq<AnnotationJson>, images: map<int, Image>, categories: map<int, string>,
                         entries: seq<(string, Detection)>) {
    && |entries| == |annotations|
    && forall i :: 0 <= i < |entries| ==> ReadAnnotation(annotations[i], i, images, categories) == Ok(entries[i])
  }

  ghost predicate GroupedBy(g: Grouped, files: set<string>, entries: seq<(string, Detection)>) {
    g.Keys == files && forall f :: f in files ==> g[f] == EntriesFor(entries, f)
  }

  lemma GroupedOneMore(g: Grouped, files: set<string>, entries: seq<(string, Detection)>, e: (string, Detection))
    requires GroupedBy(g, files, entries) && e.0 in files
    ensures GroupedBy(Push(g, e), files, entries + [e])
  {
    Snoc(entries, e);
    assert Push(g, e).Keys == files;
    forall f | f in files ensures Push(g, e)[f] == EntriesFor(entries + [e], f) {
      assert EntriesFor(entries, f) + [] == EntriesFor(entries, f);
    }
  }

  lemma FileIsListed(images: map<int, Image>, id: int)
    requires id in images
    ensures images[id].fileName in FileNames(images)
  {}

  lemma ReadFileIsListed(a: AnnotationJson, position: nat, images: map<int, Image>, categories: map<int, string>)
    requires ReadAnnotation(a, position, images, categories).Ok?
    ensures ReadAnnotation(a, position, images, categories).value.0 in FileNames(images)
  {
    FileIsListed(images, a.imageId.value);
  }

  lemma {:induction false} AnnotationsAreGrouped(annotations: seq<AnnotationJson>, images: map<int, Image>, categories: map<int, string>)
    returns (entries: seq<(string, Detection)>)
    requires ReadAnnotations(NoDetections(images), annotations, images, categories).Ok?
    ensures ReadAs(annotations, images, categories, entries)
    ensures GroupedBy(ReadAnnotations(NoDetections(images), annotations, images, categories).value, FileNames(images), entries)
  {
    if annotations == [] {
      entries := [];
    } else {
      var init, last := annotations[..|annotations| - 1], annotations[|annotations| - 1];
      var before := AnnotationsAreGrouped(init, images, categories);
      var e := ReadAnnotation(last, |init|, images, categories).value;
      entries := before + [e];
      ReadFileIsListed(last, |init|, images, categories);
      GroupedOneMore(ReadAnnotations(NoDetections(images), init, images, categories).value, FileNames(images), before, e);
    }
  }

  /** A document that is read has all its keys, each annotation stands for one detection, and the result lists,
      for each file with an image, that file's detections in document order. */
  lemma ReadingMeans(doc: Document) returns (images: map<int, Image>, categories: map<int, string>, entries: seq<(string, Detection)>)
    requires ParseOf(doc).Ok?
    ensures doc.images.Some? && IndexedBy(doc.images.value, images)
    ensures doc.categories.Some? && NamedBy(doc.categories.value, categories)
    ensures doc.annotations.Some? && ReadAs(doc.annotations.value, images, categories, entries)
    ensures GroupedBy(ParseOf(doc).value, set id | id in images :: images[id].fileName, entries)
  {
    ImagesAreIndexed(doc.images.value);
    CategoriesAreIndexed(doc.categories.value);
    images, categories := IndexImages(doc.images.value).value, IndexCategories(doc.categories.value).value;
    entries := AnnotationsAreGrouped(doc.annotations.value, images, categories);
  }

  // ---------------------------------------------------------------- refusals

  /** The first entry without all its keys is the one reported. */
  lemma MissingImageKeyIsFirst(images: seq<ImageJson>, p: nat)
    requires p < |images| && !ImageKeyed(images[p]) && forall i :: 0 <= i < p ==> ImageKeyed(images[i])
    ensures IndexImages(images) == Err(MissingImageKey(p))
  {
    ImagesAreIndexed(images[..p]);
    TakeOneMore(images, p);
    ImageErrorStays(images, p + 1);
  }

  lemma MissingCategoryKeyIsFirst(categories: seq<CategoryJson>, p: nat)
    requires p < |categories| && (categories[p].id.None? || categories[p].name.None?)
    requires forall i :: 0 <= i < p ==> categories[i].id.Some? && categories[i].name.Some?
    ensures IndexCategories(categories) == Err(MissingCategoryKey(p))
  {
    CategoriesAreIndexed(categories[..p]);
    TakeOneMore(categories, p);
    CategoryErrorStays(categories, p + 1);
  }

  lemma {:induction false} AnnotationsRead(empty: Grouped, annotations: seq<AnnotationJson>, images: map<int, Image>,
                                           categories: map<int, string>)
    requires forall i :: 0 <= i < |annotations| ==> ReadAnnotation(annotations[i], i, images, categories).Ok?
    ensures ReadAnnotations(empty, annotations, images, categories).Ok?
  {
    if annotations != [] {
      AnnotationsRead(empty, annotations[..|annotations| - 1], images, categories);
    }
  }

  /** A document is read exactly when it has its three keys, both indices can be built, and every annotation
      can be read. */
  lemma ReadIff(doc: Document)
    ensures ParseOf(doc).Ok? <==>
      (&& doc.images.Some? && doc.annotations.Some? && doc.categories.Some?
       && IndexImages(doc.images.value).Ok? && IndexCategories(doc.categories.value).Ok?
       && forall i :: 0 <= i < |doc.annotations.value| ==>
            ReadAnnotation(doc.annotations.value[i], i, IndexImages(doc.images.value).value,
                           IndexCategories(doc.categories.value).value).Ok?)
  {
    if ParseOf(doc).Ok? {
      var entries := AnnotationsAreGrouped(doc.annotations.value, IndexImages(doc.images.value).value,
                                           IndexCategories(doc.categories.value).value);
    } else if doc.images.Some? && doc.annotations.Some? && doc.categories.Some?
              && IndexImages(doc.images.value).Ok? && IndexCategories(doc.categories.value).Ok? {
      var images, categories := IndexImages(doc.images.value).value, IndexCategories(doc.categories.value).value;
      if forall i :: 0 <= i < |doc.annotations.value| ==> ReadAnnotation(doc.annotations.value[i], i, images, categories).Ok? {
        AnnotationsRead(NoDetections(images), doc.annotations.value, images, categories);
      }
    }
  }

  /** The first annotation that cannot be read decides the error. */
  lemma FirstBadAnnotationDecides(empty: Grouped, annotations: seq<AnnotationJson>, images: map<int, Image>,
                                  categories: map<int, string>, p: nat)
    requires p < |annotations| && ReadAnnotation(annotations[p], p, images, categories).Err?
    requires forall i :: 0 <= i < p ==> ReadAnnotation(annotations[i], i, images, categories).Ok?
    ensures ReadAnnotations(empty, annotations, images, categories) ==
      Err(ReadAnnotation(annotations[p], p, images, categories).error)
  {
    AnnotationsRead(empty, annotations[..p], images, categories);
    TakeOneMore(annotations, p);
    AnnotationErrorStays(empty, annotations, images, categories, p + 1);
  }

  /** Which check refuses an annotation: its keys, its image, its category, the category's class, its box. */
  lemma RefusalIs(a: AnnotationJson, p: nat, images: map<int, Image>, categories: map<int, string>)
    ensures var r, known := ReadAnnotation(a, p, images, categories), a.imageId.Some? && a.categoryId.Some? && a.bbox.Some?;
      && (r == Err(MissingAnnotationKey(p)) <==> !known)
      && (r == Err(UnknownImage(p)) <==> known && a.imageId.value !in images)
      && (r == Err(UnknownCategory(p)) <==> known && a.imageId.value in images && a.categoryId.value !in categories)
      && (r == Err(DisallowedCategory(p)) <==>
            known && a.imageId.value in images && a.categoryId.value in categories
            && categories[a.categoryId.value] !in ALLOWED_CLASSES)
      && (r in {Err(MalformedBbox(p)), Err(NonPositiveBox(p)), Err(OutOfBounds(p))} ==>
            known && a.imageId.value in images && a.categoryId.value in categories
            && categories[a.categoryId.value] in ALLOWED_CLASSES)
      && (r == Err(MalformedBbox(p)) ==> !(a.bbox.value.Numbers? && |a.bbox.value.values| == 4))
      && (r in {Err(NonPositiveBox(p)), Err(OutOfBounds(p))} ==> a.bbox.value.Numbers? && |a.bbox.value.values| == 4)
      && (r == Err(NonPositiveBox(p)) ==> a.bbox.value.values[2] <= 0.0 || a.bbox.value.values[3] <= 0.0)
      && (r == Err(OutOfBounds(p)) ==> a.bbox.value.values[2] > 0.0 && a.bbox.value.values[3] > 0.0)
  {}
}
