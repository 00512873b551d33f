/** Reading and writing the bounding-box subset of COCO JSON. */
module Coco {
  import opened Sequences
  import opened Wrappers
  import opened Geometry
  import opened SortedNames

  const BOUNDS_EPSILON := 0.001

  const ALLOWED_CLASSES: set<string> := {
    "person", "bicycle", "car", "motorcycle", "bus", "truck", "boat",
    "backpack", "suitcase", "traffic light", "fire hydrant", "stop sign"
  }

  // ---------------------------------------------------------------- documents

  /** A missing key is `None`. */
  datatype ImageJson = ImageJson(id: Option<int>, fileName: Option<string>, width: Option<real>, height: Option<real>)
  datatype CategoryJson = CategoryJson(id: Option<int>, name: Option<string>)
  datatype BboxJson = NotAnArray | Numbers(values: seq<real>)
  datatype AnnotationJson = AnnotationJson(id: Option<int>, imageId: Option<int>, categoryId: Option<int>, bbox: Option<BboxJson>)
  datatype Document = Document(images: Option<seq<ImageJson>>, annotations: Option<seq<AnnotationJson>>,
                               categories: Option<seq<CategoryJson>>)

  datatype CocoError =
    | MissingTopLevelKey
    | MissingImageKey(position: nat)
    | MissingCategoryKey(position: nat)
    | MissingAnnotationKey(position: nat)
    | UnknownImage(position: nat)
    | UnknownCategory(position: nat)
    | DisallowedCategory(position: nat)
    | MalformedBbox(position: nat)
    | NonPositiveBox(position: nat)
    | OutOfBounds(position: nat)

  datatype Image = Image(fileName: string, width: real, height: real)

  type Grouped = map<string, seq<Detection>>

  // ---------------------------------------------------------------- reading

  function AddImage(m: map<int, Image>, j: ImageJson, position: nat): Result<map<int, Image>, CocoError> {
    if j.id.None? || j.fileName.None? || j.width.None? || j.height.None? then Err(MissingImageKey(position))
    else Ok(m[j.id.value := Image(j.fileName.value, j.width.value, j.height.value)])
  }

  /** Images by id; a repeated id keeps the last entry. */
  function IndexImages(images: seq<ImageJson>): Result<map<int, Image>, CocoError> {
    if images == [] then Ok(map[]) else
    var last := |images| - 1;
    match IndexImages(images[..last])
    case Err(e) => Err(e)
    case Ok(m) => AddImage(m, images[last], last)
  }

  function AddCategory(m: map<int, string>, j: CategoryJson, position: nat): Result<map<int, string>, CocoError> {
    if j.id.None? || j.name.None? then Err(MissingCategoryKey(position)) else Ok(m[j.id.value := j.name.value])
  }

  function IndexCategories(categories: seq<CategoryJson>): Result<map<int, string>, CocoError> {
    if categories == [] then Ok(map[]) else
    var last := |categories| - 1;
    match IndexCategories(categories[..last])
    case Err(e) => Err(e)
    case Ok(m) => AddCategory(m, categories[last], last)
  }

  predicate InBounds(b: BoundingBox, width: real, height: real) {
    && b.x >= -BOUNDS_EPSILON && b.y >= -BOUNDS_EPSILON
    && b.x + b.width <= width + BOUNDS_EPSILON
    && b.y + b.height <= height + BOUNDS_EPSILON
  }

  function ReadBox(values: seq<real>): BoundingBox
    requires |values| == 4
  {
    BoundingBox(values[0], values[1], values[2], values[3])
  }

  /** One annotation: the file it belongs to and its detection, at full confidence. */
  function ReadAnnotation(a: AnnotationJson, position: nat, images: map<int, Image>, categories: map<int, string>)
    : Result<(string, Detection), CocoError>
  {
    if a.imageId.None? || a.categoryId.None? || a.bbox.None? then Err(MissingAnnotationKey(position))
    else if a.imageId.value !in images then Err(UnknownImage(position))
    else if a.categoryId.value !in categories then Err(UnknownCategory(position))
    else if categories[a.categoryId.value] !in ALLOWED_CLASSES then Err(DisallowedCategory(position))
    else if a.bbox.value.NotAnArray? || |a.bbox.value.values| != 4 then Err(MalformedBbox(position))
    else
      var box, image := ReadBox(a.bbox.value.values), images[a.imageId.value];
      if box.width <= 0.0 || box.height <= 0.0 then Err(NonPositiveBox(position))
      else if !InBounds(box, image.width, image.height) then Err(OutOfBounds(position))
      else Ok((image.fileName, Detection(categories[a.categoryId.value], 1.0, box, None)))
  }

  function Push(g: Grouped, entry: (string, Detection)): Grouped {
    g[entry.0 := (if entry.0 in g then g[entry.0] else []) + [entry.1]]
  }

  function ReadAnnotations(empty: Grouped, annotations: seq<AnnotationJson>, images: map<int, Image>, categories: map<int, string>)
    : Result<Grouped, CocoError>
  {
    if annotations == [] then Ok(empty) else
    var last := |annotations| - 1;
    match ReadAnnotations(empty, annotations[..last], images, categories)
    case Err(e) => Err(e)
    case Ok(g) =>
      match ReadAnnotation(annotations[last], last, images, categories)
      case Err(e) => Err(e)
      case Ok(entry) => Ok(Push(g, entry))
  }

  function FileNames(images: map<int, Image>): set<string> {
    set id | id in images :: images[id].fileName
  }

  function NoDetections(images: map<int, Image>): Grouped {
    map f | f in FileNames(images) :: []
  }

  function ParseOf(doc: Document): Result<Grouped, CocoError> {
    if doc.images.None? || doc.annotations.None? || doc.categories.None? then Err(MissingTopLevelKey) else
    match IndexImages(doc.images.value)
    case Err(e) => Err(e)
    case Ok(images) =>
      match IndexCategories(doc.categories.value)
      case Err(e) => Err(e)
      case Ok(categories) => ReadAnnotations(NoDetections(images), doc.annotations.value, images, categories)
  }

  lemma {:induction false} ImageErrorStays(images: seq<ImageJson>, n: nat)
    requires n <= |images| && IndexImages(images[..n]).Err?
    ensures IndexImages(images) == IndexImages(images[..n])
    decreases |images|
  {
    if n < |images| {
      TakeTake(images, n, |images| - 1);
      ImageErrorStays(images[..|images| - 1], n);
    } else {
      assert images[..n] == images;
    }
  }

  lemma {:induction false} CategoryErrorStays(categories: seq<CategoryJson>, n: nat)
    requires n <= |categories| && IndexCategories(categories[..n]).Err?
    ensures IndexCategories(categories) == IndexCategories(categories[..n])
    decreases |categories|
  {
    if n < |categories| {
      TakeTake(categories, n, |categories| - 1);
      CategoryErrorStays(categories[..|categories| - 1], n);
    } else {
      assert categories[..n] == categories;
    }
  }

  lemma {:induction false} AnnotationErrorStays(empty: Grouped, annotations: seq<AnnotationJson>, images: map<int, Image>,
                                                categories: map<int, string>, n: nat)
    requires n <= |annotations| && ReadAnnotations(empty, annotations[..n], images, categories).Err?
    ensures ReadAnnotations(empty, annotations, images, categories) == ReadAnnotations(empty, annotations[..n], images, categories)
    decreases |annotations|
  {
    if n < |annotations| {
      TakeTake(annotations, n, |annotations| - 1);
      AnnotationErrorStays(empty, annotations[..|annotations| - 1], images, categories, n);
    } else {
      assert annotations[..n] == annotations;
    }
  }

  method IndexImagesLoop(images: seq<ImageJson>) returns (r: Result<map<int, Image>, CocoError>)
    ensures r == IndexImages(images)
  {
    var indexed: map<int, Image> := map[];
    for position := 0 to |images|
      invariant IndexImages(images[..position]) == Ok(indexed)
    {
      TakeTake(images, position, position + 1);
      var step := AddImage(indexed, images[position], position);
      if step.Err? {
        ImageErrorStays(images, position + 1);
        return step;
      }
      indexed := step.value;
    }
    TakeAll(images);
    r := Ok(indexed);
  }

  method IndexCategoriesLoop(categories: seq<CategoryJson>) returns (r: Result<map<int, string>, CocoError>)
    ensures r == IndexCategories(categories)
  {
    var indexed: map<int, string> := map[];
    for position := 0 to |categories|
      invariant IndexCategories(categories[..position]) == Ok(indexed)
    {
      TakeTake(categories, position, position + 1);
      var step := AddCategory(indexed, categories[position], position);
      if step.Err? {
        CategoryErrorStays(categories, position + 1);
        return step;
      }
      indexed := step.value;
    }
    TakeAll(categories);
    r := Ok(indexed);
  }

  method ParseCocoAnnotations(doc: Document) returns (r: Result<Grouped, CocoError>)
    ensures r == ParseOf(doc)
  {
    if doc.images.None? || doc.annotations.None? || doc.categories.None? {
      return Err(MissingTopLevelKey);
    }
    var imagesById := IndexImagesLoop(doc.images.value);
    if imagesById.Err? {
      return Err(imagesById.error);
    }
    var categoriesById := IndexCategoriesLoop(doc.categories.value);
    if categoriesById.Err? {
      return Err(categoriesById.error);
    }
    var images, categories, annotations := imagesById.value, categoriesById.value, doc.annotations.value;
    var byFile := NoDetections(images);
    ghost var empty := byFile;
    for position := 0 to |annotations|
      invariant ReadAnnotations(empty, annotations[..position], images, categories) == Ok(byFile)
    {
      TakeTake(annotations, position, position + 1);
      var entry := ReadAnnotation(annotations[position], position, images, categories);
      if entry.Err? {
        AnnotationErrorStays(empty, annotations, images, categories, position + 1);
        return Err(entry.error);
      }
      byFile := Push(byFile, entry.value);
    }
    TakeAll(annotations);
    r := Ok(byFile);
  }

  // ---------------------------------------------------------------- writing

  type Sizes = map<string, (real, real)>

  /** `detections_by_file.get(file, [])`. */
  function DetectionsOf(g: Grouped, file: string): seq<Detection> {
    if file in g then g[file] else []
  }

  function Labels(g: Grouped): set<string> {
    set file, d | file in g && d in g[file] :: d.className
  }

  /** One more than the position of `x`. */
  function PositionOf(names: seq<string>, x: string): nat {
    if names == [] then 0 else if names[|names| - 1] == x then |names| else PositionOf(names[..|names| - 1], x)
  }

  function Tag(file: string, dets: seq<Detection>): seq<(string, Detection)> {
    seq(|dets|, i requires 0 <= i < |dets| => (file, dets[i]))
  }

  /** The detections of the listed files, in file order. */
  function Listed(files: seq<string>, g: Grouped): seq<(string, Detection)> {
    if files == [] then [] else
    var last := |files| - 1;
    Listed(files[..last], g) + Tag(files[last], DetectionsOf(g, files[last]))
  }

  function AnnotationOf(id: nat, entry: (string, Detection), files: seq<string>, labels: seq<string>): AnnotationJson {
    var b := entry.1.box;
    AnnotationJson(Some(id), Some(PositionOf(files, entry.0)), Some(PositionOf(labels, entry.1.className)),
                   Some(Numbers([b.x, b.y, b.width, b.height])))
  }

  function AnnotationsOf(entries: seq<(string, Detection)>, files: seq<string>, labels: seq<string>): seq<AnnotationJson> {
    seq(|entries|, i requires 0 <= i < |entries| => AnnotationOf(i + 1, entries[i], files, labels))
  }

  function ImagesOf(files: seq<string>, sizes: Sizes): seq<ImageJson>
    requires forall f :: f in files ==> f in sizes
  {
    seq(|files|, i requires 0 <= i < |files| =>
      ImageJson(Some(PositionOf(files, files[i])), Some(files[i]), Some(sizes[files[i]].0), Some(sizes[files[i]].1)))
  }

  function CategoriesOf(labels: seq<string>): seq<CategoryJson> {
    seq(|labels|, i requires 0 <= i < |labels| => CategoryJson(Some(PositionOf(labels, labels[i])), Some(labels[i])))
  }

  function WriteOf(sizes: Sizes, g: Grouped): Document {
    var files, labels := Sorted(sizes.Keys), Sorted(Labels(g));
    Document(Some(ImagesOf(files, sizes)), Some(AnnotationsOf(Listed(files, g), files, labels)), Some(CategoriesOf(labels)))
  }

  lemma OneMoreAnnotation(entries: seq<(string, Detection)>, e: (string, Detection), files: seq<string>, labels: seq<string>)
    ensures AnnotationsOf(entries + [e], files, labels) ==
      AnnotationsOf(entries, files, labels) + [AnnotationOf(|entries| + 1, e, files, labels)]
  {}

  /** The inner loop: one file's annotations, numbered on from those before. */
  method WriteFile(file: string, dets: seq<Detection>, files: seq<string>, labels: seq<string>,
                   before: seq<AnnotationJson>, ghost entries: seq<(string, Detection)>)
    returns (annotations: seq<AnnotationJson>)
    requires before == AnnotationsOf(entries, files, labels)
    ensures annotations == AnnotationsOf(entries + Tag(file, dets), files, labels)
  {
    annotations := before;
    ghost var tagged := Tag(file, dets);
    assert entries + tagged[..0] == entries;
    for d := 0 to |dets|
      invariant annotations == AnnotationsOf(entries + tagged[..d], files, labels)
    {
      OneMoreAnnotation(entries + tagged[..d], (file, dets[d]), files, labels);
      assert entries + tagged[..d + 1] == entries + tagged[..d] + [(file, dets[d])];
      annotations := annotations + [AnnotationOf(|annotations| + 1, (file, dets[d]), files, labels)];
    }
    assert tagged[..|dets|] == tagged;
  }

  lemma ListedOneMore(files: seq<string>, g: Grouped, f: nat)
    requires f < |files|
    ensures Listed(files[..f + 1], g) == Listed(files[..f], g) + Tag(files[f], DetectionsOf(g, files[f]))
  {
    TakeTake(files, f, f + 1);
  }

  method WriteCocoAnnotations(sizes: Sizes, detectionsByFile: Grouped) returns (doc: Document)
    ensures doc == WriteOf(sizes, detectionsByFile)
  {
    var fileNames, labels := Sorted(sizes.Keys), Sorted(Labels(detectionsByFile));
    var annotations: seq<AnnotationJson> := [];
    for f := 0 to |fileNames|
      invariant annotations == AnnotationsOf(Listed(fileNames[..f], detectionsByFile), fileNames, labels)
    {
      ListedOneMore(fileNames, detectionsByFile, f);
      annotations := WriteFile(fileNames[f], DetectionsOf(detectionsByFile, fileNames[f]), fileNames, labels,
                               annotations, Listed(fileNames[..f], detectionsByFile));
    }
    TakeAll(fileNames);
    doc := Document(Some(ImagesOf(fileNames, sizes)), Some(annotations), Some(CategoriesOf(labels)));
  }
}
