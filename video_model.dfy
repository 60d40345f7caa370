/** The Video, Category, SiteLocation and Watch models
    (localtv/models.py): the display date, the submitter, the thumbnail
    files, the category tree, site administrators and recorded views. */
module VideoModel {
  import opened Common
  import opened Strings
  import Sorting

  /** Video.when: when_published when known, else when_submitted. */
  function When(v: Video): (t: Time)
    ensures v.whenPublished.Some? ==> t == v.whenPublished.value
    ensures v.whenPublished.None? ==> t == v.whenSubmitted
  {
    if v.whenPublished.Some? then v.whenPublished.value else v.whenSubmitted
  }

  /** Video.submitter: the video's own user, else the user of the feed it
      came from, else the user of its saved search. */
  function Submitter(v: Video, feeds: map<nat, Feed>, searches: map<nat, SavedSearch>): (u: Option<nat>)
    requires v.feed.Some? ==> v.feed.value in feeds
    requires v.search.Some? ==> v.search.value in searches
    ensures v.user.Some? ==> u == v.user
    ensures v.user.None? && v.feed.Some? ==> u == feeds[v.feed.value].user
    ensures v.user.None? && v.feed.None? && v.search.Some? ==> u == searches[v.search.value].user
    ensures v.user.None? && v.feed.None? && v.search.None? ==> u.None?
  {
    if v.user.Some? then v.user
    else if v.feed.Some? then feeds[v.feed.value].user
    else if v.search.Some? then searches[v.search.value].user
    else None
  }

  /** A video with a user of its own is credited to that user whatever
      its feed or search says. */
  lemma SubmitterPrefersOwnUser(v: Video, feeds: map<nat, Feed>, searches: map<nat, SavedSearch>, other: map<nat, Feed>)
    requires v.user.Some?
    requires v.feed.Some? ==> v.feed.value in feeds && v.feed.value in other
    requires v.search.Some? ==> v.search.value in searches
    ensures Submitter(v, feeds, searches) == Submitter(v, other, searches)
  {
  }

  /** Video.strip_description: the description passed through
      strip_tags, which is a parameter here; nothing else changes. */
  function StripDescription(v: Video, stripTags: string -> string): (r: Video)
    ensures r.description == stripTags(v.description)
    ensures r.(description := v.description) == v
  {
    v.(description := stripTags(v.description))
  }

  // ---------------------------------------------------------------- thumbnails

  /** VIDEO_THUMB_SIZES */
  const VideoThumbSizes: seq<(int, int)> := [(500, 281), (142, 104)]

  const ThumbDir := "localtv/video_thumbs/"

  /** get_original_thumb_storage_path */
  function OriginalThumbPath(id: nat, extension: string): (p: string)
    ensures StartsWith(p, ThumbDir)
  {
    ThumbDir + ShowNat(id) + "/orig." + extension
  }

  /** get_resized_thumb_storage_path */
  function ResizedThumbPath(id: nat, width: nat, height: nat): (p: string)
    ensures StartsWith(p, ThumbDir)
  {
    ThumbDir + ShowNat(id) + "/" + ShowNat(width) + "x" + ShowNat(height) + ".png"
  }

  /** The position of the first `c` in `s`. */
  function IndexOf(s: string, c: char): (k: nat)
    requires c in s
    ensures k < |s| && s[k] == c
  {
    if s[0] == c then 0 else 1 + IndexOf(s[1..], c)
  }

  lemma {:induction false} IndexOfCut(a: string, c: char, x: string)
    requires c !in a
    ensures IndexOf(a + [c] + x, c) == |a|
  {
    if a != [] {
      assert (a + [c] + x)[1..] == a[1..] + [c] + x;
      IndexOfCut(a[1..], c, x);
    }
  }

  /** Two strings cut at the first occurrence of `c` agree on both sides. */
  lemma CutAtFirst(a: string, b: string, c: char, x: string, y: string)
    requires c !in a && c !in b
    requires a + [c] + x == b + [c] + y
    ensures a == b && x == y
  {
    var s := a + [c] + x;
    IndexOfCut(a, c, x);
    IndexOfCut(b, c, y);
    assert a == s[..|a|] == b;
    assert x == s[|a| + 1..] == y;
  }

  lemma ShowNatInjective(m: nat, n: nat)
    requires ShowNat(m) == ShowNat(n)
    ensures m == n
  {
    DigitsOfShowNat(m);
    DigitsOfShowNat(n);
  }

  lemma DigitsHaveNo(s: string, c: char)
    requires AllDigits(s) && !IsDigit(c)
    ensures c !in s
  {
  }

  /** The part of a resized path after the video's directory. */
  function SizeName(width: nat, height: nat): string {
    ShowNat(width) + "x" + ShowNat(height) + ".png"
  }

  lemma ResizedPathParts(id: nat, width: nat, height: nat)
    ensures ResizedThumbPath(id, width, height) == ThumbDir + (ShowNat(id) + ['/'] + SizeName(width, height))
  {
  }

  lemma SizeNameInjective(w1: nat, h1: nat, w2: nat, h2: nat)
    requires SizeName(w1, h1) == SizeName(w2, h2)
    ensures w1 == w2 && h1 == h2
  {
    var a1, a2 := ShowNat(h1) + ".png", ShowNat(h2) + ".png";
    assert SizeName(w1, h1) == ShowNat(w1) + ['x'] + a1;
    assert SizeName(w2, h2) == ShowNat(w2) + ['x'] + a2;
    DigitsHaveNo(ShowNat(w1), 'x');
    DigitsHaveNo(ShowNat(w2), 'x');
    CutAtFirst(ShowNat(w1), ShowNat(w2), 'x', a1, a2);
    ShowNatInjective(w1, w2);
    assert ShowNat(h1) == a1[..|a1| - 4];
    assert ShowNat(h2) == a2[..|a2| - 4];
    ShowNatInjective(h1, h2);
  }

  /** Different videos, or different sizes of one video, never share a
      resized thumbnail file. */
  lemma ResizedThumbPathInjective(id1: nat, w1: nat, h1: nat, id2: nat, w2: nat, h2: nat)
    requires ResizedThumbPath(id1, w1, h1) == ResizedThumbPath(id2, w2, h2)
    ensures id1 == id2 && w1 == w2 && h1 == h2
  {
    var t1, t2 := ShowNat(id1) + ['/'] + SizeName(w1, h1), ShowNat(id2) + ['/'] + SizeName(w2, h2);
    ResizedPathParts(id1, w1, h1);
    ResizedPathParts(id2, w2, h2);
    assert t1 == (ThumbDir + t1)[|ThumbDir|..];
    assert t2 == (ThumbDir + t2)[|ThumbDir|..];
    DigitsHaveNo(ShowNat(id1), '/');
    DigitsHaveNo(ShowNat(id2), '/');
    CutAtFirst(ShowNat(id1), ShowNat(id2), '/', SizeName(w1, h1), SizeName(w2, h2));
    ShowNatInjective(id1, id2);
    SizeNameInjective(w1, h1, w2, h2);
  }

  /** The original and a resized thumbnail never share a file: a size is
      written in digits and the original's name starts with 'o'. */
  lemma OriginalAndResizedDiffer(id: nat, extension: string, width: nat, height: nat)
    ensures OriginalThumbPath(id, extension) != ResizedThumbPath(id, width, height)
  {
    var o := OriginalThumbPath(id, extension);
    var r := ResizedThumbPath(id, width, height);
    var k := |ThumbDir + ShowNat(id) + "/"|;
    assert o[k] == 'o';
    assert r[k] == ShowNat(width)[0];
  }

  /** Where resize_thumbnail pastes an image of the fitted size (w, h) on
      a transparent (W, H) canvas; None when the fitted image already has
      the canvas size and is stored as it is. Python 2's `/` on ints
      floors, as Dafny's `/` does for a positive divisor. */
  function PasteOffset(width: int, height: int, w: int, h: int): (r: Option<(int, int)>)
    ensures r.None? <==> (w, h) == (width, height)
    ensures r.Some? && h < height ==> r.value == (0, (height - h) / 2)
    ensures r.Some? && h >= height ==> r.value == ((width - w) / 2, 0)
  {
    if (w, h) == (width, height) then None
    else if h < height then Some((0, (height - h) / 2))
    else Some(((width - w) / 2, 0))
  }

  /** Only one axis is ever offset, and an image that fits the canvas is
      centred on that axis: it lies inside the canvas with margins that
      differ by at most one pixel. */
  lemma PasteCentred(width: int, height: int, w: int, h: int)
    requires 0 <= w <= width && 0 <= h <= height
    requires PasteOffset(width, height, w, h).Some?
    ensures var (x, y) := PasteOffset(width, height, w, h).value;
            (x == 0 || y == 0) &&
            0 <= x && x + w <= width && 0 <= y && y + h <= height &&
            (h < height ==> 0 <= (height - h - y) - y <= 1) &&
            (h == height ==> 0 <= (width - w - x) - x <= 1)
  {
  }

  /** What is stored in the file storage: an original image in its own
      format, or a PNG canvas holding an image of size `content` pasted at
      `pasteAt`. */
  datatype StoredFile =
    | OriginalImage(format: string, size: (int, int))
    | Png(width: int, height: int, pasteAt: (int, int), content: (int, int))

  /** default_storage, as a map from paths to files. */
  class Storage {
    var files: map<string, StoredFile>

    constructor (files: map<string, StoredFile>)
      ensures this.files == files
    {
      this.files := files;
    }
  }

  /** The PNG resize_thumbnail writes for one size: the fitted image as
      it is, or pasted on a canvas of exactly the target size. */
  function ResizedFile(width: int, height: int, fitted: (int, int)): (f: StoredFile)
    ensures f.Png? && f.width == width && f.height == height
    ensures f.content == fitted
    ensures PasteOffset(width, height, fitted.0, fitted.1).Some? ==>
              f.pasteAt == PasteOffset(width, height, fitted.0, fitted.1).value
    ensures fitted == (width, height) ==> f.pasteAt == (0, 0)
  {
    var off := PasteOffset(width, height, fitted.0, fitted.1);
    Png(width, height, if off.Some? then off.value else (0, 0), fitted)
  }

  /** The files written for the first `n` sizes. */
  function ResizedFiles(id: nat, image: (int, int), fit: ((int, int), (int, int)) -> (int, int), n: nat)
    : (m: map<string, StoredFile>)
    requires n <= |VideoThumbSizes|
    ensures forall i :: 0 <= i < n ==>
              var (W, H) := VideoThumbSizes[i];
              ResizedThumbPath(id, W, H) in m && m[ResizedThumbPath(id, W, H)] == ResizedFile(W, H, fit(image, (W, H)))
    ensures forall p :: p in m ==> exists i :: 0 <= i < n && p == ResizedThumbPath(id, VideoThumbSizes[i].0, VideoThumbSizes[i].1)
  {
    if n == 0 then map[]
    else
      var (W, H) := VideoThumbSizes[n - 1];
      var m := ResizedFiles(id, image, fit, n - 1);
      assert VideoThumbSizes[0] != VideoThumbSizes[1];
      DistinctSizesDistinctPaths(id, W, H);
      m[ResizedThumbPath(id, W, H) := ResizedFile(W, H, fit(image, (W, H)))]
  }

  lemma DistinctSizesDistinctPaths(id: nat, W: nat, H: nat)
    ensures forall w: nat, h: nat :: (w, h) != (W, H) ==> ResizedThumbPath(id, w, h) != ResizedThumbPath(id, W, H)
  {
    forall w: nat, h: nat | (w, h) != (W, H)
      ensures ResizedThumbPath(id, w, h) != ResizedThumbPath(id, W, H)
    {
      if ResizedThumbPath(id, w, h) == ResizedThumbPath(id, W, H) {
        ResizedThumbPathInjective(id, w, h, id, W, H);
      }
    }
  }

  lemma ResizedFilesStep(m: map<string, StoredFile>, id: nat, image: (int, int),
                         fit: ((int, int), (int, int)) -> (int, int), i: nat)
    requires i < |VideoThumbSizes|
    ensures var (W, H) := VideoThumbSizes[i];
            (m + ResizedFiles(id, image, fit, i))[ResizedThumbPath(id, W, H) := ResizedFile(W, H, fit(image, (W, H)))]
            == m + ResizedFiles(id, image, fit, i + 1)
  {
    var (W, H) := VideoThumbSizes[i];
    UnionUpdate(m, ResizedFiles(id, image, fit, i), ResizedThumbPath(id, W, H), ResizedFile(W, H, fit(image, (W, H))));
  }

  /** Video.resize_thumbnail: for each size, the old file is deleted and
      a W x H PNG is saved at the size's path. `fit` stands for PIL's
      thumbnail(), giving the fitted size of `image` within a box. */
  method ResizeThumbnail(storage: Storage, id: nat, image: (int, int), fit: ((int, int), (int, int)) -> (int, int))
    modifies storage
    ensures storage.files == old(storage.files) + ResizedFiles(id, image, fit, |VideoThumbSizes|)
  {
    var i := 0;
    while i < |VideoThumbSizes|
      invariant 0 <= i <= |VideoThumbSizes|
      invariant storage.files == old(storage.files) + ResizedFiles(id, image, fit, i)
    {
      var (width, height) := VideoThumbSizes[i];
      var fitted := fit(image, (width, height));
      var path := ResizedThumbPath(id, width, height);
      var file := ResizedFile(width, height, fitted);
      ghost var before := storage.files;
      storage.files := storage.files - {path};
      storage.files := storage.files[path := file];
      RemoveThenUpdate(before, path, file);
      ResizedFilesStep(old(storage.files), id, image, fit, i);
      i := i + 1;
    }
  }

  /** Every resized thumbnail is a canvas of exactly its size, stored at
      its own path. */
  lemma ResizedThumbnailsHaveTheirSize(id: nat, image: (int, int), fit: ((int, int), (int, int)) -> (int, int), i: nat)
    requires i < |VideoThumbSizes|
    ensures var (W, H) := VideoThumbSizes[i];
            var m := ResizedFiles(id, image, fit, |VideoThumbSizes|);
            ResizedThumbPath(id, W, H) in m && m[ResizedThumbPath(id, W, H)].Png? &&
            m[ResizedThumbPath(id, W, H)].width == W && m[ResizedThumbPath(id, W, H)].height == H
  {
  }

  /** An opened image: its PIL format name and its size. */
  datatype Image = Image(format: string, size: (int, int))

  /** Video.save_thumbnail_from_file: an unreadable image fails with
      CannotOpenImageUrl and touches nothing; otherwise the extension is
      the lower-cased format, the original replaces the file at its path,
      the resized versions are written and the video has a thumbnail. */
  method SaveThumbnailFromFile(v: Video, storage: Storage, image: Option<Image>,
                               fit: ((int, int), (int, int)) -> (int, int))
    returns (r: Result<Video, string>)
    modifies storage
    ensures image.None? ==> r == Err("CannotOpenImageUrl") && storage.files == old(storage.files)
    ensures image.Some? ==> r.Ok? && r.value == v.(thumbnailExtension := Lower(image.value.format), hasThumbnail := true)
    ensures image.Some? ==>
              storage.files == old(storage.files)[OriginalThumbPath(v.id, Lower(image.value.format)) := OriginalImage(image.value.format, image.value.size)]
                               + ResizedFiles(v.id, image.value.size, fit, |VideoThumbSizes|)
  {
    if image.None? {
      return Err("CannotOpenImageUrl");
    }
    var ext := Lower(image.value.format);
    var path := OriginalThumbPath(v.id, ext);
    var original := OriginalImage(image.value.format, image.value.size);
    storage.files := storage.files - {path};
    storage.files := storage.files[path := original];
    assert storage.files == old(storage.files)[path := original];
    ResizeThumbnail(storage, v.id, image.value.size, fit);
    r := Ok(v.(thumbnailExtension := ext, hasThumbnail := true));
  }

  // ---------------------------------------------------------------- categories

  /** The ids of a category's ancestors, nearest first, following parent
      links from `p` for at most `fuel` steps; None when the chain does
      not end within that many steps or names a missing category. */
  function Ancestors(cats: map<nat, Category>, p: Option<nat>, fuel: nat): (r: Option<seq<nat>>)
    decreases fuel
  {
    if p.None? then Some([])
    else if fuel == 0 || p.value !in cats then None
    else
      var rest := Ancestors(cats, cats[p.value].parent, fuel - 1);
      if rest.None? then None else Some([p.value] + rest.value)
  }

  /** A chain that ends within some number of steps ends the same way with
      more. */
  lemma {:induction false} AncestorsFuel(cats: map<nat, Category>, p: Option<nat>, fuel: nat, more: nat)
    requires Ancestors(cats, p, fuel).Some? && fuel <= more
    ensures Ancestors(cats, p, more) == Ancestors(cats, p, fuel)
    decreases fuel
  {
    if p.Some? {
      AncestorsFuel(cats, cats[p.value].parent, fuel - 1, more - 1);
    }
  }

  /** The parent links from `c` reach a root. A chain without a cycle has
      at most one link per stored category, so this is the acyclicity the
      source relies on for its loop to stop. */
  ghost predicate ParentChainEnds(cats: map<nat, Category>, c: Category) {
    Ancestors(cats, c.parent, |cats|).Some?
  }

  /** Category.depth: a counter loop following parent links. */
  method Depth(cats: map<nat, Category>, c: Category) returns (depth: nat)
    requires ParentChainEnds(cats, c)
    ensures depth == |Ancestors(cats, c.parent, |cats|).value|
  {
    depth := 0;
    var parent := c.parent;
    ghost var fuel: nat := |cats|;
    while parent.Some?
      invariant Ancestors(cats, parent, fuel).Some?
      invariant depth + |Ancestors(cats, parent, fuel).value| == |Ancestors(cats, c.parent, |cats|).value|
      decreases fuel
    {
      depth := depth + 1;
      parent := cats[parent.value].parent;
      fuel := fuel - 1;
    }
  }

  /** A child is one level deeper than its parent. */
  lemma ChildDepth(cats: map<nat, Category>, c: Category)
    requires ParentChainEnds(cats, c) && c.parent.Some?
    ensures c.parent.value in cats && ParentChainEnds(cats, cats[c.parent.value])
    ensures |Ancestors(cats, c.parent, |cats|).value| == |Ancestors(cats, cats[c.parent.value].parent, |cats|).value| + 1
  {
    var p := cats[c.parent.value];
    AncestorsFuel(cats, p.parent, |cats| - 1, |cats|);
  }

  /** A category's name as a sort key (Meta.ordering = ['name']). */
  function NameKey(c: Category): seq<int> {
    seq(|c.name|, i requires 0 <= i < |c.name| => c.name[i] as int)
  }

  /** The site's root categories, by name. */
  function Roots(cats: seq<Category>, site: nat): (r: seq<Category>)
    ensures forall c :: c in r <==> c in cats && c.site == site && c.parent.None?
  {
    Sorting.SortBy(Filter(cats, (c: Category) => c.site == site && c.parent.None?), NameKey, false)
  }

  /** child_set.all(): the categories whose parent is `id`, by name. */
  function Children(cats: seq<Category>, id: nat): (r: seq<Category>)
    ensures forall c :: c in r <==> c in cats && c.parent == Some(id)
  {
    Sorting.SortBy(Filter(cats, (c: Category) => c.parent == Some(id)), NameKey, false)
  }

  /** accumulate(): each category followed by its descendants, in
      pre-order; `children` is child_set.all() and `fuel` bounds the depth
      of the recursion. */
  function Accumulate(children: nat -> seq<Category>, level: seq<Category>, fuel: nat): seq<Category>
    decreases fuel, |level|
  {
    if level == [] || fuel == 0 then []
    else [level[0]] + Accumulate(children, children(level[0].id), fuel - 1) + Accumulate(children, level[1..], fuel)
  }

  /** The children function lists only categories with that parent. */
  ghost predicate ChildrenOf(cats: seq<Category>, children: nat -> seq<Category>) {
    forall id: nat, c :: c in children(id) ==> c in cats && c.parent == Some(id)
  }

  /** Every entry of `r` is in `level` or comes after its parent. */
  ghost predicate ParentsFirst(r: seq<Category>, level: seq<Category>) {
    forall i :: 0 <= i < |r| ==> r[i] in level || HasParentBefore(r, i)
  }

  ghost predicate HasParentBefore(r: seq<Category>, i: nat)
    requires i < |r|
  {
    r[i].parent.Some? && exists j :: 0 <= j < i && r[j].id == r[i].parent.value
  }

  /** Everything accumulate() lists is a category of the level or comes
      after its parent. */
  lemma {:induction false} AccumulateParentsFirst(cats: seq<Category>, children: nat -> seq<Category>,
                                                 level: seq<Category>, fuel: nat)
    requires ChildrenOf(cats, children)
    ensures ParentsFirst(Accumulate(children, level, fuel), level)
    decreases fuel, |level|
  {
    if level != [] && fuel != 0 {
      var h := level[0];
      var kids := children(h.id);
      var a := Accumulate(children, kids, fuel - 1);
      var b := Accumulate(children, level[1..], fuel);
      AccumulateParentsFirst(cats, children, kids, fuel - 1);
      AccumulateParentsFirst(cats, children, level[1..], fuel);
      var r := [h] + a + b;
      assert r == Accumulate(children, level, fuel);
      forall i | 0 <= i < |r|
        ensures r[i] in level || HasParentBefore(r, i)
      {
        if i == 0 {
        } else if i <= |a| {
          ParentBeforeInKids(h, a, b, kids, i);
        } else {
          ParentBeforeInRest(h, a, b, level[1..], i);
          assert r[i] in level[1..] ==> r[i] in level;
        }
      }
    }
  }

  /** An entry of the children's part follows its parent `h` or a parent
      listed earlier among the children. */
  lemma ParentBeforeInKids(h: Category, a: seq<Category>, b: seq<Category>, kids: seq<Category>, i: nat)
    requires 1 <= i <= |a|
    requires forall c :: c in kids ==> c.parent == Some(h.id)
    requires ParentsFirst(a, kids)
    ensures HasParentBefore([h] + a + b, i)
  {
    var r := [h] + a + b;
    assert r[i] == a[i - 1];
    if a[i - 1] in kids {
      assert r[0].id == r[i].parent.value;
    } else {
      assert HasParentBefore(a, i - 1);
      var j :| 0 <= j < i - 1 && a[j].id == a[i - 1].parent.value;
      assert r[j + 1] == a[j];
    }
  }

  /** An entry of the siblings' part is a sibling or follows a parent
      listed earlier among them. */
  lemma ParentBeforeInRest(h: Category, a: seq<Category>, b: seq<Category>, rest: seq<Category>, i: nat)
    requires |a| < i < 1 + |a| + |b|
    requires ParentsFirst(b, rest)
    ensures ([h] + a + b)[i] in rest || HasParentBefore([h] + a + b, i)
  {
    var r := [h] + a + b;
    var k := i - 1 - |a|;
    assert r[i] == b[k];
    if b[k] !in rest {
      assert HasParentBefore(b, k);
      var j :| 0 <= j < k && b[j].id == b[k].parent.value;
      assert r[j + 1 + |a|] == b[j];
    }
  }

  /** accumulate() lists every category of the level (when it recurses at
      all) and nothing from outside the level and the table. */
  lemma {:induction false} AccumulateMembers(cats: seq<Category>, children: nat -> seq<Category>,
                                            level: seq<Category>, fuel: nat)
    requires ChildrenOf(cats, children)
    ensures forall c :: c in level && fuel > 0 ==> c in Accumulate(children, level, fuel)
    ensures forall c :: c in Accumulate(children, level, fuel) ==> c in level || c in cats
    decreases fuel, |level|
  {
    if level != [] && fuel != 0 {
      var h := level[0];
      var a := Accumulate(children, children(h.id), fuel - 1);
      var b := Accumulate(children, level[1..], fuel);
      AccumulateMembers(cats, children, children(h.id), fuel - 1);
      AccumulateMembers(cats, children, level[1..], fuel);
      assert Accumulate(children, level, fuel) == [h] + a + b;
      forall c | c in level
        ensures c in [h] + a + b
      {
        if c != h {
          assert c in level[1..];
        }
      }
    }
  }

  /** Category.in_order: the site's root categories, each followed by its
      descendants. */
  method InOrder(cats: seq<Category>, site: nat) returns (objects: seq<Category>)
    ensures objects == Accumulate((id: nat) => Children(cats, id), Roots(cats, site), |cats|)
  {
    objects := AccumulateInto((id: nat) => Children(cats, id), Roots(cats, site), |cats|, []);
  }

  /** accumulate() as the source runs it: appending to `objects` while
      looping over a level and recursing into each category's children. */
  method AccumulateInto(children: nat -> seq<Category>, level: seq<Category>, fuel: nat, objects: seq<Category>)
    returns (out: seq<Category>)
    ensures out == objects + Accumulate(children, level, fuel)
    decreases fuel
  {
    out := objects;
    if fuel == 0 {
      return;
    }
    var i := 0;
    while i < |level|
      invariant 0 <= i <= |level|
      invariant out + Accumulate(children, level[i..], fuel) == objects + Accumulate(children, level, fuel)
    {
      var category := level[i];
      assert level[i..][1..] == level[i + 1..];
      out := out + [category];
      out := AccumulateInto(children, children(category.id), fuel - 1, out);
      i := i + 1;
    }
    assert level[i..] == [];
  }

  /** in_order lists only the site's category tree: every listed category
      is a root of the site or comes after its parent, every root of the
      site is listed, and nothing outside the table is. */
  lemma InOrderParentsFirst(cats: seq<Category>, site: nat)
    ensures var r := Accumulate((id: nat) => Children(cats, id), Roots(cats, site), |cats|);
            (forall i :: 0 <= i < |r| ==> (r[i].site == site && r[i].parent.None?) || HasParentBefore(r, i)) &&
            (forall c :: c in cats && c.site == site && c.parent.None? ==> c in r) &&
            (forall c :: c in r ==> c in cats)
  {
    var children := (id: nat) => Children(cats, id);
    assert ChildrenOf(cats, children);
    AccumulateParentsFirst(cats, children, Roots(cats, site), |cats|);
    AccumulateMembers(cats, children, Roots(cats, site), |cats|);
  }

  /** `c` is reached from `a` by following `n` parent links through the
      table: c, its parent, ..., a. */
  ghost predicate ChainTo(cats: seq<Category>, c: Category, a: Category, n: nat)
    decreases n
  {
    if n == 0 then c == a
    else c.parent.Some? && exists p :: p in cats && p.id == c.parent.value && ChainTo(cats, p, a, n - 1)
  }

  /** A chain of one link or more starts with a child of its top. */
  lemma {:induction false} ChainTop(cats: seq<Category>, c: Category, a: Category, n: nat)
    requires n > 0 && c in cats && ChainTo(cats, c, a, n)
    ensures exists k :: k in cats && k.parent == Some(a.id) && ChainTo(cats, c, k, n - 1)
    decreases n
  {
    var p :| p in cats && p.id == c.parent.value && ChainTo(cats, p, a, n - 1);
    if n == 1 {
      assert c.parent == Some(a.id) && ChainTo(cats, c, c, 0);
    } else {
      ChainTop(cats, p, a, n - 1);
      var k :| k in cats && k.parent == Some(a.id) && ChainTo(cats, p, k, n - 2);
      assert ChainTo(cats, c, k, n - 1);
    }
  }

  /** The children function lists every category with that parent. */
  ghost predicate ChildrenComplete(cats: seq<Category>, children: nat -> seq<Category>) {
    forall id: nat, c :: c in cats && c.parent == Some(id) ==> c in children(id)
  }

  /** accumulate() of a level lists everything it lists for the children
      of a category of that level. */
  lemma {:induction false} AccumulateCoversChildren(children: nat -> seq<Category>, level: seq<Category>,
                                                   fuel: nat, a: Category)
    requires a in level && fuel > 0
    ensures forall c :: c in Accumulate(children, children(a.id), fuel - 1) ==> c in Accumulate(children, level, fuel)
    decreases |level|
  {
    var r := Accumulate(children, level, fuel);
    var kids := Accumulate(children, children(level[0].id), fuel - 1);
    var rest := Accumulate(children, level[1..], fuel);
    assert r == [level[0]] + kids + rest;
    if level[0] != a {
      assert a in level[1..];
      AccumulateCoversChildren(children, level[1..], fuel, a);
    }
  }

  /** A category reached from a category of the level within fewer links
      than the fuel is listed. */
  lemma {:induction false} AccumulateListsChain(cats: seq<Category>, children: nat -> seq<Category>,
                                               level: seq<Category>, fuel: nat, a: Category, c: Category, n: nat)
    requires ChildrenOf(cats, children) && ChildrenComplete(cats, children)
    requires a in level && n < fuel && c in cats && ChainTo(cats, c, a, n)
    ensures c in Accumulate(children, level, fuel)
    decreases n
  {
    if n == 0 {
      assert c == a;
      AccumulateMembers(cats, children, level, fuel);
    } else {
      ChainTop(cats, c, a, n);
      var k :| k in cats && k.parent == Some(a.id) && ChainTo(cats, c, k, n - 1);
      assert k in children(a.id);
      AccumulateListsChain(cats, children, children(a.id), fuel - 1, k, c, n - 1);
      assert c in Accumulate(children, children(a.id), fuel - 1);
      AccumulateCoversChildren(children, level, fuel, a);
    }
  }

  /** in_order lists every descendant of a root of the site: a category
      whose parent chain reaches such a root in fewer links than there
      are categories (always the case when the tree has no cycle, as a
      chain then visits distinct categories). */
  lemma InOrderListsDescendants(cats: seq<Category>, site: nat)
    ensures var r := Accumulate((id: nat) => Children(cats, id), Roots(cats, site), |cats|);
            forall c, root, n: nat ::
              (c in cats && root in cats && root.site == site && root.parent.None? &&
               n < |cats| && ChainTo(cats, c, root, n)) ==> c in r
  {
    var children := (id: nat) => Children(cats, id);
    assert ChildrenOf(cats, children);
    assert ChildrenComplete(cats, children);
    forall c, root, n: nat | c in cats && root in cats && root.site == site && root.parent.None? &&
                        n < |cats| && ChainTo(cats, c, root, n)
      ensures c in Accumulate(children, Roots(cats, site), |cats|)
    {
      AccumulateListsChain(cats, children, Roots(cats, site), |cats|, root, c, n);
    }
  }

  // ---------------------------------------------------------------- sites, watches

  /** SiteLocation.user_is_admin: the loop over the user's admin_for
      sites. */
  method UserIsAdminFor(site: nat, user: User) returns (r: bool)
    ensures r == UserIsAdmin(site, user)
  {
    if !user.authenticated || !user.active {
      return false;
    }
    if user.superuser {
      return true;
    }
    var i := 0;
    while i < |user.adminFor|
      invariant 0 <= i <= |user.adminFor|
      invariant site !in user.adminFor[..i]
    {
      if user.adminFor[i] == site {
        return true;
      }
      assert user.adminFor[..i + 1] == user.adminFor[..i] + [user.adminFor[i]];
      i := i + 1;
    }
    assert user.adminFor[..i] == user.adminFor;
    return false;
  }

  /** The loopback address, behind which the forwarded address is used. */
  const Loopback := "127.0.0.1"

  /** Watch.add's address: REMOTE_ADDR, '0.0.0.0' without one, and the
      X-Forwarded-For header instead of the loopback address when the
      request carries it. */
  function WatchIp(meta: map<string, string>): (ip: string)
    ensures "REMOTE_ADDR" !in meta ==> ip == "0.0.0.0"
    ensures "REMOTE_ADDR" in meta && meta["REMOTE_ADDR"] != Loopback ==> ip == meta["REMOTE_ADDR"]
    ensures "REMOTE_ADDR" in meta && meta["REMOTE_ADDR"] == Loopback ==>
              ip == (if "HTTP_X_FORWARDED_FOR" in meta then meta["HTTP_X_FORWARDED_FOR"] else Loopback)
  {
    var ip := if "REMOTE_ADDR" in meta then meta["REMOTE_ADDR"] else "0.0.0.0";
    if ip == Loopback && "HTTP_X_FORWARDED_FOR" in meta then meta["HTTP_X_FORWARDED_FOR"] else ip
  }

  /** Watch.add: the watch recorded for a request; the user is kept only
      when authenticated. */
  function WatchAdd(meta: map<string, string>, user: User, video: nat, now: Time): (w: Watch)
    ensures w.video == video && w.timestamp == now && w.ip == WatchIp(meta)
    ensures w.user.Some? <==> user.authenticated
    ensures w.user.Some? ==> w.user.value == user.pk
  {
    Watch(video, now, WatchIp(meta), if user.authenticated then Some(user.pk) else None)
  }
}
