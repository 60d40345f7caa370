/** The category admin page (categories in
    localtv/admin/legacy/category_views.py): adding a category to the
    current site, saving the formset, and the bulk delete that first
    detaches the children of every deleted category. */
module CategoryViews {
  import opened Common
  import Store

  /** A category with its parent link cut when that parent is one of `ids`. */
  function OrphanOf(c: Category, ids: seq<nat>): (r: Category)
    ensures r.id == c.id && r.site == c.site && r.name == c.name && r.slug == c.slug
    ensures r.parent.Some? <==> c.parent.Some? && c.parent.value !in ids
    ensures r.parent.Some? ==> r.parent == c.parent
  {
    if c.parent.Some? && c.parent.value in ids then c.(parent := None) else c
  }

  /** The table once the categories `ids` are gone: every other category
      stays, in order, with its parent cut when the parent was deleted. */
  function Orphaned(cats: seq<Category>, ids: seq<nat>): (r: seq<Category>)
    ensures |r| <= |cats|
    ensures forall c :: c in r ==> c.id !in ids && (c.parent.Some? ==> c.parent.value !in ids)
    decreases |cats|
  {
    if cats == [] then []
    else (if cats[0].id in ids then [] else [OrphanOf(cats[0], ids)]) + Orphaned(cats[1..], ids)
  }

  /** Every category that is not deleted survives, detached from a
      deleted parent and otherwise unchanged. */
  lemma {:induction false} OrphanedKeepsOthers(cats: seq<Category>, ids: seq<nat>, c: Category)
    requires c in cats && c.id !in ids
    ensures OrphanOf(c, ids) in Orphaned(cats, ids)
    decreases |cats|
  {
    if cats[0] != c {
      OrphanedKeepsOthers(cats[1..], ids, c);
    }
  }

  /** Deleting `ids` and then one more category is deleting them all at
      once. */
  lemma {:induction false} OrphanedSnoc(cats: seq<Category>, ids: seq<nat>, id: nat)
    ensures Orphaned(Orphaned(cats, ids), [id]) == Orphaned(cats, ids + [id])
    decreases |cats|
  {
    if cats != [] {
      OrphanedSnoc(cats[1..], ids, id);
      var c := cats[0];
      var tail := Orphaned(cats[1..], ids);
      assert c.id in ids + [id] <==> c.id in ids || c.id == id;
      if c.id !in ids {
        var o := OrphanOf(c, ids);
        var rest := [o] + tail;
        assert Orphaned(cats, ids) == rest;
        assert rest[0] == o && rest[1..] == tail;
        OrphanOfTwice(c, ids, id);
        assert Orphaned(rest, [id]) == (if o.id in [id] then [] else [OrphanOf(o, [id])]) + Orphaned(tail, [id]);
        assert Orphaned(cats, ids + [id])
            == (if c.id in ids + [id] then [] else [OrphanOf(c, ids + [id])]) + Orphaned(cats[1..], ids + [id]);
        if c.id == id {
          assert o.id in [id] && c.id in ids + [id];
        } else {
          assert o.id !in [id] && c.id !in ids + [id];
        }
      } else {
        assert Orphaned(cats, ids) == tail;
        assert c.id in ids + [id];
      }
    }
  }

  /** Cutting the links to `ids`, then to `id`, cuts the links to both. */
  lemma OrphanOfTwice(c: Category, ids: seq<nat>, id: nat)
    ensures OrphanOf(OrphanOf(c, ids), [id]) == OrphanOf(c, ids + [id])
  {
    if c.parent.Some? {
      assert c.parent.value in ids + [id] <==> c.parent.value in ids || c.parent.value == id;
    }
  }

  /** One deletion as the view performs it: every child of the category
      is saved with no parent, then the category is deleted. */
  function DeleteOne(cats: seq<Category>, id: nat): seq<Category> {
    Filter(MapSeq(cats, (c: Category) => OrphanOf(c, [id])), (c: Category) => c.id != id)
  }

  lemma {:induction false} DeleteOneOrphans(cats: seq<Category>, id: nat)
    ensures DeleteOne(cats, id) == Orphaned(cats, [id])
    decreases |cats|
  {
    if cats != [] {
      DeleteOneOrphans(cats[1..], id);
      var f := (c: Category) => OrphanOf(c, [id]);
      assert MapSeq(cats, f) == [f(cats[0])] + MapSeq(cats[1..], f);
    }
  }

  /** The checked categories deleted one after another. */
  function DeleteChecked(cats: seq<Category>, ids: seq<nat>): seq<Category>
    decreases |ids|
  {
    if ids == [] then cats else DeleteOne(DeleteChecked(cats, ids[..|ids| - 1]), ids[|ids| - 1])
  }

  /** Deleting in sequence leaves exactly the unchecked categories, each
      detached from any deleted parent: no remaining category points at a
      deleted one, whatever the order of the checks. */
  lemma {:induction false} DeleteCheckedOrphans(cats: seq<Category>, ids: seq<nat>)
    ensures DeleteChecked(cats, ids) == Orphaned(cats, ids)
    decreases |ids|
  {
    if ids == [] {
      OrphanedNone(cats);
    } else {
      var init := ids[..|ids| - 1];
      var last := ids[|ids| - 1];
      DeleteCheckedOrphans(cats, init);
      DeleteOneOrphans(Orphaned(cats, init), last);
      OrphanedSnoc(cats, init, last);
      assert init + [last] == ids;
    }
  }

  /** Deleting nothing changes nothing. */
  lemma {:induction false} OrphanedNone(cats: seq<Category>)
    ensures Orphaned(cats, []) == cats
    decreases |cats|
  {
    if cats != [] {
      OrphanedNone(cats[1..]);
      assert cats == [cats[0]] + cats[1..];
    }
  }

  /** The row with the id of `c` as the formset's form for it saved it,
      or the row unchanged when no form holds it. */
  function EditOf(c: Category, edits: seq<Category>): (r: Category)
    ensures r == c || r in edits
    ensures r.id == c.id || r == c
    ensures (forall e :: e in edits ==> e.id != c.id) ==> r == c
    decreases |edits|
  {
    if edits == [] then c
    else if edits[0].id == c.id then edits[0]
    else EditOf(c, edits[1..])
  }

  /** formset.save(): every row some form holds takes that form's values. */
  function ApplyEdits(cats: seq<Category>, edits: seq<Category>): (r: seq<Category>)
    ensures |r| == |cats|
    ensures forall i :: 0 <= i < |cats| ==> r[i].id == cats[i].id || r[i] == cats[i]
  {
    MapSeq(cats, (c: Category) => EditOf(c, edits))
  }

  /** The page's formset POST once it is valid: the forms are saved
      first, then with bulk_action 'delete' every checked category is
      deleted after its children are detached. */
  function FormsetSaved(cats: seq<Category>, edits: seq<Category>, action: Option<string>, checked: seq<nat>): seq<Category> {
    var saved := ApplyEdits(cats, edits);
    if action == Some("delete") then DeleteChecked(saved, checked) else saved
  }

  /** Because the forms are saved before the deletions, a parent link
      that a form sets to a deleted category is cut as well. */
  lemma SavedThenDeleted(cats: seq<Category>, edits: seq<Category>, checked: seq<nat>)
    ensures var r := FormsetSaved(cats, edits, Some("delete"), checked);
            forall c :: c in r ==> c.id !in checked && (c.parent.Some? ==> c.parent.value !in checked)
  {
    DeleteCheckedOrphans(ApplyEdits(cats, edits), checked);
  }

  /** The redirect after a successful POST. */
  function Successful(path: string): (r: string)
    ensures |r| == |path| + 11 && r[..|path|] == path && r[|path|] == '?'
  {
    path + "?successful"
  }

  /** Detaching the children of category `id`: each child is saved with
      no parent, one at a time. */
  method DetachChildren(db: Store.Db, id: nat)
    modifies db`categories
    ensures db.categories == MapSeq(old(db.categories), (c: Category) => OrphanOf(c, [id]))
  {
    ghost var before := db.categories;
    var k := 0;
    while k < |db.categories|
      invariant 0 <= k <= |db.categories| == |before|
      invariant forall j :: 0 <= j < k ==> db.categories[j] == OrphanOf(before[j], [id])
      invariant forall j :: k <= j < |before| ==> db.categories[j] == before[j]
    {
      if db.categories[k].parent == Some(id) {
        db.categories := db.categories[k := db.categories[k].(parent := None)];
      }
      k := k + 1;
    }
  }

  /** The formset branch of the POST: with a valid formset, save the
      forms, run the bulk delete when asked, and redirect; an invalid
      formset changes nothing and the page is shown again. */
  method FormsetPost(db: Store.Db, valid: bool, edits: seq<Category>, action: Option<string>,
                     checked: seq<nat>, path: string)
    returns (redirect: Option<string>)
    modifies db`categories
    ensures valid ==> db.categories == FormsetSaved(old(db.categories), edits, action, checked)
    ensures valid ==> redirect == Some(Successful(path))
    ensures !valid ==> db.categories == old(db.categories) && redirect.None?
  {
    if !valid {
      return None;
    }
    db.categories := ApplyEdits(db.categories, edits);
    ghost var saved := db.categories;
    if action == Some("delete") {
      for i := 0 to |checked|
        invariant db.categories == DeleteChecked(saved, checked[..i])
      {
        assert checked[..i + 1][..i] == checked[..i];
        DetachChildren(db, checked[i]);
        db.categories := Filter(db.categories, (c: Category) => c.id != checked[i]);
      }
      assert checked[..|checked|] == checked;
    }
    redirect := Some(Successful(path));
  }

  /** The add form's branch of the POST (no formset data): a valid form
      saves a new category bound to the current site and redirects;
      an invalid one changes nothing. */
  method AddCategory(db: Store.Db, site: nat, valid: bool, name: string, slug: string,
                     parent: Option<nat>, path: string)
    returns (redirect: Option<string>)
    modifies db`categories, db`nextId
    ensures valid ==> db.categories == old(db.categories) + [Category(old(db.nextId), site, name, slug, parent)]
    ensures valid ==> db.nextId == old(db.nextId) + 1 && redirect == Some(Successful(path))
    ensures !valid ==> db.categories == old(db.categories) && db.nextId == old(db.nextId) && redirect.None?
  {
    if !valid {
      return None;
    }
    db.categories := db.categories + [Category(db.nextId, site, name, slug, parent)];
    db.nextId := db.nextId + 1;
    redirect := Some(Successful(path));
  }
}
