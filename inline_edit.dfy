/** The inline-edit forms (localtv/inline_edit/forms.py): the editor's
    comment kept on a video, and the tags form. */
module InlineEdit {
  import opened Common
  import Store

  type Comment = Store.Comment

  /** The init lookup: a comment of the video's site, on the video, flagged
      'editors comment'. */
  predicate IsEditorsComment(c: Comment, v: Video) {
    c.site == Some(v.site) && c.objectPk == v.id && c.editorsFlag
  }

  /** The comments the init lookup finds, in table order. */
  function EditorsComments(cs: seq<Comment>, v: Video): (r: seq<Comment>)
    ensures forall c :: c in r <==> c in cs && IsEditorsComment(c, v)
  {
    Filter(cs, (c: Comment) => IsEditorsComment(c, v))
  }

  function CommentIds(cs: seq<Comment>): (r: seq<nat>)
    ensures |r| == |cs| && forall i :: 0 <= i < |cs| ==> r[i] == cs[i].id
  {
    MapSeq(cs, (c: Comment) => c.id)
  }

  /** No two comment rows share a primary key. */
  predicate UniqueCommentIds(cs: seq<Comment>) {
    forall i, j :: 0 <= i < j < |cs| ==> cs[i].id != cs[j].id
  }

  /** Every id of the table is below the next free one. */
  predicate CommentIdsBelow(cs: seq<Comment>, next: nat) {
    forall i :: 0 <= i < |cs| ==> cs[i].id < next
  }

  /** Two rows of a table with unique ids that share an id are one row. */
  lemma SameIdSameComment(cs: seq<Comment>, a: Comment, b: Comment)
    requires UniqueCommentIds(cs) && a in cs && b in cs && a.id == b.id
    ensures a == b
  {
    var i :| 0 <= i < |cs| && cs[i] == a;
    var j :| 0 <= j < |cs| && cs[j] == b;
    assert !(i < j) && !(j < i);
  }

  /** A filtered table keeps its ids unique. */
  lemma {:induction false} FilterUniqueIds(cs: seq<Comment>, p: Comment -> bool)
    requires UniqueCommentIds(cs)
    ensures UniqueCommentIds(Filter(cs, p))
  {
    if cs != [] {
      var rest := Filter(cs[1..], p);
      FilterUniqueIds(cs[1..], p);
      if p(cs[0]) {
        var r := [cs[0]] + rest;
        assert Filter(cs, p) == r;
        forall i, j | 0 <= i < j < |r|
          ensures r[i].id != r[j].id
        {
          if i == 0 {
            assert r[j] == rest[j - 1] && rest[j - 1] in cs[1..];
            var k :| 0 <= k < |cs[1..]| && cs[1..][k] == rest[j - 1];
            assert cs[k + 1] == r[j];
          } else {
            assert r[i] == rest[i - 1] && r[j] == rest[j - 1];
          }
        }
      } else {
        assert Filter(cs, p) == rest;
      }
    }
  }

  /** The primary keys of the found comments after the first. */
  function Extras(cs: seq<Comment>, v: Video): (r: seq<nat>)
    ensures var found := EditorsComments(cs, v);
            found != [] ==> r == CommentIds(found[1..])
    ensures EditorsComments(cs, v) == [] ==> r == []
  {
    var found := EditorsComments(cs, v);
    if found == [] then [] else CommentIds(found[1..])
  }

  /** The table without the rows whose primary key is listed. */
  function Pruned(cs: seq<Comment>, ids: seq<nat>): (r: seq<Comment>)
    ensures forall c :: c in r <==> c in cs && c.id !in ids
  {
    Filter(cs, (c: Comment) => c.id !in ids)
  }

  /** The table after the init deletes every found comment but the first:
      each extra is deleted by primary key. */
  function AfterInit(cs: seq<Comment>, v: Video): (r: seq<Comment>)
    ensures forall c :: c in r <==> c in cs && c.id !in Extras(cs, v)
  {
    Pruned(cs, Extras(cs, v))
  }

  /** After the init at most one editor's comment of the video is left,
      the one it keeps; every other comment of the table stays. */
  lemma AtMostOneEditorsComment(cs: seq<Comment>, v: Video)
    requires UniqueCommentIds(cs) && EditorsComments(cs, v) != []
    ensures var found := EditorsComments(cs, v);
            found[0] in AfterInit(cs, v) &&
            (forall c :: c in AfterInit(cs, v) && IsEditorsComment(c, v) ==> c == found[0]) &&
            (forall c :: c in cs && !IsEditorsComment(c, v) ==> c in AfterInit(cs, v))
  {
    var found := EditorsComments(cs, v);
    var extras := Extras(cs, v);
    FilterUniqueIds(cs, (c: Comment) => IsEditorsComment(c, v));
    forall c | c in AfterInit(cs, v) && IsEditorsComment(c, v)
      ensures c == found[0]
    {
      var i :| 0 <= i < |found| && found[i] == c;
    }
    forall c | c in cs && !IsEditorsComment(c, v)
      ensures c in AfterInit(cs, v)
    {
      if c.id in extras {
        var k :| 0 <= k < |extras| && extras[k] == c.id;
        SameIdSameComment(cs, c, found[k + 1]);
        assert false;
      }
    }
  }

  /** `comment.delete()` on the form's comment, when it has one: the rows
      with its primary key go. */
  function WithoutComment(cs: seq<Comment>, existing: Option<Comment>): (r: seq<Comment>)
    ensures forall c :: c in r <==> c in cs && (existing.None? || c.id != existing.value.id)
  {
    match existing
    case None => Filter(cs, (c: Comment) => true)
    case Some(e) => Filter(cs, (c: Comment) => c.id != e.id)
  }

  /** The comment `save` builds, as written: the text on the video,
      removed and not public so that it stays out of the moderation queue,
      and no site. */
  function DraftAsWritten(v: Video, text: string): (r: Comment)
    ensures r.site.None? && r.objectPk == v.id && r.text == text && r.isRemoved && !r.isPublic
  {
    Store.Comment(0, None, v.id, text, true, false, false)
  }

  /** The comment `save` evidently means to build: the same, on the
      video's site, which is where the init looks for it. */
  function Draft(v: Video, text: string): (r: Comment)
    ensures r.site == Some(v.site) && r.objectPk == v.id && r.text == text && r.isRemoved && !r.isPublic
    ensures !r.editorsFlag
  {
    Store.Comment(0, Some(v.site), v.id, text, true, false, false)
  }

  /** The draft once saved under a primary key and flagged by save_m2m. */
  function Stored(d: Comment, id: nat): (r: Comment)
    ensures r.id == id && r.editorsFlag && r.(id := d.id, editorsFlag := d.editorsFlag) == d
  {
    d.(id := id, editorsFlag := true)
  }

  /** The table after an init that found the comments `found` and a
      committed save of `text`, given the comment save builds. */
  function InitThenSave(cs: seq<Comment>, v: Video, text: string, next: nat, draft: Comment): seq<Comment> {
    var found := EditorsComments(cs, v);
    var kept := if found == [] then None else Some(found[0]);
    WithoutComment(AfterInit(cs, v), kept) + (if text == "" then [] else [Stored(draft, next)])
  }

  /** Once the init has pruned the video's editor's comments, deleting the
      kept one leaves none the init could find, and every other comment. */
  lemma NoneLeftAfterDelete(cs: seq<Comment>, v: Video)
    requires UniqueCommentIds(cs)
    ensures var found := EditorsComments(cs, v);
            var rest := WithoutComment(AfterInit(cs, v), if found == [] then None else Some(found[0]));
            (forall c :: c in rest ==> !IsEditorsComment(c, v)) &&
            (forall c :: c in cs && !IsEditorsComment(c, v) ==> c in rest)
  {
    var found := EditorsComments(cs, v);
    if found != [] {
      AtMostOneEditorsComment(cs, v);
    } else {
      forall c | c in cs && !IsEditorsComment(c, v)
        ensures c in AfterInit(cs, v)
      {
      }
    }
  }

  /** The lookup on a table grown by one row. */
  lemma EditorsCommentsSnoc(cs: seq<Comment>, x: Comment, v: Video)
    ensures EditorsComments(cs + [x], v) == EditorsComments(cs, v) + (if IsEditorsComment(x, v) then [x] else [])
  {
    FilterSnoc(cs, x, (c: Comment) => IsEditorsComment(c, v));
  }

  /** The lookup on a table without any editor's comment of the video. */
  lemma NoEditorsComments(cs: seq<Comment>, v: Video)
    requires forall c :: c in cs ==> !IsEditorsComment(c, v)
    ensures EditorsComments(cs, v) == []
  {
    FilterNone(cs, (c: Comment) => IsEditorsComment(c, v));
  }

  /** As written, the new editor's comment carries no site, so even when
      its save goes through the init lookup on the next request finds
      nothing. (Database constraints are not modelled: with a non-null
      site column the save fails instead.) */
  lemma SavedCommentLost(cs: seq<Comment>, v: Video, text: string, next: nat)
    requires UniqueCommentIds(cs) && text != ""
    ensures EditorsComments(InitThenSave(cs, v, text, next, DraftAsWritten(v, text)), v) == []
  {
    NoneLeftAfterDelete(cs, v);
    var found := EditorsComments(cs, v);
    var rest := WithoutComment(AfterInit(cs, v), if found == [] then None else Some(found[0]));
    var x := Stored(DraftAsWritten(v, text), next);
    assert InitThenSave(cs, v, text, next, DraftAsWritten(v, text)) == rest + [x];
    EditorsCommentsSnoc(rest, x, v);
    NoEditorsComments(rest, v);
  }

  /** With the site set, an init and a committed save leave exactly one
      editor's comment the init finds, the new one, and every comment of
      the table that is not one of the video's editor's comments. */
  lemma SavedCommentFound(cs: seq<Comment>, v: Video, text: string, next: nat)
    requires UniqueCommentIds(cs) && text != ""
    ensures var r := InitThenSave(cs, v, text, next, Draft(v, text));
            EditorsComments(r, v) == [Stored(Draft(v, text), next)] &&
            forall c :: c in cs && !IsEditorsComment(c, v) ==> c in r
  {
    NoneLeftAfterDelete(cs, v);
    var found := EditorsComments(cs, v);
    var rest := WithoutComment(AfterInit(cs, v), if found == [] then None else Some(found[0]));
    var x := Stored(Draft(v, text), next);
    assert InitThenSave(cs, v, text, next, Draft(v, text)) == rest + [x];
    EditorsCommentsSnoc(rest, x, v);
    NoEditorsComments(rest, v);
  }

  /** An empty text only deletes: the init's comment goes and nothing is
      created. */
  lemma EmptyTextDeletes(cs: seq<Comment>, v: Video, next: nat, draft: Comment)
    requires UniqueCommentIds(cs)
    ensures EditorsComments(InitThenSave(cs, v, "", next, draft), v) == []
  {
    NoneLeftAfterDelete(cs, v);
    var found := EditorsComments(cs, v);
    var rest := WithoutComment(AfterInit(cs, v), if found == [] then None else Some(found[0]));
    assert InitThenSave(cs, v, "", next, draft) == rest;
    NoEditorsComments(rest, v);
  }

  /** VideoEditorsComment: the form, the comment it found or created, its
      initial text, and whether save_m2m is still to be called. */
  class EditorsCommentForm {
    const instance: Option<Video>
    var comment: Option<Comment>
    /** initial['editors_comment'], "" when it is not set. */
    var initial: string
    /** save() without commit leaves the flag to a later save_m2m call. */
    var flagPending: bool

    /** __init__: with a video, the editor's comments of the video are
        looked up; the first is kept and shown, the others are deleted.
        Without a video there is no comment. */
    constructor (db: Store.Db, instance: Option<Video>)
      modifies db`comments
      ensures this.instance == instance && !flagPending
      ensures instance.None? ==> comment.None? && initial == "" && db.comments == old(db.comments)
      ensures instance.Some? && EditorsComments(old(db.comments), instance.value) == [] ==>
                comment.None? && initial == "" && db.comments == old(db.comments)
      ensures instance.Some? && EditorsComments(old(db.comments), instance.value) != [] ==>
                var found := EditorsComments(old(db.comments), instance.value);
                comment == Some(found[0]) && initial == found[0].text &&
                db.comments == AfterInit(old(db.comments), instance.value)
    {
      this.instance := instance;
      comment := None;
      initial := "";
      flagPending := false;
      if instance.Some? {
        var found := EditorsComments(db.comments, instance.value);
        if found != [] {
          comment := Some(found[0]);
          DeleteExtras(db, Extras(db.comments, instance.value));
          initial := found[0].text;
        }
      }
    }

    /** save(): the form's comment is deleted; an empty text stops there.
        Otherwise a new comment is built on the video, on the video's site,
        and with commit it is inserted under the next primary key and
        flagged as the editor's comment at once; without commit it is not
        stored and the flag waits for save_m2m. Without a video the form
        has no content type to build it with and fails. */
    method Save(db: Store.Db, text: string, commit: bool) returns (r: Result<Option<Comment>, string>)
      modifies this`comment, this`flagPending, db`comments, db`nextId
      ensures text == "" ==> r == Ok(None) && comment == old(comment) && flagPending == old(flagPending)
      ensures text == "" || instance.None? ==>
                db.comments == WithoutComment(old(db.comments), old(comment)) && db.nextId == old(db.nextId)
      ensures text != "" && instance.None? ==> r.Err? && comment == old(comment) && flagPending == old(flagPending)
      ensures text != "" && instance.Some? && commit ==>
                var stored := Stored(Draft(instance.value, text), old(db.nextId));
                r == Ok(Some(stored)) && comment == Some(stored) && !flagPending &&
                db.comments == WithoutComment(old(db.comments), old(comment)) + [stored] &&
                db.nextId == old(db.nextId) + 1
      ensures text != "" && instance.Some? && !commit ==>
                var draft := Draft(instance.value, text);
                r == Ok(Some(draft)) && comment == Some(draft) && flagPending &&
                db.comments == WithoutComment(old(db.comments), old(comment)) && db.nextId == old(db.nextId)
    {
      db.comments := WithoutComment(db.comments, comment);
      if text == "" {
        return Ok(None);
      }
      if instance.None? {
        return Err("'VideoEditorsComment' object has no attribute 'content_type'");
      }
      var draft := Draft(instance.value, text);
      if commit {
        var stored := Stored(draft, db.nextId);
        db.comments := db.comments + [stored];
        db.nextId := db.nextId + 1;
        comment := Some(stored);
        flagPending := false;
      } else {
        comment := Some(draft);
        flagPending := true;
      }
      r := Ok(comment);
    }
  }

  /** The init's loop over the found comments after the first: each is
      deleted by primary key, one at a time. */
  method DeleteExtras(db: Store.Db, extras: seq<nat>)
    modifies db`comments
    ensures db.comments == Pruned(old(db.comments), extras)
  {
    var c0 := db.comments;
    FilterKeepsAll(c0, (c: Comment) => c.id !in extras[..0]);
    var i := 0;
    while i < |extras|
      invariant 0 <= i <= |extras|
      invariant db.comments == Pruned(c0, extras[..i])
    {
      var gone := extras[i];
      assert extras[..i + 1] == extras[..i] + [gone];
      FilterFilter(c0, (c: Comment) => c.id !in extras[..i], (c: Comment) => c.id != gone,
                   (c: Comment) => c.id !in extras[..i + 1]);
      db.comments := Filter(db.comments, (c: Comment) => c.id != gone);
      i := i + 1;
    }
    assert extras[..i] == extras;
  }

  /** VideoTagsForm.__init__: the tags field starts as the instance's tags
      rendered by edit_string_for_tags, which is a parameter here. */
  function TagsInitial(instance: Video, editString: seq<string> -> string): (r: string)
    ensures r == editString(instance.tags)
  {
    editString(instance.tags)
  }

  /** VideoTagsForm.save: the cleaned tags are put on the instance, and the
      ModelForm save stores it when committing. */
  method TagsSave(db: Store.Db, instance: Video, tags: seq<string>, commit: bool) returns (r: Video)
    modifies db`videos
    ensures r == instance.(tags := tags)
    ensures commit ==> db.videos == Store.SaveVideo(old(db.videos), r)
    ensures !commit ==> db.videos == old(db.videos)
  {
    r := instance.(tags := tags);
    if commit {
      db.videos := Store.SaveVideo(db.videos, r);
    }
  }

  /** After a committed save the video's row, looked up by primary key,
      carries the new tags, and a tags form built on it shows them. */
  lemma TagsReload(videos: seq<Video>, instance: Video, tags: seq<string>, editString: seq<string> -> string)
    ensures var r := Store.SaveVideo(videos, instance.(tags := tags));
            var k := Store.FindById(r, instance.id);
            k.Some? && r[k.value].tags == tags && TagsInitial(r[k.value], editString) == editString(tags)
  {
    var saved := instance.(tags := tags);
    var r := Store.SaveVideo(videos, saved);
    var i :| 0 <= i < |r| && r[i] == saved;
    assert r[i].id == instance.id;
  }
}
