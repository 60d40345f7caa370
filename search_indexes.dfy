/** The video search index (localtv/search_indexes.py): which videos are
    indexed, the derived date fields, and when index updates are queued. */
module SearchIndexes {
  import opened Common
  import Query

  /** prepare_best_date: when_approved, else when_submitted. */
  function PrepareBestDate(v: Video): (r: Time)
    ensures v.whenApproved.Some? ==> r == v.whenApproved.value
    ensures v.whenApproved.None? ==> r == v.whenSubmitted
  {
    if v.whenApproved.Some? then v.whenApproved.value else v.whenSubmitted
  }

  /** prepare_best_date_with_published: when_published, else best_date. */
  function PrepareBestDateWithPublished(v: Video): (r: Time)
    ensures v.whenPublished.Some? ==> r == v.whenPublished.value
    ensures v.whenPublished.None? ==> r == PrepareBestDate(v)
  {
    if v.whenPublished.Some? then v.whenPublished.value else PrepareBestDate(v)
  }

  /** The two best dates always pick one of the video's own dates: the
      first set one of (when_published,) when_approved, when_submitted. */
  lemma BestDateIsAVideoDate(v: Video)
    ensures PrepareBestDate(v) == v.whenSubmitted || Some(PrepareBestDate(v)) == v.whenApproved
    ensures PrepareBestDateWithPublished(v) == PrepareBestDate(v) ||
            Some(PrepareBestDateWithPublished(v)) == v.whenPublished
    ensures v.whenPublished.None? ==> PrepareBestDateWithPublished(v) == PrepareBestDate(v)
  {
  }

  /** The indexed last_featured and when_approved: the placeholder for a
      null date, which the query layer's stored value agrees with. */
  function IndexedDate(d: Option<Time>): (r: Time)
    ensures d.None? ==> r == DatetimeNullPlaceholder
    ensures d.Some? ==> r == d.value
    ensures Query.StoredDate(d, true) == Some(r)
  {
    if d.Some? then d.value else DatetimeNullPlaceholder
  }

  /** index_queryset: only ACTIVE videos are indexed. */
  function IndexQueryset(videos: seq<Video>): (r: seq<Video>)
    ensures forall v :: v in r <==> v in videos && v.status == Active
  {
    Filter(videos, (v: Video) => v.status == Active)
  }

  /** _enqueue_instance: nothing is queued for a video whose name,
      description, website_url and file_url are all empty, nor for one
      saved with update_index=False. */
  function EnqueuesInstance(v: Video, updateIndex: bool): (r: bool)
    ensures r <==> updateIndex && (v.name != "" || v.description != "" || v.websiteUrl != "" || v.fileUrl != "")
  {
    if v.name == "" && v.description == "" && v.websiteUrl == "" && v.fileUrl == "" then false
    else updateIndex
  }

  /** The models whose deletion the index listens for. */
  datatype DeletedModel = FeedModel | SavedSearchModel | UserModel | SiteModel | OtherModel

  /** The index field `_enqueue_fk_delete` looks up for each model. */
  function RelatedField(m: DeletedModel): Option<string> {
    match m
    case FeedModel => Some("feed")
    case SavedSearchModel => Some("search")
    case UserModel => Some("user")
    case SiteModel => Some("site")
    case OtherModel => None
  }

  /** Whether the indexed video points at the deleted instance `pk`. */
  predicate References(v: Video, m: DeletedModel, pk: nat) {
    match m
    case FeedModel => v.feed == Some(pk)
    case SavedSearchModel => v.search == Some(pk)
    case UserModel => v.user == Some(pk)
    case SiteModel => v.site == pk
    case OtherModel => false
  }

  /** _enqueue_fk_delete: the pks of the indexed videos pointing at the
      deleted instance are queued for removal; any other model raises
      ValueError('Unknown related model.'). */
  function EnqueueFkDelete(m: DeletedModel, pk: nat, index: seq<Video>): (r: Result<seq<nat>, string>)
    ensures r.Err? <==> RelatedField(m).None?
    ensures r.Ok? ==> |r.value| <= |index|
    ensures r.Ok? ==> forall v :: v in index && References(v, m, pk) ==> v.id in r.value
    ensures r.Ok? ==> forall id :: id in r.value ==> exists v :: v in index && References(v, m, pk) && v.id == id
  {
    if RelatedField(m).None? then Err("Unknown related model.")
    else
      var hits := Filter(index, (v: Video) => References(v, m, pk));
      var ids := MapSeq(hits, (v: Video) => v.id);
      assert forall v :: v in hits ==> v.id in ids by {
        forall v | v in hits ensures v.id in ids {
          var i :| 0 <= i < |hits| && hits[i] == v;
          assert ids[i] == v.id;
        }
      }
      assert forall id :: id in ids ==> exists v :: v in index && References(v, m, pk) && v.id == id by {
        forall id | id in ids ensures exists v :: v in index && References(v, m, pk) && v.id == id {
          var i :| 0 <= i < |ids| && ids[i] == id;
          assert hits[i] in hits;
        }
      }
      Ok(ids)
  }
}
