/** PlaylistForm (localtv/playlists/forms.py): a playlist's name and slug
    are unique among the playlists of its owner. */
module PlaylistForms {
  import opened Common

  /** The field a clean_<field> method checks. */
  datatype UniqueField = Name | Slug {
    function Get(p: Playlist): string {
      match this
      case Name => p.name
      case Slug => p.slug
    }

    function Set(p: Playlist, value: string): Playlist {
      match this
      case Name => p.(name := value)
      case Slug => p.(slug := value)
    }

    function Label(): string {
      match this
      case Name => "name"
      case Slug => "slug"
    }
  }

  /** Some playlist of `user` already has `value` in `field`. */
  predicate Taken(playlists: seq<Playlist>, field: UniqueField, user: nat, value: string) {
    exists i :: 0 <= i < |playlists| && playlists[i].user == user && field.Get(playlists[i]) == value
  }

  /** _clean_unique: an unchanged value is accepted without a lookup; a
      changed one is rejected exactly when a playlist of the same owner
      has it. */
  function CleanUnique(playlists: seq<Playlist>, instance: Playlist, field: UniqueField, value: string)
    : (r: Result<string, string>)
    ensures field.Get(instance) == value ==> r == Ok(value)
    ensures field.Get(instance) != value ==>
              (r.Err? <==> Taken(playlists, field, instance.user, value))
    ensures r.Ok? ==> r.value == value
    ensures r.Err? ==> r.error == "A playlist with that " + field.Label() + " already exists"
  {
    if field.Get(instance) == value then Ok(value)
    else if Taken(playlists, field, instance.user, value) then
      Err("A playlist with that " + field.Label() + " already exists")
    else Ok(value)
  }

  /** Playlists of other users never conflict. */
  lemma OtherUsersNeverConflict(playlists: seq<Playlist>, instance: Playlist, field: UniqueField, value: string)
    requires forall i :: 0 <= i < |playlists| && field.Get(playlists[i]) == value ==> playlists[i].user != instance.user
    ensures CleanUnique(playlists, instance, field, value) == Ok(value)
  {
  }

  /** No two playlists of one owner share the field's value. */
  predicate UniquePerUser(playlists: seq<Playlist>, field: UniqueField) {
    forall i, j :: 0 <= i < j < |playlists| && playlists[i].user == playlists[j].user ==>
      field.Get(playlists[i]) != field.Get(playlists[j])
  }

  /** Saving an edit the form accepted keeps the owner's values unique. */
  lemma {:induction false} AcceptedEditKeepsUnique(playlists: seq<Playlist>, k: nat, field: UniqueField, value: string)
    requires UniquePerUser(playlists, field) && k < |playlists|
    requires CleanUnique(playlists, playlists[k], field, value).Ok?
    ensures UniquePerUser(playlists[k := field.Set(playlists[k], value)], field)
  {
    var after := playlists[k := field.Set(playlists[k], value)];
    if field.Get(playlists[k]) != value {
      forall i, j | 0 <= i < j < |after| && after[i].user == after[j].user
        ensures field.Get(after[i]) != field.Get(after[j])
      {
        if i == k {
          assert !(playlists[j].user == playlists[k].user && field.Get(playlists[j]) == value);
        } else if j == k {
          assert !(playlists[i].user == playlists[k].user && field.Get(playlists[i]) == value);
        }
      }
    } else {
      assert field.Set(playlists[k], value) == playlists[k] by {
        match field
        case Name =>
        case Slug =>
      }
      assert after == playlists;
    }
  }
}
